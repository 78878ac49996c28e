/** Conversion of a captured `MapserverError` into host exceptions
    (src/error.cpp): `ToV8Error` converts one record, `toV8Error` the whole
    chain, attaching the earlier errors as an ordered `errorStack`. */
module Convert {
  import opened Foreign
  import opened Chain
  import Registry

  /** MapServer's `msGetErrorCodeString`: the category text of a code.  It is
      foreign code, so every conversion takes it as a parameter. */
  type CategoryLookup = int -> string

  /** One converted error: the host `Error` with the properties `ToV8Error` sets. */
  datatype JsError = JsError(
    name: string,
    message: string,
    code: int,
    category: string,
    routine: string,
    isReported: bool)

  /** An exported chain: the primary error and the `errorStack` array attached to it. */
  datatype Exported = Exported(primary: JsError, errorStack: seq<JsError>)

  /** The conversion of one record.  The message falls back to the category
      text when the record has none; the category is set either way. */
  function ToV8Error(category: CategoryLookup, r: Record): (e: JsError)
    ensures e.name == Registry.Init().tag
    ensures e.category == category(r.code)
    ensures r.message != "" ==> e.message == r.message
    ensures r.message == "" ==> e.message == e.category
    ensures e.code == r.code && e.routine == r.routine && e.isReported == r.isReported
  {
    var cat := category(r.code);
    JsError(Registry.Init().tag, if |r.message| > 0 then r.message else cat, r.code, cat, r.routine, r.isReported)
  }

  /** The record a converted error shows: a message equal to the category is
      read as "the record had no message of its own". */
  function Recover(e: JsError): Record
  {
    Record(e.code, e.routine, if e.message == e.category then "" else e.message, e.isReported)
  }

  /** A converted error determines its record exactly when the record's own
      message is empty or differs from its category text. */
  lemma RecoverToV8Error(category: CategoryLookup, r: Record)
    ensures Recover(ToV8Error(category, r)) == r <==> (r.message == "" || r.message != category(r.code))
  {
  }

  /** The conversions of the records reachable from `l`, in link order. */
  function StackOf(category: CategoryLookup, l: Link): (stack: seq<JsError>)
    ensures |stack| == |Records(l)|
    ensures forall i :: 0 <= i < |stack| ==> stack[i] == ToV8Error(category, Records(l)[i])
  {
    match l
    case Nil => []
    case Cons(r, next) => [ToV8Error(category, r)] + StackOf(category, next)
  }

  /** The size of the cause stack for `length` records, guarded against an
      empty chain. */
  function StackSize(length: nat): nat
  {
    if length == 0 then 0 else length - 1
  }

  /** What an empty chain exports: the conversion of an unreported MS_NOERR
      record with no routine and no message of its own, so its message is the
      category text of MS_NOERR; no causes. */
  function Sentinel(category: CategoryLookup): (x: Exported)
    ensures x.errorStack == []
    ensures x.primary.name == Registry.Init().tag
    ensures x.primary.code == MS_NOERR && x.primary.routine == "" && !x.primary.isReported
    ensures x.primary.category == category(MS_NOERR)
    ensures x.primary.message == category(MS_NOERR)
  {
    Exported(ToV8Error(category, Record(MS_NOERR, "", "", false)), [])
  }

  /** `toV8Error` with the underflow corrected by an explicit branch: an empty
      chain exports the sentinel; otherwise the head is the primary error and
      every later record, in order, is one entry of its `errorStack`. */
  function Export(category: CategoryLookup, e: MapserverError): (x: Exported)
    ensures |e.chain| == 0 ==> x == Sentinel(category)
    ensures |e.chain| > 0 ==> x.primary == ToV8Error(category, e.chain[0])
    ensures |x.errorStack| == StackSize(|e.chain|)
    ensures e.Valid() ==> |x.errorStack| == StackSize(e.length)
    ensures forall i :: 0 <= i < |x.errorStack| ==> x.errorStack[i] == ToV8Error(category, e.chain[i + 1])
  {
    if |e.chain| == 0 then Sentinel(category)
    else Exported(ToV8Error(category, e.chain[0]), StackOf(category, NextOf(e)))
  }

  /** The loop of `toV8Error`: walk the `next` pointers, converting each node
      into the next slot of the stack, then convert the head. */
  method ChainToV8Error(category: CategoryLookup, e: MapserverError) returns (x: Exported)
    ensures x == Export(category, e)
  {
    if |e.chain| == 0 {
      return Sentinel(category);
    }
    var error := NextOf(e);
    var stack: seq<JsError> := [];
    while error.Cons?
      invariant stack + StackOf(category, error) == StackOf(category, NextOf(e))
      decreases error
    {
      stack := stack + [ToV8Error(category, error.rec)];
      error := error.next;
    }
    x := Exported(ToV8Error(category, e.chain[0]), stack);
  }

  /** The range of C++ `unsigned int`. */
  const UINT_MODULUS: int := 0x1_0000_0000

  /** `length - 1` evaluated on `unsigned int`: wraps to the largest value at 0. */
  function UnsignedPred(length: nat): (r: nat)
    ensures r < UINT_MODULUS
    ensures 0 < length < UINT_MODULUS ==> r == length - 1
    ensures length == 0 ==> r == UINT_MODULUS - 1
  {
    (length - 1) % UINT_MODULUS
  }

  /** `toV8Error` as written: the stack array is requested with `length - 1`
      slots, and the entries come from walking `next`. */
  datatype AsWritten = AsWritten(requestedSize: nat, exported: Exported)

  /** `toV8Error` exactly as written.  The C++ object always holds its own
      record, so the chain is never empty here. */
  function ExportAsWritten(category: CategoryLookup, e: MapserverError): (w: AsWritten)
    requires |e.chain| > 0
    ensures w.requestedSize == UnsignedPred(e.length)
    ensures w.exported.primary == ToV8Error(category, e.chain[0])
    ensures |w.exported.errorStack| == |e.chain| - 1
    ensures forall i :: 0 <= i < |w.exported.errorStack| ==> w.exported.errorStack[i] == ToV8Error(category, e.chain[i + 1])
  {
    AsWritten(UnsignedPred(e.length), Exported(ToV8Error(category, e.chain[0]), StackOf(category, NextOf(e))))
  }

  /** On a queue MapServer actually filled, the code as written and the
      corrected export agree, and the requested array size is exact. */
  lemma AsWrittenAgrees(category: CategoryLookup, e: MapserverError)
    requires e.Valid() && 0 < e.length < UINT_MODULUS
    ensures ExportAsWritten(category, e).exported == Export(category, e)
    ensures ExportAsWritten(category, e).requestedSize == |Export(category, e).errorStack|
  {
  }

  /** The empty-queue defects as written.  The object below is exactly what
      `CaptureAsWritten(Null, unsetCode, unsetReported)` returns, by its first
      ensures: one uninitialised record while its counter says 0.  Exporting it
      presents that record as the primary error and requests a stack of
      4294967295 slots, none of which is filled. */
  lemma EmptyQueueAsWritten(category: CategoryLookup, unsetCode: int, unsetReported: bool)
    ensures var e := MapserverError([Record(unsetCode, "", "", unsetReported)], 0);
      && !e.Valid()
      && ExportAsWritten(category, e).requestedSize == 4294967295
      && ExportAsWritten(category, e).exported.errorStack == []
      && ExportAsWritten(category, e).exported.primary.code == unsetCode
      && ExportAsWritten(category, e).exported.primary.isReported == unsetReported
      && ExportAsWritten(category, e).exported.primary.routine == ""
  {
  }

  /** The corrected empty case: a null head captures nothing and exports the
      sentinel with an empty stack. */
  lemma EmptyQueueCorrected(category: CategoryLookup)
    ensures Capture(Null).Valid() && Capture(Null).length == 0
    ensures Export(category, Capture(Null)) == Sentinel(category)
    ensures Export(category, Capture(Null)).errorStack == []
  {
  }

  /** End to end: the most recent foreign error becomes the primary error and
      every earlier one, in queue order, one entry of `errorStack`. */
  lemma CaptureThenExport(category: CategoryLookup, q: ErrorObj)
    requires q.Node?
    ensures var x := Export(category, Capture(q));
      && x.primary == ToV8Error(category, Copy(q))
      && |x.errorStack| == Length(q) - 1
      && forall i :: 0 <= i < |x.errorStack| ==> x.errorStack[i] == ToV8Error(category, Copy(At(q, i + 1)))
  {
    assert At(q, 0) == q;
  }

  /** An error built from a message exports as itself alone, unreported, with
      an empty cause stack. */
  lemma SingleErrorExport(category: CategoryLookup, message: string, routine: string, code: int)
    ensures Export(category, FromMessage(message, routine, code))
         == Exported(ToV8Error(category, Record(code, routine, message, false)), [])
    ensures FromMessage(message, routine).chain[0].code == MS_MISCERR
  {
  }

  /** Two queued errors, the earlier one without a message of its own. */
  lemma TwoErrorScenario(category: CategoryLookup)
    ensures var q := Node(1, "loadMap", "file not found", true, Node(2, "parse", "", false, Null));
      Export(category, Capture(q))
      == Exported(
           JsError("MapserverError", "file not found", 1, category(1), "loadMap", true),
           [JsError("MapserverError", category(2), 2, category(2), "parse", false)])
  {
  }
}
