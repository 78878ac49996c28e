/** The host objects `ToV8Error` and `toV8Error` build (src/error.cpp): property
    maps keyed by the registry's symbols, and the read-back showing that no
    property write overwrites another and that nothing is lost in the writes. */
module JsObject {
  import opened Registry
  import opened Convert
  import Chain

  datatype Option<T> = None | Some(value: T)

  /** The host values the conversions store. */
  datatype Value =
    | Str(s: string)
    | Int(i: int)
    | Bool(b: bool)
    | Arr(items: seq<Value>)
    | Obj(props: map<string, Value>)

  /** The properties of one converted error, written in the order of
      `ToV8Error`: `Exception::Error` sets `message`, then the type tag goes
      under `name`, then `routine`, `code`, `category` and `isReported`. */
  function ErrorProps(reg: Symbols, e: JsError): map<string, Value>
  {
    map[MESSAGE := Str(e.message)]
      [reg.name := Str(reg.tag)]
      [reg.routine := Str(e.routine)]
      [reg.code := Int(e.code)]
      [reg.category := Str(e.category)]
      [reg.isReported := Bool(e.isReported)]
  }

  /** The properties of an exported chain: the primary error's, plus its cause
      stack as an array of error objects under `errorStack`. */
  function ExportedProps(reg: Symbols, x: Exported): map<string, Value>
  {
    ErrorProps(reg, x.primary)[reg.errorStack := Arr(StackValues(reg, x.errorStack))]
  }

  /** The array elements of a cause stack, one error object per entry. */
  function StackValues(reg: Symbols, stack: seq<JsError>): seq<Value>
  {
    seq(|stack|, i requires 0 <= i < |stack| => Obj(ErrorProps(reg, stack[i])))
  }

  /** A caller reading an error's properties back, failing when one is missing
      or of the wrong kind. */
  function ReadError(reg: Symbols, m: map<string, Value>): Option<JsError>
  {
    if && MESSAGE in m && m[MESSAGE].Str?
       && reg.name in m && m[reg.name].Str?
       && reg.routine in m && m[reg.routine].Str?
       && reg.code in m && m[reg.code].Int?
       && reg.category in m && m[reg.category].Str?
       && reg.isReported in m && m[reg.isReported].Bool?
    then Some(JsError(m[reg.name].s, m[MESSAGE].s, m[reg.code].i,
                      m[reg.category].s, m[reg.routine].s, m[reg.isReported].b))
    else None
  }

  /** Reading back the entries of an `errorStack` array, in order. */
  function ReadStack(reg: Symbols, items: seq<Value>): Option<seq<JsError>>
  {
    if items == [] then Some([])
    else if !items[0].Obj? then None
    else match (ReadError(reg, items[0].props), ReadStack(reg, items[1..]))
      case (Some(e), Some(rest)) => Some([e] + rest)
      case _ => None
  }

  /** Reading back an exported chain: the primary error and its `errorStack`. */
  function ReadExported(reg: Symbols, m: map<string, Value>): Option<Exported>
  {
    if reg.errorStack !in m || !m[reg.errorStack].Arr? then None
    else match (ReadError(reg, m), ReadStack(reg, m[reg.errorStack].items))
      case (Some(p), Some(stack)) => Some(Exported(p, stack))
      case _ => None
  }

  /** With distinct property names, every field written is read back unchanged. */
  lemma ReadErrorProps(reg: Symbols, e: JsError)
    requires Distinct(reg)
    requires e.name == reg.tag
    ensures ReadError(reg, ErrorProps(reg, e)) == Some(e)
  {
    var names := PropertyNames(reg);
    assert names[0] != names[1] && names[0] != names[2] && names[0] != names[3];
    assert names[0] != names[4] && names[0] != names[5];
    assert names[1] != names[2] && names[1] != names[3] && names[1] != names[4] && names[1] != names[5];
    assert names[2] != names[3] && names[2] != names[4] && names[2] != names[5];
    assert names[3] != names[4] && names[3] != names[5] && names[4] != names[5];
  }

  /** Writing `errorStack` leaves the six error properties as they were. */
  lemma ReadErrorIgnoresStack(reg: Symbols, m: map<string, Value>, v: Value)
    requires Distinct(reg)
    ensures ReadError(reg, m[reg.errorStack := v]) == ReadError(reg, m)
  {
    var names := PropertyNames(reg);
    assert names[6] != names[0] && names[6] != names[1] && names[6] != names[2];
    assert names[6] != names[3] && names[6] != names[4] && names[6] != names[5];
  }

  /** Every entry of a written cause stack reads back, in order. */
  lemma {:induction false} ReadStackValues(reg: Symbols, stack: seq<JsError>)
    requires Distinct(reg)
    requires forall i :: 0 <= i < |stack| ==> stack[i].name == reg.tag
    ensures ReadStack(reg, StackValues(reg, stack)) == Some(stack)
  {
    if stack != [] {
      ReadErrorProps(reg, stack[0]);
      assert StackValues(reg, stack)[1..] == StackValues(reg, stack[1..]);
      ReadStackValues(reg, stack[1..]);
      assert [stack[0]] + stack[1..] == stack;
    }
  }

  /** An exported chain written under distinct names reads back whole. */
  lemma ReadExportedProps(reg: Symbols, x: Exported)
    requires Distinct(reg)
    requires x.primary.name == reg.tag
    requires forall i :: 0 <= i < |x.errorStack| ==> x.errorStack[i].name == reg.tag
    ensures ReadExported(reg, ExportedProps(reg, x)) == Some(x)
  {
    ReadErrorProps(reg, x.primary);
    ReadErrorIgnoresStack(reg, ErrorProps(reg, x.primary), Arr(StackValues(reg, x.errorStack)));
    ReadStackValues(reg, x.errorStack);
  }

  /** The object `toV8Error` hands to the host, built with the symbols of
      `Init`, carries exactly the exported chain. */
  lemma ExportObjectReadsBack(category: CategoryLookup, e: Chain.MapserverError)
    ensures ReadExported(Init(), ExportedProps(Init(), Export(category, e))) == Some(Export(category, e))
  {
    ReadExportedProps(Init(), Export(category, e));
  }
}
