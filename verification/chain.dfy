/** The `MapserverError` object: an owned, by-value copy of MapServer's error
    queue (src/error.hpp, src/error.cpp).  The linked list of C++ nodes is
    modelled as a sequence of records, head (most recent error) first; the
    destructor is modelled over the linked view `Link` of the same records. */
module Chain {
  import opened Foreign

  /** MapServer's "no error" code (maperror.h is not part of this model). */
  const MS_NOERR: int := 0
  /** MapServer's "miscellaneous error" code, the string constructor's default. */
  const MS_MISCERR: int := 12

  /** The four error fields one C++ node owns. */
  datatype Record = Record(code: int, routine: string, message: string, isReported: bool)

  /** A captured error: its records, most recent first, and the `length` counter
      the C++ object keeps beside them. */
  datatype MapserverError = MapserverError(chain: seq<Record>, length: nat)
  {
    /** The counter agrees with the number of records actually held. */
    predicate Valid()
    {
      length == |chain|
    }
  }

  /** The deep copy of one foreign node's scalar fields. */
  function Copy(n: ErrorObj): Record
    requires n.Node?
  {
    Record(n.code, n.routine, n.message, n.isreported)
  }

  /** Capture with the empty-queue defect corrected: a null head gives an empty
      chain and `length == 0`, never a placeholder record. */
  function Capture(q: ErrorObj): (e: MapserverError)
    ensures e.Valid()
    ensures e.length == Length(q)
    ensures forall i :: 0 <= i < e.length ==> e.chain[i] == Copy(At(q, i))
    decreases q
  {
    match q
    case Null => MapserverError([], 0)
    case Node(_, _, _, _, next) =>
      var tail := Capture(next);
      MapserverError([Copy(q)] + tail.chain, tail.length + 1)
  }

  /** The capture loop of the constructor, with the empty-queue defect corrected:
      records are appended in traversal order while `length` counts the nodes. */
  method CaptureLoop(q: ErrorObj) returns (chain: seq<Record>, length: nat)
    ensures length == Length(q)
    ensures |chain| == length
    ensures forall i :: 0 <= i < length ==> chain[i] == Copy(At(q, i))
  {
    var error := q;
    chain, length := [], 0;
    while error.Node?
      invariant length <= Length(q)
      invariant error == Drop(q, length)
      invariant |chain| == length
      invariant forall i :: 0 <= i < length ==> chain[i] == Copy(At(q, i))
      decreases Length(error)
    {
      DropNext(q, length);
      chain := chain + [Copy(error)];
      error := error.next;
      length := length + 1;
    }
  }

  /** The constructor exactly as written.  `this` exists before the loop runs;
      its `code` and `isReported` are never initialised when the queue is empty,
      so they are taken as parameters (`unsetCode`, `unsetReported`).  Each
      further node comes from the bare constructor and is overwritten at once. */
  method CaptureAsWritten(q: ErrorObj, unsetCode: int, unsetReported: bool) returns (e: MapserverError)
    ensures q.Null? ==> e.length == 0 && e.chain == [Record(unsetCode, "", "", unsetReported)]
    ensures q.Node? ==> e == Capture(q)
  {
    var done: seq<Record> := [];
    var copy := Record(unsetCode, "", "", unsetReported);
    var error := q;
    var length: nat := 0;
    while error.Node?
      invariant length <= Length(q)
      invariant error == Drop(q, length)
      invariant |done| <= length
      invariant forall i :: 0 <= i < |done| ==> done[i] == Copy(At(q, i))
      invariant length == 0 ==> done == [] && copy == Record(unsetCode, "", "", unsetReported)
      invariant 0 < length && error.Node? ==> |done| == length
      invariant 0 < length && error.Null? ==> |done| == length - 1 && copy == Copy(At(q, length - 1))
      decreases Length(error)
    {
      DropNext(q, length);
      copy := Copy(error);
      if error.next.Node? {
        done := done + [copy];
        copy := Bare(unsetCode).chain[0];
      }
      error := error.next;
      length := length + 1;
    }
    e := MapserverError(done + [copy], length);
    if q.Node? {
      var c := Capture(q);
      assert forall i :: 0 <= i < length ==> e.chain[i] == c.chain[i];
    }
  }

  /** The string constructor: a single error that MapServer did not report. */
  function FromMessage(message: string, routine: string, code: int := MS_MISCERR): (e: MapserverError)
    ensures e.Valid() && e.length == 1
    ensures e.chain[0].message == message && e.chain[0].routine == routine
    ensures e.chain[0].code == code && !e.chain[0].isReported
  {
    MapserverError([Record(code, routine, message, false)], 1)
  }

  /** The private bare constructor, used for each node after the head; its
      `code` is never initialised, so it is a parameter. */
  function Bare(unsetCode: int): (e: MapserverError)
    ensures e.Valid() && e.length == 1
    ensures !e.chain[0].isReported && e.chain[0].message == "" && e.chain[0].routine == ""
  {
    MapserverError([Record(unsetCode, "", "", false)], 1)
  }

  /** The `next` pointers of the C++ chain: a null-terminated list of nodes. */
  datatype Link = Nil | Cons(rec: Record, next: Link)

  /** The records reachable from a link, in order. */
  function Records(l: Link): seq<Record>
  {
    match l
    case Nil => []
    case Cons(r, next) => [r] + Records(next)
  }

  /** The linked nodes holding `s`, the last one's `next` null. */
  function LinkOf(s: seq<Record>): (l: Link)
    ensures Records(l) == s
  {
    if s == [] then Nil else Cons(s[0], LinkOf(s[1..]))
  }

  /** The `next` field of a captured error: every record after the head. */
  function NextOf(e: MapserverError): Link
  {
    if |e.chain| == 0 then Nil else LinkOf(e.chain[1..])
  }

  /** The records released by deleting the nodes `deleted` in order: deleting a
      node runs its own destructor, which also releases whatever it still links to. */
  function Released(deleted: seq<Link>): seq<Record>
  {
    if deleted == [] then []
    else Released(deleted[..|deleted| - 1]) + Records(deleted[|deleted| - 1])
  }

  /** The destructor's loop over the owned tail `next0`: each node is unlinked,
      its own `next` cleared, and then deleted, in chain order. */
  method Destroy(next0: Link) returns (next: Link, deleted: seq<Link>)
    ensures next == Nil
    ensures |deleted| == |Records(next0)|
    ensures forall i :: 0 <= i < |deleted| ==> deleted[i] == Cons(Records(next0)[i], Nil)
  {
    next, deleted := next0, [];
    while next.Cons?
      invariant |deleted| <= |Records(next0)|
      invariant Records(next) == Records(next0)[|deleted|..]
      invariant forall i :: 0 <= i < |deleted| ==> deleted[i] == Cons(Records(next0)[i], Nil)
      decreases |Records(next)|
    {
      var prev := next;
      next := prev.next;
      prev := prev.(next := Nil);
      deleted := deleted + [prev];
    }
  }

  /** Deleting detached nodes releases each of their records exactly once, in
      order: no node's destructor reaches a node deleted elsewhere. */
  lemma {:induction false} ReleasedDetached(deleted: seq<Link>, records: seq<Record>)
    requires |deleted| == |records|
    requires forall i :: 0 <= i < |deleted| ==> deleted[i] == Cons(records[i], Nil)
    ensures Released(deleted) == records
  {
    if deleted != [] {
      var n := |deleted| - 1;
      ReleasedDetached(deleted[..n], records[..n]);
      assert Records(deleted[n]) == [records[n]];
      assert records[..n] + [records[n]] == records;
    }
  }
}
