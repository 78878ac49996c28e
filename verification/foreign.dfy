/** MapServer's own error queue, as the bridge sees it through a `const errorObj *`.
    MapServer pushes the most recent error at the head; each node links to the
    error that was reported before it.  The bridge only reads this queue. */
module Foreign {

  /** A pointer into the queue: `Null`, or a node with its four scalar fields and
      its `next` link. */
  datatype ErrorObj =
    | Null
    | Node(code: int, routine: string, message: string, isreported: bool, next: ErrorObj)

  /** The number of nodes reachable from `q`, `q` included. */
  function Length(q: ErrorObj): nat
  {
    match q
    case Null => 0
    case Node(_, _, _, _, next) => 1 + Length(next)
  }

  /** The pointer reached from `q` by following `next` `k` times. */
  function Drop(q: ErrorObj, k: nat): (r: ErrorObj)
    requires k <= Length(q)
    ensures Length(r) == Length(q) - k
    decreases k
  {
    if k == 0 then q else Drop(q.next, k - 1)
  }

  /** The `i`-th node of the queue, counting the head as 0. */
  function At(q: ErrorObj, i: nat): (n: ErrorObj)
    requires i < Length(q)
    ensures n.Node?
    ensures Length(n) == Length(q) - i
  {
    Drop(q, i)
  }

  /** One more step along the queue is one more `next`. */
  lemma {:induction false} DropNext(q: ErrorObj, k: nat)
    requires k < Length(q)
    ensures Drop(q, k).Node?
    ensures Drop(q, k + 1) == Drop(q, k).next
    decreases k
  {
    if k > 0 {
      DropNext(q.next, k - 1);
    }
  }
}
