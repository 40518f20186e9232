/** `read_ptr_list` (core/src/types.rs): a linked list in the target whose length is a
    stored count, walked node by node. */
module Lists {
  import opened Bytes
  import opened Errors
  import opened Wrappers
  import opened Memory
  import opened RemotePointer
  import opened Layout
  import opened Readers

  /** The decoder applied to each node's payload. */
  type Decoder<T> = (Channel, RemotePtr<CVoid>) -> Result<T>

  /** Where a list keeps its first node and its element count. */
  const HeadOffset: int := 0x8
  const CountOffset: int := 0x18

  /** Where a node keeps its payload pointer (the next node's address is at 0). */
  const DataOffset: int := 0x10

  /** The address of the next node, stored at the start of `node`. */
  function Next(ch: Channel, node: RemotePtr<CVoid>): Result<RemotePtr<CVoid>>
  {
    Read(ch, node.Cast<RemotePtr<CVoid>>(), Pointer<CVoid>())
  }

  /** One turn of the loop at `node`: its next pointer, then its payload pointer at
      `node + 0x10`, then the decoded payload; the first failure is the result. */
  function Visit<T>(ch: Channel, node: RemotePtr<CVoid>, f: Decoder<T>): Result<(RemotePtr<CVoid>, T)>
  {
    var next :- Next(ch, node);
    var data :- ReadAt(ch, node, DataOffset, Pointer<CVoid>());
    var x :- f(ch, data);
    Ok((next, x))
  }

  /** A way of visiting one node: the node after it and its element. */
  type NodeVisit<T> = RemotePtr<CVoid> -> Result<(RemotePtr<CVoid>, T)>

  /** The loop's turn, as a step function of the node. */
  function Visiting<T>(ch: Channel, f: Decoder<T>): NodeVisit<T>
  {
    node => Visit(ch, node, f)
  }

  /** `count` turns of the loop from `head`, the elements in list order, for any way
      of visiting a node; the first failing turn is the result. */
  function WalkWith<T>(visit: NodeVisit<T>, head: RemotePtr<CVoid>, count: nat): (r: Result<seq<T>>)
    ensures r.Ok? ==> |r.value| == count
    decreases count
  {
    if count == 0 then Ok([])
    else
      var step :- visit(head);
      var rest :- WalkWith(visit, step.0, count - 1);
      Ok([step.1] + rest)
  }

  /** The payloads of `count` nodes starting at `head`, decoded in list order. */
  function Walk<T>(ch: Channel, head: RemotePtr<CVoid>, count: nat, f: Decoder<T>): (r: Result<seq<T>>)
    ensures r.Ok? ==> |r.value| == count
  {
    WalkWith(Visiting(ch, f), head, count)
  }

  /** What `read_ptr_list` yields for the list at `base`. */
  function PtrList<T>(ch: Channel, base: RemotePtr<CVoid>, f: Decoder<T>): Result<seq<T>>
  {
    var head :- ReadAt(ch, base, HeadOffset, Pointer<CVoid>());
    var count :- ReadAt(ch, base, CountOffset, U32);
    Walk(ch, head, count, f)
  }

  /** The list so far followed by the rest of the walk, or the walk's failure. */
  function Continue<T>(done: seq<T>, rest: Result<seq<T>>): Result<seq<T>>
  {
    if rest.Ok? then Ok(done + rest.value) else rest
  }

  /** `read_ptr_list`: reads the head pointer and the count, then `count` times reads
      the next pointer and the payload pointer, decodes the payload, pushes it, and moves
      on to the next node. */
  method ReadPtrList<T>(ch: Channel, base: RemotePtr<CVoid>, f: Decoder<T>) returns (r: Result<seq<T>>)
    ensures r == PtrList(ch, base, f)
  {
    ListHeader(ch, base, f);
    var lst: seq<T> := [];
    var h := ReadAt(ch, base, HeadOffset, Pointer<CVoid>());
    if !h.Ok? {
      return h.PropagateFailure();
    }
    var head := h.value;
    var c := ReadAt(ch, base, CountOffset, U32);
    if !c.Ok? {
      return c.PropagateFailure();
    }
    var count := c.value;
    ContinueNothing(Walk(ch, head, count, f));
    var i := 0;
    while i < count
      invariant 0 <= i <= count
      invariant |lst| == i
      invariant PtrList(ch, base, f) == Continue(lst, Walk(ch, head, count - i, f))
    {
      Turn(ch, head, count - i, f, lst);
      var next := Next(ch, head);
      if !next.Ok? {
        return next.PropagateFailure();
      }
      var dataPtr := ReadAt(ch, head, DataOffset, Pointer<CVoid>());
      if !dataPtr.Ok? {
        return dataPtr.PropagateFailure();
      }
      var x := f(ch, dataPtr.value);
      if !x.Ok? {
        return x.PropagateFailure();
      }
      lst := lst + [x.value];
      head := next.value;
      i := i + 1;
    }
    ContinueNothing(Ok(lst));
    return Ok(lst);
  }

  /** One turn of the loop with `lst` read so far and `n` nodes to go: each of the three
      reads that fails is the outcome of the whole list; when all succeed, the payload is
      pushed and the walk goes on from the next node. */
  lemma Turn<T>(ch: Channel, head: RemotePtr<CVoid>, n: nat, f: Decoder<T>, lst: seq<T>)
    requires n > 0
    ensures var nx := Next(ch, head);
            var d := ReadAt(ch, head, DataOffset, Pointer<CVoid>());
            var whole := Continue(lst, Walk(ch, head, n, f));
            && (!nx.Ok? ==> whole == nx.PropagateFailure())
            && (nx.Ok? && !d.Ok? ==> whole == d.PropagateFailure())
            && (nx.Ok? && d.Ok? && !f(ch, d.value).Ok? ==> whole == f(ch, d.value).PropagateFailure())
            && (nx.Ok? && d.Ok? && f(ch, d.value).Ok? ==>
                  whole == Continue(lst + [f(ch, d.value).value], Walk(ch, nx.value, n - 1, f)))
  {
    var visit := Visiting(ch, f);
    WalkStep(visit, head, n);
    VisitReads(ch, head, f);
    if visit(head).Ok? {
      ContinueAppend(lst, visit(head).value.1, Walk(ch, visit(head).value.0, n - 1, f));
    }
  }

  /** Nothing read so far: the outcome is the walk's. */
  lemma ContinueNothing<T>(rest: Result<seq<T>>)
    ensures Continue([], rest) == rest
    ensures rest.Ok? ==> Continue(rest.value, Ok([])) == rest
  {
    if rest.Ok? {
      assert [] + rest.value == rest.value;
      assert rest.value + [] == rest.value;
    }
  }

  /** One turn of the walk: a failing visit is the result; otherwise its element
      comes first and the walk goes on from the node after. */
  lemma WalkStep<T>(visit: NodeVisit<T>, head: RemotePtr<CVoid>, n: nat)
    requires n > 0
    ensures !visit(head).Ok? ==> WalkWith(visit, head, n) == visit(head).PropagateFailure()
    ensures visit(head).Ok? ==>
              WalkWith(visit, head, n) == Continue([visit(head).value.1], WalkWith(visit, visit(head).value.0, n - 1))
  {
  }

  /** Pushing an element onto the list so far commutes with the rest of the walk. */
  lemma ContinueAppend<T>(done: seq<T>, x: T, rest: Result<seq<T>>)
    ensures Continue(done, Continue([x], rest)) == Continue(done + [x], rest)
  {
    if rest.Ok? {
      assert done + ([x] + rest.value) == done + [x] + rest.value;
    }
  }

  // ----- properties -----

  /** Node `i` of the list from `head`: the node reached after `i` turns of the loop. */
  function NodeAt<T>(visit: NodeVisit<T>, head: RemotePtr<CVoid>, i: nat): Result<RemotePtr<CVoid>>
    decreases i
  {
    if i == 0 then Ok(head)
    else
      var step :- visit(head);
      NodeAt(visit, step.0, i - 1)
  }

  /** A walk that succeeds has exactly `count` elements, and element `i` is what the
      visit of node `i` yields. */
  lemma {:induction false} WalkWithElements<T>(visit: NodeVisit<T>, head: RemotePtr<CVoid>, count: nat)
    requires WalkWith(visit, head, count).Ok?
    ensures |WalkWith(visit, head, count).value| == count
    ensures forall i :: 0 <= i < count ==>
              && NodeAt(visit, head, i).Ok?
              && visit(NodeAt(visit, head, i).value).Ok?
              && visit(NodeAt(visit, head, i).value).value.1 == WalkWith(visit, head, count).value[i]
    decreases count
  {
    if count > 0 {
      var next := visit(head).value.0;
      WalkWithElements(visit, next, count - 1);
      forall i | 1 <= i < count
        ensures NodeAt(visit, head, i) == NodeAt(visit, next, i - 1)
      {
      }
    }
  }

  /** The walk is bounded by the count alone: a shorter walk from the same node is a
      prefix of a longer one that succeeds. */
  lemma {:induction false} WalkWithPrefix<T>(visit: NodeVisit<T>, head: RemotePtr<CVoid>, k: nat, count: nat)
    requires k <= count && WalkWith(visit, head, count).Ok?
    ensures WalkWith(visit, head, k).Ok?
    ensures WalkWith(visit, head, k).value == WalkWith(visit, head, count).value[..k]
    decreases count
  {
    if k > 0 {
      WalkWithPrefix(visit, visit(head).value.0, k - 1, count - 1);
    }
  }

  /** One turn of the loop succeeds exactly when the next pointer, the payload pointer
      at `node + 0x10` and the payload all decode, and then yields the next pointer and
      the payload; otherwise the first of the three failures is the result. */
  lemma VisitReads<T>(ch: Channel, node: RemotePtr<CVoid>, f: Decoder<T>)
    ensures var n := Next(ch, node);
            var d := ReadAt(ch, node, DataOffset, Pointer<CVoid>());
            && (!n.Ok? ==> Visit(ch, node, f) == n.PropagateFailure())
            && (n.Ok? && !d.Ok? ==> Visit(ch, node, f) == d.PropagateFailure())
            && (n.Ok? && d.Ok? && !f(ch, d.value).Ok? ==> Visit(ch, node, f) == f(ch, d.value).PropagateFailure())
            && (n.Ok? && d.Ok? && f(ch, d.value).Ok? ==> Visit(ch, node, f) == Ok((n.value, f(ch, d.value).value)))
  {
  }

  /** Element `i` of a list read is the payload of node `i`, decoded from the pointer
      stored at that node's offset 0x10, and node `i + 1` is the pointer stored at the
      start of node `i`. */
  lemma WalkElements<T>(ch: Channel, head: RemotePtr<CVoid>, count: nat, f: Decoder<T>)
    requires Walk(ch, head, count, f).Ok?
    ensures |Walk(ch, head, count, f).value| == count
    ensures forall i :: 0 <= i < count ==>
              && NodeAt(Visiting(ch, f), head, i).Ok?
              && var node := NodeAt(Visiting(ch, f), head, i).value;
              && Next(ch, node).Ok?
              && NodeAt(Visiting(ch, f), head, i + 1) == Next(ch, node)
              && ReadAt(ch, node, DataOffset, Pointer<CVoid>()).Ok?
              && f(ch, ReadAt(ch, node, DataOffset, Pointer<CVoid>()).value) == Ok(Walk(ch, head, count, f).value[i])
  {
    var visit := Visiting(ch, f);
    WalkWithElements(visit, head, count);
    forall i | 0 <= i < count
      ensures && NodeAt(visit, head, i).Ok?
              && var node := NodeAt(visit, head, i).value;
              && Next(ch, node).Ok?
              && NodeAt(visit, head, i + 1) == Next(ch, node)
              && ReadAt(ch, node, DataOffset, Pointer<CVoid>()).Ok?
              && f(ch, ReadAt(ch, node, DataOffset, Pointer<CVoid>()).value) == Ok(Walk(ch, head, count, f).value[i])
    {
      var node := NodeAt(visit, head, i).value;
      VisitReads(ch, node, f);
      NodeAtStep(visit, head, i);
    }
  }

  /** Node `i + 1` is the one after node `i`. */
  lemma {:induction false} NodeAtStep<T>(visit: NodeVisit<T>, head: RemotePtr<CVoid>, i: nat)
    requires NodeAt(visit, head, i).Ok? && visit(NodeAt(visit, head, i).value).Ok?
    ensures NodeAt(visit, head, i + 1) == Ok(visit(NodeAt(visit, head, i).value).value.0)
    decreases i
  {
    if i > 0 {
      NodeAtStep(visit, visit(head).value.0, i - 1);
    }
  }

  /** A shorter read of the same list is a prefix of a longer one that succeeds. */
  lemma WalkPrefix<T>(ch: Channel, head: RemotePtr<CVoid>, k: nat, count: nat, f: Decoder<T>)
    requires k <= count && Walk(ch, head, count, f).Ok?
    ensures Walk(ch, head, k, f).Ok?
    ensures Walk(ch, head, k, f).value == Walk(ch, head, count, f).value[..k]
  {
    WalkWithPrefix(Visiting(ch, f), head, k, count);
  }

  /** The list is located by two reads at `base`: the head pointer at 0x8 and the `u32`
      count at 0x18; a failure of either is the result, and a count of zero is the
      empty list. */
  lemma ListHeader<T>(ch: Channel, base: RemotePtr<CVoid>, f: Decoder<T>)
    ensures var h := ReadAt(ch, base, HeadOffset, Pointer<CVoid>());
            var c := ReadAt(ch, base, CountOffset, U32);
            && (!h.Ok? ==> PtrList(ch, base, f) == h.PropagateFailure())
            && (h.Ok? && !c.Ok? ==> PtrList(ch, base, f) == c.PropagateFailure())
            && (h.Ok? && c.Ok? ==> PtrList(ch, base, f) == Walk(ch, h.value, c.value, f))
            && (h.Ok? && c.Ok? && c.value == 0 ==> PtrList(ch, base, f) == Ok([]))
  {
  }

  /** The first failing turn aborts the walk: a failure at the first node is the
      result, whatever follows. */
  lemma FirstNodeAborts<T>(ch: Channel, head: RemotePtr<CVoid>, count: nat, f: Decoder<T>)
    requires count > 0
    ensures !Visit(ch, head, f).Ok? ==> Walk(ch, head, count, f) == Visit(ch, head, f).PropagateFailure()
    ensures Visit(ch, head, f).Ok? ==>
              Walk(ch, head, count, f) == Continue([Visit(ch, head, f).value.1], Walk(ch, Visit(ch, head, f).value.0, count - 1, f))
  {
  }
}
