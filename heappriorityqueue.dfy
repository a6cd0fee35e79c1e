/**
 * The binary min-heap priority queue of game/heappriorityqueue.js.
 *
 * The queue keeps its elements in `elts` and their costs in the parallel
 * sequence `costs`; the parent of index k > 0 is (k - 1) / 2.  The datatype
 * `Heap` is the value-level model of the two arrays and of every operation;
 * the class `HeapPriorityQueue` keeps the source's fields and loops and is
 * proved to compute exactly what the model computes.
 *
 * As in the source, `BubbleUp` writes the element's new cost only into the
 * slots it swaps into: a decrease-key (`Rehash`) that does not move the
 * element leaves the old, higher cost stored.
 */
module PriorityQueue {
  import opened Wrappers

  /** The errors the queue throws. */
  datatype HeapError =
    | HeapUnderflow   // 'Heap underflow!'
    | NotInQueue      // 'Can't rehash an object not in the queue.'
    | HigherCost      // 'We don't support rehashing higher costs, only lower ones.'

  function Parent(k: nat): nat
    requires k > 0
  {
    (k - 1) / 2
  }

  /** Every parent's cost is at most the cost of each of its children. */
  ghost predicate IsHeap(cs: seq<real>) {
    forall k :: 0 < k < |cs| ==> cs[Parent(k)] <= cs[k]
  }

  /** Whether `bubbleUp_` at `index` swaps at least once. */
  predicate Moves(cs: seq<real>, cost: real, index: nat)
    requires index < |cs|
  {
    index > 0 && cost < cs[Parent(index)]
  }

  /** First index at or after `from` holding `elt` (by identity), or |es|. */
  function IndexOf<T(==)>(es: seq<T>, elt: T, from: nat): (r: nat)
    requires from <= |es|
    ensures from <= r <= |es|
    ensures r < |es| ==> es[r] == elt
    ensures forall k :: from <= k < r ==> es[k] != elt
    decreases |es| - from
  {
    if from == |es| || es[from] == elt then from else IndexOf(es, elt, from + 1)
  }

  /** The contents of the two arrays `elts_` and `costs_` (up to `size_`). */
  datatype Heap<T(==)> = Heap(elts: seq<T>, costs: seq<real>)
  {
    predicate WellFormed() {
      |elts| == |costs|
    }

    function Size(): nat {
      |elts|
    }

    /** The (element, cost) pairs stored in the queue, in array order. */
    function Entries(): (r: seq<(T, real)>)
      requires WellFormed()
      ensures |r| == |elts|
      ensures forall k :: 0 <= k < |r| ==> r[k] == (elts[k], costs[k])
    {
      seq(|elts|, k requires 0 <= k < |elts| => (elts[k], costs[k]))
    }

    /** `bubbleUp_`: moves `elt` (stored at `index`) towards the root while
        `cost` is below its parent's cost, writing `cost` only where it swaps. */
    function BubbleUp(elt: T, cost: real, index: nat): (r: Heap<T>)
      requires WellFormed() && index < Size()
      ensures r.WellFormed() && r.Size() == Size()
      decreases index
    {
      if index == 0 then this
      else
        var p := Parent(index);
        if cost < costs[p] then Exchange(p, index, elt, cost).BubbleUp(elt, cost, p)
        else this
    }

    /** One swap of the bubbling loops: (elt, cost) goes to slot `into`, and
        the pair that was there goes to slot `from`. */
    function Exchange(into: nat, from: nat, elt: T, cost: real): (r: Heap<T>)
      requires WellFormed() && into < Size() && from < Size()
      ensures r.WellFormed() && r.Size() == Size()
    {
      Heap(elts[into := elt][from := elts[into]], costs[into := cost][from := costs[into]])
    }

    /** `push`: appends at index `size_` and bubbles up. */
    function Push(elt: T, cost: real): Heap<T>
      requires WellFormed()
    {
      Heap(elts + [elt], costs + [cost]).BubbleUp(elt, cost, |elts|)
    }

    /** `bubbleDown_`: moves `elt` (stored at `index`) away from the root,
        swapping with the cheaper child (the second one on a tie) while that
        child costs less. */
    function BubbleDown(elt: T, cost: real, index: nat): (r: Heap<T>)
      requires WellFormed()
      ensures r.WellFormed() && r.Size() == Size()
      decreases Size() - index
    {
      if index * 2 + 1 < Size() then
        var child := Child(index);
        if costs[child] < cost then Exchange(child, index, elt, cost).BubbleDown(elt, cost, child)
        else this
      else this
    }

    /** The child bubbleDown_ compares against: the second child when it
        exists and the first is not strictly cheaper, else the first. */
    function Child(index: nat): (c: nat)
      requires WellFormed() && index * 2 + 1 < Size()
      ensures c < Size() && c > 0 && Parent(c) == index
      ensures forall k :: 0 < k < Size() && Parent(k) == index ==> costs[c] <= costs[k]
    {
      var c0 := index * 2 + 1;
      if c0 + 1 < Size() && !(costs[c0] < costs[c0 + 1]) then c0 + 1 else c0
    }

    /** `pop`: the element at index 0, and the queue with the last element
        moved to the root and bubbled down. */
    function Pop(): Result<(T, Heap<T>), HeapError>
      requires WellFormed()
    {
      if Size() == 0 then Err(HeapUnderflow)
      else
        var last := Size() - 1;
        var elt := elts[last];
        var cost := costs[last];
        var rest := Heap(elts[0 := elt][..last], costs[0 := cost][..last]);
        Ok((elts[0], rest.BubbleDown(elt, cost, 0)))
    }

    /** `rehash`: decrease-key, locating `elt` by a linear identity scan. */
    function Rehash(elt: T, cost: real): Result<Heap<T>, HeapError>
      requires WellFormed()
    {
      var index := IndexOf(elts, elt, 0);
      if index >= Size() then Err(NotInQueue)
      else if costs[index] < cost then Err(HigherCost)
      else Ok(BubbleUp(elt, cost, index))
    }

    /** `verify`: recursive check of the subtree at `index`.  `None` stands
        for a call without an argument, whose child index is NaN. */
    function Verify(index: Option<nat>): bool
      requires WellFormed()
      decreases if index.Some? then Size() - index.value else 0
    {
      match index
      case None => true
      case Some(i) =>
        var c := i * 2 + 1;
        if c < Size() then
          if costs[c] < costs[i] then false
          else if !Verify(Some(c)) then false
          else if c + 1 < Size() then
            if costs[c + 1] < costs[i] then false else Verify(Some(c + 1))
          else true
        else true
    }
  }

  // ---------------------------------------------------------------------
  // Sequence facts
  // ---------------------------------------------------------------------

  lemma SwapMultiset<U>(s: seq<U>, a: nat, b: nat)
    requires a < |s| && b < |s|
    ensures multiset(s[a := s[b]][b := s[a]]) == multiset(s)
  {
    if a != b {
      calc {
        multiset(s[a := s[b]][b := s[a]]);
        multiset(s[a := s[b]]) - multiset{s[b]} + multiset{s[a]};
        multiset(s) - multiset{s[a]} + multiset{s[b]} - multiset{s[b]} + multiset{s[a]};
      }
    }
  }

  /** Moving the last item to the front and dropping the last slot removes
      exactly the first item. */
  lemma DropFirstMultiset<U>(s: seq<U>)
    requires |s| > 0
    ensures multiset(s[0 := s[|s| - 1]][..|s| - 1]) == multiset(s) - multiset{s[0]}
  {
    var n := |s| - 1;
    if n > 0 {
      assert s[0 := s[n]][..n] == [s[n]] + s[1..n];
      assert s == [s[0]] + s[1..n] + [s[n]];
      assert multiset(s) == multiset{s[0]} + multiset(s[1..n]) + multiset{s[n]};
    }
  }

  // ---------------------------------------------------------------------
  // The heap invariant
  // ---------------------------------------------------------------------

  /** The root of a heap holds the minimal cost. */
  lemma {:induction false} RootIsMinimal(cs: seq<real>, k: nat)
    requires IsHeap(cs) && k < |cs|
    ensures cs[0] <= cs[k]
    decreases k
  {
    if k > 0 {
      RootIsMinimal(cs, Parent(k));
    }
  }

  /** The shape bubbleUp_ needs: heap order on every edge except the one
      into `index`, the grandparent below, and the stored cost not below `cost`. */
  ghost predicate UpReady(cs: seq<real>, index: nat, cost: real)
    requires index < |cs|
  {
    (forall k :: 0 < k < |cs| && k != index ==> cs[Parent(k)] <= cs[k]) &&
    (index > 0 ==> forall k :: 0 < k < |cs| && Parent(k) == index ==> cs[Parent(index)] <= cs[k]) &&
    cost <= cs[index]
  }

  /** One swap of bubbleUp_ re-establishes its shape one level higher. */
  lemma UpStep<T>(h: Heap<T>, elt: T, cost: real, index: nat)
    requires h.WellFormed() && index < h.Size() && UpReady(h.costs, index, cost)
    requires Moves(h.costs, cost, index)
    ensures UpReady(h.Exchange(Parent(index), index, elt, cost).costs, Parent(index), cost)
  {
    var p := Parent(index);
    var cs := h.Exchange(p, index, elt, cost).costs;
    forall k | 0 < k < |cs| && k != p
      ensures cs[Parent(k)] <= cs[k]
    {
      if Parent(k) == index {
        assert cs[Parent(k)] == h.costs[p];
      }
    }
  }

  /** One turn of `bubbleDown_`'s loop, with the child picked as the
      loop picks it. */
  lemma DownTurn<T>(h: Heap<T>, elt: T, cost: real, index: nat)
    requires h.WellFormed() && index * 2 + 1 < h.Size()
    ensures var c0 := index * 2 + 1;
      var c := if c0 + 1 < h.Size() && !(h.costs[c0] < h.costs[c0 + 1]) then c0 + 1 else c0;
      h.BubbleDown(elt, cost, index) == if h.costs[c] < cost then h.Exchange(c, index, elt, cost).BubbleDown(elt, cost, c) else h
  {
  }

  lemma {:induction false} BubbleUpKeepsHeap<T>(h: Heap<T>, elt: T, cost: real, index: nat)
    requires h.WellFormed() && index < h.Size() && UpReady(h.costs, index, cost)
    ensures IsHeap(h.BubbleUp(elt, cost, index).costs)
    decreases index
  {
    if Moves(h.costs, cost, index) {
      UpStep(h, elt, cost, index);
      BubbleUpKeepsHeap(h.Exchange(Parent(index), index, elt, cost), elt, cost, Parent(index));
    }
  }

  /** A swap permutes the stored pairs once the moving element's cost is
      written into its own slot. */
  lemma ExchangeEntries<T>(h: Heap<T>, into: nat, from: nat, elt: T, cost: real)
    requires h.WellFormed() && into < h.Size() && from < h.Size() && into != from
    requires h.elts[from] == elt
    ensures multiset(h.Exchange(into, from, elt, cost).Entries()) == multiset(Heap(h.elts, h.costs[from := cost]).Entries())
    ensures multiset(h.Exchange(into, from, elt, cost).elts) == multiset(h.elts)
  {
    var e := Heap(h.elts, h.costs[from := cost]).Entries();
    assert h.Exchange(into, from, elt, cost).Entries() == e[into := e[from]][from := e[into]];
    SwapMultiset(e, into, from);
    assert h.Exchange(into, from, elt, cost).elts == h.elts[into := h.elts[from]][from := h.elts[into]];
    SwapMultiset(h.elts, into, from);
  }

  /** What bubbleUp_ does to the stored pairs: nothing if it does not move,
      otherwise it replaces the element's stored cost by `cost`. */
  lemma {:induction false} BubbleUpEntries<T>(h: Heap<T>, elt: T, cost: real, index: nat)
    requires h.WellFormed() && index < h.Size() && h.elts[index] == elt
    ensures multiset(h.BubbleUp(elt, cost, index).elts) == multiset(h.elts)
    ensures !Moves(h.costs, cost, index) ==> h.BubbleUp(elt, cost, index) == h
    ensures Moves(h.costs, cost, index) ==>
      multiset(h.BubbleUp(elt, cost, index).Entries()) == multiset(Heap(h.elts, h.costs[index := cost]).Entries())
    decreases index
  {
    if Moves(h.costs, cost, index) {
      var p := Parent(index);
      var h' := h.Exchange(p, index, elt, cost);
      ExchangeEntries(h, p, index, elt, cost);
      BubbleUpEntries(h', elt, cost, p);
      assert h.BubbleUp(elt, cost, index) == h'.BubbleUp(elt, cost, p);
      if Moves(h'.costs, cost, p) {
        assert Heap(h'.elts, h'.costs[p := cost]) == h';
      }
    }
  }

  /** The shape bubbleDown_ needs: heap order on every edge out of a node
      other than `index`, the grandparent above, and `cost` stored at `index`. */
  ghost predicate DownReady(cs: seq<real>, index: nat, cost: real) {
    (forall k :: 0 < k < |cs| && Parent(k) != index ==> cs[Parent(k)] <= cs[k]) &&
    (index > 0 ==> forall k :: 0 < k < |cs| && Parent(k) == index ==> cs[Parent(index)] <= cs[k]) &&
    (index < |cs| ==> cs[index] == cost)
  }

  /** One swap of bubbleDown_ re-establishes its shape one level lower. */
  lemma DownStep<T>(h: Heap<T>, elt: T, cost: real, index: nat)
    requires h.WellFormed() && index * 2 + 1 < h.Size() && DownReady(h.costs, index, cost)
    requires h.costs[h.Child(index)] < cost
    ensures DownReady(h.Exchange(h.Child(index), index, elt, cost).costs, h.Child(index), cost)
  {
    var child := h.Child(index);
    var cs := h.Exchange(child, index, elt, cost).costs;
    forall k | 0 < k < |cs| && Parent(k) != child
      ensures cs[Parent(k)] <= cs[k]
    {
      if k == index {
        assert cs[k] == h.costs[child];
      }
    }
  }

  /** When bubbleDown_ stops, its shape is a heap. */
  lemma DownStop<T>(h: Heap<T>, cost: real, index: nat)
    requires h.WellFormed() && DownReady(h.costs, index, cost)
    requires index * 2 + 1 < h.Size() ==> !(h.costs[h.Child(index)] < cost)
    ensures IsHeap(h.costs)
  {
    forall k | 0 < k < h.Size()
      ensures h.costs[Parent(k)] <= h.costs[k]
    {
      if Parent(k) == index {
        assert index * 2 + 1 < h.Size();
      }
    }
  }

  lemma {:induction false} BubbleDownKeepsHeap<T>(h: Heap<T>, elt: T, cost: real, index: nat)
    requires h.WellFormed() && DownReady(h.costs, index, cost)
    ensures IsHeap(h.BubbleDown(elt, cost, index).costs)
    decreases h.Size() - index
  {
    if index * 2 + 1 < h.Size() && h.costs[h.Child(index)] < cost {
      DownStep(h, elt, cost, index);
      BubbleDownKeepsHeap(h.Exchange(h.Child(index), index, elt, cost), elt, cost, h.Child(index));
    } else {
      DownStop(h, cost, index);
    }
  }

  /** bubbleDown_ only permutes the stored pairs. */
  lemma {:induction false} BubbleDownEntries<T>(h: Heap<T>, elt: T, cost: real, index: nat)
    requires h.WellFormed()
    requires index < h.Size() ==> h.elts[index] == elt && h.costs[index] == cost
    ensures multiset(h.BubbleDown(elt, cost, index).Entries()) == multiset(h.Entries())
    ensures multiset(h.BubbleDown(elt, cost, index).elts) == multiset(h.elts)
    decreases h.Size() - index
  {
    if index * 2 + 1 < h.Size() && h.costs[h.Child(index)] < cost {
      var child := h.Child(index);
      ExchangeEntries(h, child, index, elt, cost);
      assert h.costs[index := cost] == h.costs;
      BubbleDownEntries(h.Exchange(child, index, elt, cost), elt, cost, child);
    }
  }

  // ---------------------------------------------------------------------
  // push, pop, rehash
  // ---------------------------------------------------------------------

  /** push adds exactly one pair and keeps the heap invariant. */
  lemma PushSpec<T>(h: Heap<T>, elt: T, cost: real)
    requires h.WellFormed() && IsHeap(h.costs)
    ensures h.Push(elt, cost).WellFormed() && h.Push(elt, cost).Size() == h.Size() + 1
    ensures IsHeap(h.Push(elt, cost).costs)
    ensures multiset(h.Push(elt, cost).Entries()) == multiset(h.Entries()) + multiset{(elt, cost)}
    ensures multiset(h.Push(elt, cost).elts) == multiset(h.elts) + multiset{elt}
  {
    var n := h.Size();
    var g := Heap(h.elts + [elt], h.costs + [cost]);
    assert g.Entries() == h.Entries() + [(elt, cost)];
    assert g.costs[n := cost] == g.costs;
    BubbleUpKeepsHeap(g, elt, cost, n);
    BubbleUpEntries(g, elt, cost, n);
  }

  /** The queue pop bubbles down: the last pair moved to the root. */
  lemma PopRest<T>(h: Heap<T>)
    requires h.WellFormed() && IsHeap(h.costs) && h.Size() > 0
    ensures var last := h.Size() - 1;
      var rest := Heap(h.elts[0 := h.elts[last]][..last], h.costs[0 := h.costs[last]][..last]);
      DownReady(rest.costs, 0, h.costs[last]) &&
      multiset(rest.Entries()) == multiset(h.Entries()) - multiset{(h.elts[0], h.costs[0])} &&
      multiset(rest.elts) == multiset(h.elts) - multiset{h.elts[0]}
  {
    var last := h.Size() - 1;
    var rest := Heap(h.elts[0 := h.elts[last]][..last], h.costs[0 := h.costs[last]][..last]);
    var e := h.Entries();
    assert rest.Entries() == e[0 := e[last]][..last];
    DropFirstMultiset(e);
    DropFirstMultiset(h.elts);
    forall k | 0 < k < rest.Size() && Parent(k) != 0
      ensures rest.costs[Parent(k)] <= rest.costs[k]
    {
      assert h.costs[Parent(k)] <= h.costs[k];
    }
  }

  /** pop fails exactly on an empty queue; otherwise it returns the element at
      the root, whose stored cost is minimal, removes exactly that pair and
      keeps the heap invariant. */
  lemma PopSpec<T>(h: Heap<T>)
    requires h.WellFormed() && IsHeap(h.costs)
    ensures h.Pop().Err? <==> h.Size() == 0
    ensures h.Pop().Err? ==> h.Pop().error == HeapUnderflow
    ensures h.Pop().Ok? ==> h.Pop().value.0 == h.elts[0]
    ensures h.Pop().Ok? ==> (h.elts[0], h.costs[0]) in multiset(h.Entries())
    ensures h.Pop().Ok? ==> forall e | e in multiset(h.Entries()) :: h.costs[0] <= e.1
    ensures h.Pop().Ok? ==> var h' := h.Pop().value.1;
      h'.WellFormed() && h'.Size() == h.Size() - 1 && IsHeap(h'.costs)
    ensures h.Pop().Ok? ==> var h' := h.Pop().value.1;
      multiset(h'.Entries()) == multiset(h.Entries()) - multiset{(h.elts[0], h.costs[0])}
    ensures h.Pop().Ok? ==> var h' := h.Pop().value.1;
      multiset(h'.elts) == multiset(h.elts) - multiset{h.elts[0]}
  {
    if h.Size() > 0 {
      assert h.Entries()[0] == (h.elts[0], h.costs[0]);
      forall e | e in multiset(h.Entries()) ensures h.costs[0] <= e.1 {
        var k :| 0 <= k < h.Size() && h.Entries()[k] == e;
        RootIsMinimal(h.costs, k);
      }
      var last := h.Size() - 1;
      var rest := Heap(h.elts[0 := h.elts[last]][..last], h.costs[0 := h.costs[last]][..last]);
      var h' := rest.BubbleDown(h.elts[last], h.costs[last], 0);
      assert h.Pop() == Ok((h.elts[0], h'));
      PopRest(h);
      BubbleDownEntries(rest, h.elts[last], h.costs[last], 0);
      BubbleDownKeepsHeap(rest, h.elts[last], h.costs[last], 0);
    }
  }

  /** Overwriting one stored cost replaces exactly one stored pair. */
  lemma ReplaceCost<T>(h: Heap<T>, index: nat, cost: real)
    requires h.WellFormed() && index < h.Size()
    ensures multiset(Heap(h.elts, h.costs[index := cost]).Entries()) ==
      multiset(h.Entries()) - multiset{(h.elts[index], h.costs[index])} + multiset{(h.elts[index], cost)}
  {
    var e := h.Entries();
    assert Heap(h.elts, h.costs[index := cost]).Entries() == e[index := (h.elts[index], cost)];
    assert e == e[..index] + [e[index]] + e[index + 1..];
    assert e[index := (h.elts[index], cost)] == e[..index] + [(h.elts[index], cost)] + e[index + 1..];
  }

  /** The facts of PopSpec about a given outcome of pop. */
  lemma PopFacts<T>(h: Heap<T>, x: T, h': Heap<T>)
    requires h.WellFormed() && IsHeap(h.costs) && h.Size() > 0
    requires h' == h.Pop().value.1 && x == h.elts[0]
    ensures h.Pop() == Ok((x, h'))
    ensures h'.WellFormed() && h'.Size() == h.Size() - 1 && IsHeap(h'.costs)
    ensures (x, h.costs[0]) in multiset(h.Entries())
    ensures forall e | e in multiset(h.Entries()) :: h.costs[0] <= e.1
    ensures multiset(h'.Entries()) == multiset(h.Entries()) - multiset{(x, h.costs[0])}
  {
    PopSpec(h);
  }

  /** A decrease-key on a heap starts from bubbleUp_'s shape. */
  lemma RehashReady<T>(h: Heap<T>, cost: real, index: nat)
    requires h.WellFormed() && IsHeap(h.costs) && index < h.Size() && cost <= h.costs[index]
    ensures UpReady(h.costs, index, cost)
  {
    if index > 0 {
      forall k | 0 < k < h.Size() && Parent(k) == index
        ensures h.costs[Parent(index)] <= h.costs[k]
      {
        assert h.costs[Parent(index)] <= h.costs[index];
      }
    }
  }

  /** rehash fails when the element is absent or when the new cost exceeds
      the stored one; otherwise it keeps the heap invariant and the stored
      elements, and the element's stored cost becomes `cost` only if it moved. */
  lemma RehashSpec<T>(h: Heap<T>, elt: T, cost: real)
    requires h.WellFormed() && IsHeap(h.costs)
    ensures h.Rehash(elt, cost) == Err(NotInQueue) <==> elt !in h.elts
    ensures h.Rehash(elt, cost) == Err(HigherCost) <==>
      elt in h.elts && h.costs[IndexOf(h.elts, elt, 0)] < cost
    ensures h.Rehash(elt, cost).Ok? ==>
      var index := IndexOf(h.elts, elt, 0);
      var h' := h.Rehash(elt, cost).value;
      h'.WellFormed() && h'.Size() == h.Size() && IsHeap(h'.costs) &&
      multiset(h'.elts) == multiset(h.elts) &&
      multiset(h'.Entries()) == multiset(h.Entries()) - multiset{(elt, h.costs[index])}
                                + multiset{(elt, if Moves(h.costs, cost, index) then cost else h.costs[index])}
  {
    var index := IndexOf(h.elts, elt, 0);
    if index < h.Size() {
      assert elt in h.elts;
      if cost <= h.costs[index] {
        assert h.Rehash(elt, cost) == Ok(h.BubbleUp(elt, cost, index));
        RehashReady(h, cost, index);
        BubbleUpKeepsHeap(h, elt, cost, index);
        BubbleUpEntries(h, elt, cost, index);
        if Moves(h.costs, cost, index) {
          ReplaceCost(h, index, cost);
        }
      }
    }
  }
  /** The entries returned by popping until the queue is empty. */
  function Drain<T>(h: Heap<T>): seq<(T, real)>
    requires h.WellFormed()
    decreases h.Size()
  {
    if h.Size() == 0 then []
    else
      PopShrinks(h);
      [(h.elts[0], h.costs[0])] + Drain(h.Pop().value.1)
  }

  lemma PopShrinks<T>(h: Heap<T>)
    requires h.WellFormed() && h.Size() > 0
    ensures h.Pop().Ok? && h.Pop().value.1.WellFormed() && h.Pop().value.1.Size() < h.Size()
  {
  }

  /** Popping a heap until it is empty yields every stored entry exactly once. */
  lemma {:induction false} DrainPermutes<T>(h: Heap<T>)
    requires h.WellFormed() && IsHeap(h.costs)
    ensures multiset(Drain(h)) == multiset(h.Entries())
    decreases h.Size()
  {
    if h.Size() > 0 {
      var rest := h.Pop().value.1;
      PopFacts(h, h.elts[0], rest);
      DrainPermutes(rest);
      assert Drain(h) == [(h.elts[0], h.costs[0])] + Drain(rest);
    }
  }

  /** ... and in non-decreasing order of cost. */
  lemma {:induction false} DrainAscending<T>(h: Heap<T>)
    requires h.WellFormed() && IsHeap(h.costs)
    ensures forall i, j :: 0 <= i < j < |Drain(h)| ==> Drain(h)[i].1 <= Drain(h)[j].1
    decreases h.Size()
  {
    if h.Size() > 0 {
      var rest := h.Pop().value.1;
      PopFacts(h, h.elts[0], rest);
      DrainAscending(rest);
      DrainPermutes(rest);
      var tail := Drain(rest);
      var d := Drain(h);
      assert d == [(h.elts[0], h.costs[0])] + tail;
      forall j | 0 < j < |d| ensures d[0].1 <= d[j].1 {
        assert d[j] == tail[j - 1];
        assert tail[j - 1] in multiset(rest.Entries());
        assert d[j] in multiset(h.Entries());
      }
    }
  }

  // ---------------------------------------------------------------------
  // verify
  // ---------------------------------------------------------------------

  /** k lies in the subtree rooted at i. */
  ghost predicate InSubtree(k: nat, i: nat)
    decreases k
  {
    k == i || (k > i && InSubtree(Parent(k), i))
  }

  lemma {:induction false} EverythingUnderRoot(k: nat)
    ensures InSubtree(k, 0)
    decreases k
  {
    if k > 0 {
      EverythingUnderRoot(Parent(k));
    }
  }

  /** The subtree of i is i together with the subtrees of its two children. */
  lemma {:induction false} SubtreeSplit(k: nat, i: nat)
    ensures InSubtree(k, i) <==> k == i || InSubtree(k, 2 * i + 1) || InSubtree(k, 2 * i + 2)
    decreases k
  {
    if k > i && k > 0 {
      SubtreeSplit(Parent(k), i);
      if k > 2 * i + 2 {
        assert Parent(k) > i;
      }
    }
  }

  /** Heap order on every edge whose parent lies in the subtree of i. */
  ghost predicate SubtreeOrdered(cs: seq<real>, i: nat) {
    forall k :: 0 < k < |cs| && InSubtree(Parent(k), i) ==> cs[Parent(k)] <= cs[k]
  }

  lemma {:induction false} VerifySubtree<T>(h: Heap<T>, i: nat)
    requires h.WellFormed()
    ensures h.Verify(Some(i)) <==> SubtreeOrdered(h.costs, i)
    decreases h.Size() - i
  {
    var n := h.Size();
    var cs := h.costs;
    var c := i * 2 + 1;
    forall k | 0 < k < n
      ensures InSubtree(Parent(k), i) <==> Parent(k) == i || InSubtree(Parent(k), c) || InSubtree(Parent(k), c + 1)
    {
      SubtreeSplit(Parent(k), i);
    }
    if c < n {
      VerifySubtree(h, c);
      if c + 1 < n {
        VerifySubtree(h, c + 1);
      } else {
        forall k | 0 < k < n ensures !InSubtree(Parent(k), c + 1) {
          SubtreeAbove(Parent(k), c + 1);
        }
      }
      if SubtreeOrdered(cs, i) {
        assert Parent(c) == i;
        assert c + 1 < n ==> Parent(c + 1) == i;
      }
    } else {
      forall k | 0 < k < n ensures !InSubtree(Parent(k), i) {
        SubtreeAbove(Parent(k), i);
      }
    }
  }

  /** Members of the subtree of i other than i have indexes above 2i. */
  lemma {:induction false} SubtreeAbove(k: nat, i: nat)
    ensures InSubtree(k, i) ==> k == i || k >= 2 * i + 1
    decreases k
  {
    if k > i && k > 0 {
      SubtreeAbove(Parent(k), i);
    }
  }

  /** verify(0) holds exactly when the heap invariant holds; verify() with no
      argument holds whatever the contents. */
  lemma VerifySpec<T>(h: Heap<T>)
    requires h.WellFormed()
    ensures h.Verify(Some(0)) <==> IsHeap(h.costs)
    ensures h.Verify(None)
  {
    VerifySubtree(h, 0);
    forall k | 0 < k < h.Size() ensures InSubtree(Parent(k), 0) {
      EverythingUnderRoot(Parent(k));
    }
  }

  // ---------------------------------------------------------------------
  // The queue object
  // ---------------------------------------------------------------------

  /** The queue object: two growable arrays and a size counter.  Slots past
      `size_` that the source sets to null are not kept. */
  class HeapPriorityQueue<T(==)> {
    var elts: seq<T>
    var costs: seq<real>
    var size: nat

    /** The arrays hold exactly `size` entries. */
    ghost predicate Sized()
      reads this
    {
      |elts| == size && |costs| == size
    }

    /** Between public operations the stored costs form a heap. */
    ghost predicate Valid()
      reads this
    {
      Sized() && IsHeap(costs)
    }

    function Model(): Heap<T>
      reads this
    {
      Heap(elts, costs)
    }

    constructor()
      ensures Valid() && Model() == Heap([], [])
    {
      elts := [];
      costs := [];
      size := 0;
    }

    method BubbleUp(elt: T, cost: real, index: nat)
      requires Sized() && index < size
      modifies this
      ensures Sized() && size == old(size)
      ensures Model() == old(Model()).BubbleUp(elt, cost, index)
    {
      var i: nat := index;
      while i > 0
        invariant Sized() && size == old(size) && i < size
        invariant Model().BubbleUp(elt, cost, i) == old(Model()).BubbleUp(elt, cost, index)
        decreases i
      {
        var parentIndex := (i - 1) / 2;
        var parentNode := elts[parentIndex];
        var parentCost := costs[parentIndex];
        if cost < parentCost {
          elts := elts[parentIndex := elt];
          costs := costs[parentIndex := cost];
          elts := elts[i := parentNode];
          costs := costs[i := parentCost];
          i := parentIndex;
        } else {
          break;
        }
      }
    }

    /** push: one more entry, the heap invariant kept. */
    method Push(elt: T, cost: real)
      requires Valid()
      modifies this
      ensures Valid() && size == old(size) + 1
      ensures Model() == old(Model()).Push(elt, cost)
      ensures multiset(Model().Entries()) == multiset(old(Model()).Entries()) + multiset{(elt, cost)}
    {
      PushSpec(Model(), elt, cost);
      var index := size;
      size := size + 1;
      elts := elts + [elt];
      costs := costs + [cost];
      BubbleUp(elt, cost, index);
    }

    method BubbleDown(elt: T, cost: real, index: nat)
      requires Sized()
      modifies this
      ensures Sized() && size == old(size)
      ensures Model() == old(Model()).BubbleDown(elt, cost, index)
    {
      var i: nat := index;
      ghost var target := Model().BubbleDown(elt, cost, index);
      while i * 2 + 1 < size
        invariant Sized() && size == old(size)
        invariant Model().BubbleDown(elt, cost, i) == target
        decreases size - i
      {
        var childIndex0 := i * 2 + 1;
        var childIndex1 := childIndex0 + 1;
        var childIndex := if childIndex1 < size && !(costs[childIndex0] < costs[childIndex1])
          then childIndex1 else childIndex0;
        var childNode := elts[childIndex];
        var childCost := costs[childIndex];
        ghost var m := Model();
        DownTurn(m, elt, cost, i);
        if childCost < cost {
          elts := elts[childIndex := elt];
          costs := costs[childIndex := cost];
          elts := elts[i := childNode];
          costs := costs[i := childCost];
          assert Model() == m.Exchange(childIndex, i, elt, cost);
          i := childIndex;
        } else {
          assert m == target;
          break;
        }
      }
    }

    /** pop: 'Heap underflow!' on an empty queue, which is left unchanged;
        otherwise the element at the root, stored with a minimal cost, with
        exactly its entry removed and the heap invariant kept. */
    method Pop() returns (r: Result<T, HeapError>)
      requires Valid()
      modifies this
      ensures Valid()
      ensures r.Err? ==> r.error == HeapUnderflow && old(size) == 0 && Model() == old(Model())
      ensures r.Ok? ==> old(size) > 0 && size == old(size) - 1 && old(Model()).Pop() == Ok((r.value, Model()))
      ensures r.Ok? ==> (r.value, old(costs[0])) in multiset(old(Model()).Entries())
      ensures r.Ok? ==> forall e | e in multiset(old(Model()).Entries()) :: old(costs[0]) <= e.1
      ensures r.Ok? ==>
        multiset(Model().Entries()) == multiset(old(Model()).Entries()) - multiset{(r.value, old(costs[0]))}
    {
      if size == 0 {
        return Err(HeapUnderflow);
      }
      ghost var h := Model();
      var ret := elts[0];
      size := size - 1;
      var elt := elts[size];
      var cost := costs[size];
      elts := elts[0 := elt][..size];
      costs := costs[0 := cost][..size];
      assert Model() == Heap(h.elts[0 := elt][..size], h.costs[0 := cost][..size]);
      BubbleDown(elt, cost, 0);
      PopFacts(h, ret, Model());
      return Ok(ret);
    }

    /** rehash: a linear identity scan, the two thrown errors, then bubbleUp_. */
    method Rehash(elt: T, cost: real) returns (r: Result<(), HeapError>)
      requires Valid()
      modifies this
      ensures Valid() && size == old(size)
      ensures r.Err? ==> old(Model()).Rehash(elt, cost) == Err(r.error) && Model() == old(Model())
      ensures r.Ok? ==> old(Model()).Rehash(elt, cost) == Ok(Model())
    {
      RehashSpec(Model(), elt, cost);
      var index := 0;
      while index < size
        invariant index <= size
        invariant forall k :: 0 <= k < index ==> elts[k] != elt
      {
        if elt == elts[index] {
          break;
        }
        index := index + 1;
      }
      assert index == IndexOf(elts, elt, 0);
      if index >= size {
        return Err(NotInQueue);
      }
      if costs[index] < cost {
        return Err(HigherCost);
      }
      BubbleUp(elt, cost, index);
      return Ok(());
    }

    /** empty: whether no entry is stored. */
    method Empty() returns (e: bool)
      requires Sized()
      ensures e <==> multiset(Model().Entries()) == multiset{}
    {
      e := size == 0;
      assert size > 0 ==> Model().Entries()[0] in multiset(Model().Entries());
    }

    /** verify, recursive as in the source; `None` is the missing argument. */
    method Verify(index: Option<nat>) returns (result: bool)
      requires Sized()
      ensures result == Model().Verify(index)
      ensures index == Some(0) ==> (result <==> IsHeap(costs))
      ensures index == None ==> result
      decreases if index.Some? then size - index.value else 0
    {
      VerifySpec(Model());
      if index.None? {
        return true;
      }
      var i := index.value;
      var childIndex := i * 2 + 1;
      result := true;
      if childIndex < size {
        if costs[childIndex] < costs[i] {
          return false;
        }
        result := Verify(Some(childIndex));
        childIndex := childIndex + 1;
      }
      if result && childIndex < size {
        if costs[childIndex] < costs[i] {
          return false;
        }
        result := Verify(Some(childIndex));
        childIndex := childIndex + 1;
      }
    }
  }
}
