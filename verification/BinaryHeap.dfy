/** The priority queue of the table computation: a binary heap kept in a growing buffer. */
module BinaryHeap {

  /** Ordered by distance, then by the address of the queued object. */
  datatype Entry<T> = Entry(distance: int, address: nat, item: T)

  predicate Less<T>(a: Entry<T>, b: Entry<T>) {
    a.distance < b.distance || (a.distance == b.distance && a.address < b.address)
  }

  lemma NearerIsLess<T>(a: Entry<T>, b: Entry<T>)
    requires a.distance < b.distance
    ensures Less(a, b)
  {
  }

  function Parent(i: nat): nat
    requires 0 < i
  {
    (i - 1) / 2
  }

  /** Entry `i` is not less than its parent. */
  ghost predicate Ordered<T>(h: seq<Entry<T>>, i: nat) {
    0 < i < |h| ==> !Less(h[i], h[Parent(i)])
  }

  ghost predicate IsHeap<T>(h: seq<Entry<T>>) {
    forall i :: Ordered(h, i)
  }

  lemma {:induction false} TopIsLeast<T>(h: seq<Entry<T>>, i: nat)
    requires IsHeap(h) && i < |h|
    ensures !Less(h[i], h[0])
    decreases i
  {
    if i > 0 {
      assert Ordered(h, i);
      TopIsLeast(h, Parent(i));
    }
  }

  function Swap<T>(h: seq<Entry<T>>, i: nat, j: nat): (r: seq<Entry<T>>)
    requires i < |h| && j < |h|
    ensures |r| == |h| && r[i] == h[j] && r[j] == h[i]
    ensures forall k :: 0 <= k < |h| && k != i && k != j ==> r[k] == h[k]
    ensures multiset(r) == multiset(h)
  {
    h[i := h[j]][j := h[i]]
  }

  /** Entry `k` is not less than its grandparent through `i`. */
  ghost predicate Bridged<T>(h: seq<Entry<T>>, i: nat, k: nat) {
    0 < i && 0 < k < |h| && Parent(k) == i ==> i < |h| && !Less(h[k], h[Parent(i)])
  }

  /** A heap but for the entry at `i`, which may still have to rise. */
  ghost predicate Rising<T>(h: seq<Entry<T>>, i: nat) {
    && i < |h|
    && (forall k :: k != i ==> Ordered(h, k))
    && (forall k :: Bridged(h, i, k))
  }

  lemma RiseStep<T>(h: seq<Entry<T>>, i: nat)
    requires Rising(h, i) && 0 < i && Less(h[i], h[Parent(i)])
    ensures Rising(Swap(h, i, Parent(i)), Parent(i))
  {
    var p := Parent(i);
    var r := Swap(h, i, p);
    forall k: nat | k != p ensures Ordered(r, k) {
      assert k != i ==> Ordered(h, k);
      assert Bridged(h, i, k);
    }
    forall k: nat ensures Bridged(r, p, k) {
      assert k != i ==> Ordered(h, k);
      assert Ordered(h, p);
    }
  }

  /** A heap but for the children of `i`, which may be less than it. */
  ghost predicate Sinking<T>(h: seq<Entry<T>>, i: nat) {
    && i < |h|
    && (forall k :: 0 < k && Parent(k) != i ==> Ordered(h, k))
    && (forall k :: Bridged(h, i, k))
  }

  lemma SinkStep<T>(h: seq<Entry<T>>, i: nat, child: nat)
    requires Sinking(h, i) && child < |h| && 0 < child && Parent(child) == i && Less(h[child], h[i])
    requires forall k: nat :: 0 < k < |h| && Parent(k) == i ==> !Less(h[k], h[child])
    ensures Sinking(Swap(h, i, child), child)
  {
    var r := Swap(h, i, child);
    forall k: nat | 0 < k && Parent(k) != child ensures Ordered(r, k) {
      assert Parent(k) != i ==> Ordered(h, k);
      assert Bridged(h, i, child);
    }
    forall k: nat ensures Bridged(r, child, k) {
      assert 0 < k && Parent(k) != i ==> Ordered(h, k);
    }
  }

  lemma Sunk<T>(h: seq<Entry<T>>, i: nat)
    requires Sinking(h, i)
    requires forall k: nat :: 0 < k < |h| && Parent(k) == i ==> !Less(h[k], h[i])
    ensures IsHeap(h)
  {
    forall k: nat ensures Ordered(h, k) {
      assert 0 < k && Parent(k) != i ==> Ordered(h, k);
    }
  }

  /**
   Appends an entry and lets it rise.  An entry greater than the top leaves the top where it
   is, so a reference to the top stays good while greater entries are pushed.
   */
  method Push<T>(h: seq<Entry<T>>, x: Entry<T>) returns (r: seq<Entry<T>>)
    requires IsHeap(h)
    ensures IsHeap(r) && multiset(r) == multiset(h) + multiset{x}
    ensures h != [] && Less(h[0], x) ==> r[0] == h[0]
  {
    r := h + [x];
    var i: nat := |h|;
    assert Rising(r, i) by {
      forall k: nat | k != i ensures Ordered(r, k) {
        assert Ordered(h, k);
      }
    }
    while i > 0 && Less(r[i], r[Parent(i)])
      invariant Rising(r, i) && |r| == |h| + 1 && r[i] == x
      invariant multiset(r) == multiset(h) + multiset{x}
      invariant h != [] && Less(h[0], x) ==> i != 0 && r[0] == h[0]
    {
      RiseStep(r, i);
      r := Swap(r, i, Parent(i));
      i := Parent(i);
    }
    forall k: nat ensures Ordered(r, k) {
      assert k != i ==> Ordered(r, k);
    }
  }

  function LesserChild<T>(h: seq<Entry<T>>, i: nat): (child: nat)
    requires 2 * i + 1 < |h|
    ensures i < child < |h| && Parent(child) == i
    ensures forall k: nat :: 0 < k < |h| && Parent(k) == i ==> !Less(h[k], h[child])
  {
    var left := 2 * i + 1;
    assert forall k: nat :: 0 < k < |h| && Parent(k) == i ==> k == left || k == left + 1;
    if left + 1 < |h| && Less(h[left + 1], h[left]) then left + 1 else left
  }

  lemma StopSinking<T>(h: seq<Entry<T>>, i: nat)
    requires Sinking(h, i) && (2 * i + 1 < |h| ==> !Less(h[LesserChild(h, i)], h[i]))
    ensures IsHeap(h)
  {
    forall k: nat | 0 < k < |h| && Parent(k) == i ensures !Less(h[k], h[i]) {
      assert !Less(h[k], h[LesserChild(h, i)]);
    }
    Sunk(h, i);
  }

  /** Lets the entry at the top sink to where it belongs. */
  method Sink<T>(h: seq<Entry<T>>) returns (r: seq<Entry<T>>)
    requires h != [] && Sinking(h, 0)
    ensures IsHeap(r) && multiset(r) == multiset(h)
  {
    r := h;
    var i: nat := 0;
    while 2 * i + 1 < |r| && Less(r[LesserChild(r, i)], r[i])
      invariant |r| == |h| && Sinking(r, i)
      invariant multiset(r) == multiset(h)
      decreases |r| - i
    {
      var child := LesserChild(r, i);
      SinkStep(r, i, child);
      r := Swap(r, i, child);
      i := child;
    }
    StopSinking(r, i);
  }

  /** Removes the top: the last entry takes its place and sinks. */
  method Pop<T>(h: seq<Entry<T>>) returns (r: seq<Entry<T>>)
    requires IsHeap(h) && h != []
    ensures IsHeap(r) && multiset(r) == multiset(h) - multiset{h[0]}
  {
    var last := |h| - 1;
    assert h == h[..last] + [h[last]];
    r := h[..last];
    if last != 0 {
      r := r[0 := h[last]];
      forall k: nat | 0 < k && Parent(k) != 0 ensures Ordered(r, k) {
        assert Ordered(h, k);
      }
      r := Sink(r);
    }
  }

  /**
   The queue object.  `pushed` and `popped` are its history: every entry ever put on it and
   taken off it, in order.
   */
  class PriorityQueue<T> {
    var heap: seq<Entry<T>>
    ghost var pushed: seq<Entry<T>>
    ghost var popped: seq<Entry<T>>

    ghost predicate Valid()
      reads this
    {
      IsHeap(heap) && multiset(pushed) == multiset(heap) + multiset(popped)
    }

    constructor ()
      ensures Valid() && heap == pushed == popped == []
    {
      heap, pushed, popped := [], [], [];
    }

    method Add(x: Entry<T>)
      requires Valid()
      modifies this
      ensures Valid() && pushed == old(pushed) + [x] && popped == old(popped)
      ensures multiset(heap) == multiset(old(heap)) + multiset{x} && heap != []
      ensures old(heap) != [] && Less(old(heap)[0], x) ==> heap[0] == old(heap)[0]
    {
      hide IsHeap, Less;
      heap := Push(heap, x);
      pushed := pushed + [x];
      assert x in multiset(heap);
    }

    /** Takes the top off. */
    method Remove()
      requires Valid() && heap != []
      modifies this
      ensures Valid() && pushed == old(pushed) && popped == old(popped) + [old(heap)[0]]
      ensures multiset(heap) == multiset(old(heap)) - multiset{old(heap)[0]}
    {
      hide IsHeap;
      assert heap[0] in multiset(heap);
      popped := popped + [heap[0]];
      heap := Pop(heap);
    }
  }
}
