/**
 The binary heap of servers of verl/experimental/agent_loop/agent_loop.py: entries ordered by request count
 and then by hash, kept by the sift procedures of Python's heapq.
 */
module ServerHeap {
  import opened Sequences

  datatype Entry<+S> = Entry(count: nat, hash: int, server: S)

  predicate Less<S>(a: Entry<S>, b: Entry<S>) {
    a.count < b.count || (a.count == b.count && a.hash < b.hash)
  }

  function Parent(i: nat): nat
    requires i >= 1
  {
    (i - 1) / 2
  }

  /** Entry i is not smaller than its parent. */
  predicate Ordered<S>(h: seq<Entry<S>>, i: nat)
    requires 1 <= i < |h|
  {
    !Less(h[i], h[Parent(i)])
  }

  /** The heap property for every pair whose parent is at or after `low`. */
  predicate HeapFrom<S>(h: seq<Entry<S>>, low: nat) {
    forall i :: 1 <= i < |h| && low <= Parent(i) ==> Ordered(h, i)
  }

  predicate IsHeap<S>(h: seq<Entry<S>>) {
    HeapFrom(h, 0)
  }

  /** No entry has a lower count than the first, nor as low a count and a lower hash. */
  predicate FirstIsLeast<S>(h: seq<Entry<S>>) {
    forall i :: 0 <= i < |h| ==>
      h[0].count < h[i].count || (h[0].count == h[i].count && h[0].hash <= h[i].hash)
  }

  lemma {:induction false} RootIsLeast<S>(h: seq<Entry<S>>, i: nat)
    requires IsHeap(h) && i < |h|
    ensures h[0].count < h[i].count || (h[0].count == h[i].count && h[0].hash <= h[i].hash)
  {
    if i > 0 {
      assert Ordered(h, i);
      RootIsLeast(h, Parent(i));
    }
  }

  lemma HeapFirstIsLeast<S>(h: seq<Entry<S>>)
    requires IsHeap(h)
    ensures FirstIsLeast(h)
  {
    forall i | 0 <= i < |h|
      ensures h[0].count < h[i].count || (h[0].count == h[i].count && h[0].hash <= h[i].hash)
    {
      RootIsLeast(h, i);
    }
  }

  /** i lies in the subtree below `low`. */
  predicate Below(low: nat, i: nat)
    decreases i
  {
    i == low || (i > low && Below(low, Parent(i)))
  }

  /** As HeapFrom, but position `pos` may be smaller than its parent; its children fit under that parent. */
  predicate HeapExceptUp<S>(h: seq<Entry<S>>, low: nat, pos: nat) {
    && pos < |h| && Below(low, pos)
    && (forall i :: 1 <= i < |h| && low <= Parent(i) && i != pos ==> Ordered(h, i))
    && (pos > low ==> forall i :: 1 <= i < |h| && Parent(i) == pos ==> !Less(h[i], h[Parent(pos)]))
  }

  /** As HeapFrom, but nothing is known yet about `pos` against its neighbours. */
  predicate HeapExcept<S>(h: seq<Entry<S>>, low: nat, pos: nat) {
    && pos < |h| && Below(low, pos)
    && (forall i :: 1 <= i < |h| && low <= Parent(i) && i != pos && Parent(i) != pos ==> Ordered(h, i))
    && (pos > low ==> forall i :: 1 <= i < |h| && Parent(i) == pos ==> !Less(h[i], h[Parent(pos)]))
  }

  function Swap<S>(h: seq<Entry<S>>, i: nat, j: nat): (r: seq<Entry<S>>)
    requires i < |h| && j < |h|
    ensures |r| == |h|
  {
    h[i := h[j]][j := h[i]]
  }

  lemma SwapPermutes<S>(h: seq<Entry<S>>, i: nat, j: nat)
    requires i < |h| && j < |h|
    ensures IsPermutation(Swap(h, i, j), h)
  {
  }

  lemma BelowAtLeast(low: nat, i: nat)
    requires Below(low, i)
    ensures low <= i
  {
  }

  /** Moving an entry one place towards the root. */
  lemma SwapUp<S>(h: seq<Entry<S>>, low: nat, pos: nat)
    requires HeapExceptUp(h, low, pos) && pos > low && Less(h[pos], h[Parent(pos)])
    ensures HeapExceptUp(Swap(h, pos, Parent(pos)), low, Parent(pos))
  {
    var p := Parent(pos);
    var r := Swap(h, pos, p);
    forall i | 1 <= i < |r| && low <= Parent(i) && i != p ensures Ordered(r, i) {
      assert i != pos ==> Ordered(h, i);
    }
    if p > low {
      BelowAtLeast(low, Parent(p));
      assert Ordered(h, p);
      forall i | 1 <= i < |r| && Parent(i) == p ensures !Less(r[i], r[Parent(p)]) {
        assert i != pos ==> Ordered(h, i);
      }
    }
  }

  /** Moving the smaller child up, on the way from `low` to a leaf. */
  lemma SwapDown<S>(h: seq<Entry<S>>, low: nat, pos: nat, child: nat)
    requires HeapExcept(h, low, pos) && 1 <= child < |h| && Parent(child) == pos
    requires forall i :: 1 <= i < |h| && Parent(i) == pos ==> !Less(h[i], h[child])
    ensures HeapExcept(Swap(h, child, pos), low, child)
  {
    BelowAtLeast(low, pos);
    var r := Swap(h, child, pos);
    forall i | 1 <= i < |r| && low <= Parent(i) && i != child && Parent(i) != child ensures Ordered(r, i) {
      if i == pos {
        assert !Less(h[child], h[Parent(pos)]);
      } else if Parent(i) != pos {
        assert Ordered(h, i);
      }
    }
    forall i | 1 <= i < |r| && Parent(i) == child ensures !Less(r[i], r[Parent(child)]) {
      assert Ordered(h, i);
    }
  }

  lemma LeafReached<S>(h: seq<Entry<S>>, low: nat, pos: nat)
    requires HeapExcept(h, low, pos) && 2 * pos + 1 >= |h|
    ensures HeapExceptUp(h, low, pos)
  {
  }

  lemma TopReached<S>(h: seq<Entry<S>>, low: nat, pos: nat)
    requires HeapExceptUp(h, low, pos) && (pos > low ==> !Less(h[pos], h[Parent(pos)]))
    ensures HeapFrom(h, low)
  {
    BelowAtLeast(low, pos);
  }

  /** heapq's `_siftdown`: bubbles an entry towards `low`. */
  method SiftDown<S>(h: array<Entry<S>>, low: nat, start: nat)
    requires HeapExceptUp(h[..], low, start)
    modifies h
    ensures HeapFrom(h[..], low) && IsPermutation(h[..], old(h[..]))
    ensures forall i :: 0 <= i < low ==> h[i] == old(h[i])
  {
    var pos: nat := start;
    while pos > low && Less(h[pos], h[Parent(pos)])
      invariant HeapExceptUp(h[..], low, pos) && IsPermutation(h[..], old(h[..]))
      invariant forall i :: 0 <= i < low ==> h[i] == old(h[i])
      decreases pos
    {
      SwapUp(h[..], low, pos);
      SwapPermutes(h[..], pos, Parent(pos));
      ghost var next := Swap(h[..], pos, Parent(pos));
      BelowAtLeast(low, Parent(pos));
      h[pos], h[Parent(pos)] := h[Parent(pos)], h[pos];
      assert h[..] == next;
      pos := Parent(pos);
    }
    TopReached(h[..], low, pos);
  }

  /** The child that moves up: the right one unless the left is smaller. */
  function SmallerChild<S>(h: seq<Entry<S>>, pos: nat): (c: nat)
    requires 2 * pos + 1 < |h|
    ensures 1 <= c < |h| && Parent(c) == pos
    ensures forall i :: 1 <= i < |h| && Parent(i) == pos ==> !Less(h[i], h[c])
  {
    var left, right := 2 * pos + 1, 2 * pos + 2;
    if right < |h| && !Less(h[left], h[right]) then right else left
  }

  /** heapq's `_siftup`: lets smaller children rise until a leaf is reached, then bubbles the entry up again. */
  method SiftUp<S>(h: array<Entry<S>>, low: nat)
    requires low < h.Length && HeapFrom(h[..], low + 1)
    modifies h
    ensures HeapFrom(h[..], low) && IsPermutation(h[..], old(h[..]))
    ensures forall i :: 0 <= i < low ==> h[i] == old(h[i])
  {
    var pos := low;
    assert HeapExcept(h[..], low, pos) by {
      forall i | 1 <= i < h.Length && low <= Parent(i) && i != pos && Parent(i) != pos ensures Ordered(h[..], i) {
      }
    }
    while 2 * pos + 1 < h.Length
      invariant HeapExcept(h[..], low, pos) && IsPermutation(h[..], old(h[..]))
      invariant forall i :: 0 <= i < low ==> h[i] == old(h[i])
      decreases h.Length - pos
    {
      var child := SmallerChild(h[..], pos);
      SwapDown(h[..], low, pos, child);
      SwapPermutes(h[..], child, pos);
      ghost var next := Swap(h[..], child, pos);
      BelowAtLeast(low, pos);
      h[child], h[pos] := h[pos], h[child];
      assert h[..] == next;
      pos := child;
    }
    LeafReached(h[..], low, pos);
    SiftDown(h, low, pos);
  }

  /** `heapq.heapify` */
  method Heapify<S>(h: array<Entry<S>>)
    modifies h
    ensures IsHeap(h[..]) && IsPermutation(h[..], old(h[..]))
  {
    var i := h.Length / 2;
    while i > 0
      invariant 0 <= i <= h.Length / 2
      invariant HeapFrom(h[..], i) && IsPermutation(h[..], old(h[..]))
    {
      i := i - 1;
      SiftUp(h, i);
    }
  }

  // ---------- the balance of the request counts ----------

  function Total<S>(h: seq<Entry<S>>): nat {
    if h == [] then 0 else h[0].count + Total(h[1..])
  }

  predicate Balanced<S>(h: seq<Entry<S>>) {
    forall i, j :: 0 <= i < |h| && 0 <= j < |h| ==> h[i].count <= h[j].count + 1
  }

  /** `weighted_serveres[0][0] += 1` */
  function RootRaised<S>(h: seq<Entry<S>>): (r: seq<Entry<S>>)
    requires h != []
    ensures |r| == |h|
  {
    h[0 := h[0].(count := h[0].count + 1)]
  }

  /** Raising the least entry keeps all counts within one of each other and adds one to their total. */
  lemma RaiseBalanced<S>(h: seq<Entry<S>>)
    requires IsHeap(h) && Balanced(h) && h != []
    ensures Balanced(RootRaised(h)) && Total(RootRaised(h)) == Total(h) + 1
    ensures HeapFrom(RootRaised(h), 1)
  {
    forall i | 0 <= i < |h| ensures h[0].count <= h[i].count { RootIsLeast(h, i); }
    assert RootRaised(h)[1..] == h[1..];
    forall i | 1 <= i < |h| && 1 <= Parent(i) ensures Ordered(RootRaised(h), i) { assert Ordered(h, i); }
  }

  lemma {:induction false} TotalRemove<S>(h: seq<Entry<S>>, i: nat)
    requires i < |h|
    ensures Total(h) == h[i].count + Total(RemoveAt(h, i))
  {
    if i > 0 {
      TotalRemove(h[1..], i - 1);
      var rest := RemoveAt(h, i);
      assert rest[0] == h[0] && rest[1..] == RemoveAt(h[1..], i - 1);
    } else {
      assert RemoveAt(h, 0) == h[1..];
    }
  }

  lemma {:induction false} TotalPermutation<S>(a: seq<Entry<S>>, b: seq<Entry<S>>)
    requires IsPermutation(a, b)
    ensures Total(a) == Total(b)
  {
    PermutationSize(a, b);
    if a != [] {
      var j := PermutationStep(a, b);
      TotalRemove(b, j);
      TotalPermutation(a[1..], RemoveAt(b, j));
    }
  }

  lemma BalancedPermutation<S>(a: seq<Entry<S>>, b: seq<Entry<S>>)
    requires IsPermutation(a, b) && Balanced(b)
    ensures Balanced(a)
  {
    forall i, j | 0 <= i < |a| && 0 <= j < |a| ensures a[i].count <= a[j].count + 1 {
      var x := PermutationFind(a, b, i);
      var y := PermutationFind(a, b, j);
    }
  }

  lemma {:induction false} TotalBounds<S>(h: seq<Entry<S>>, low: int, high: int)
    requires forall i :: 0 <= i < |h| ==> low <= h[i].count <= high
    ensures |h| * low <= Total(h) <= |h| * high
  {
    if h != [] { TotalBounds(h[1..], low, high); }
  }

  /** The bounds are as sharp as any one entry allows. */
  lemma {:induction false} TotalBoundsAt<S>(h: seq<Entry<S>>, i: nat, low: int, high: int)
    requires i < |h| && forall j :: 0 <= j < |h| ==> low <= h[j].count <= high
    ensures |h| * low + (h[i].count - low) <= Total(h) <= |h| * high - (high - h[i].count)
  {
    var rest := h[1..];
    assert |h| * low == |rest| * low + low && |h| * high == |rest| * high + high;
    if i > 0 {
      TotalBoundsAt(rest, i - 1, low, high);
    } else {
      TotalBounds(rest, low, high);
    }
  }

  lemma OneMoreOneLess(n: int, c: int)
    ensures n * (c - 1) == n * c - n && n * (c + 1) == n * c + n
  {
  }

  /** So every server has the average number of requests, rounded down or up. */
  lemma NearAverage<S>(h: seq<Entry<S>>, i: nat)
    requires Balanced(h) && i < |h|
    ensures |h| * h[i].count - |h| < Total(h) < |h| * h[i].count + |h|
  {
    TotalBoundsAt(h, i, h[i].count - 1, h[i].count + 1);
    OneMoreOneLess(|h|, h[i].count);
  }
}
