/**
 Value-level meaning of the largest-differencing partitioner in verl/utils/seqlen_balancing.py:
 the orders its classes define and one merge of two states. A whole run of the priority queue
 is in KarmarkarKarpRun.dfy, the objects that carry these values in KarmarkarKarpObjects.dfy.
 */
module KarmarkarKarp {
  import opened Sequences
  import opened Sorting

  datatype Item = Item(idx: nat, val: nat)

  /** The contents of one `Set` object: the items added so far and their running sum. */
  datatype Part = Part(sum: int, items: seq<Item>)

  const EMPTY := Part(0, [])

  /** A `State` object: its k sets, in the order the state keeps them. */
  type Split = seq<Part>

  function SumVals(items: seq<Item>): nat {
    if items == [] then 0 else items[0].val + SumVals(items[1..])
  }

  lemma {:induction false} SumValsAppend(a: seq<Item>, b: seq<Item>)
    ensures SumVals(a + b) == SumVals(a) + SumVals(b)
  {
    if a == [] {
      assert a + b == b;
    } else {
      assert (a + b)[1..] == a[1..] + b;
      SumValsAppend(a[1..], b);
    }
  }

  // ---------- the orders ----------

  predicate ItemLess(a: Item, b: Item) {
    a.idx < b.idx || (a.idx == b.idx && a.val < b.val)
  }

  /** Python's `<` on lists of (idx, val) pairs. */
  predicate ItemsLess(a: seq<Item>, b: seq<Item>) {
    if b == [] then false
    else if a == [] then true
    else if a[0] != b[0] then ItemLess(a[0], b[0])
    else ItemsLess(a[1..], b[1..])
  }

  /** `Set.__lt__`: by sum, then by number of items, then by the items themselves. */
  predicate PartLess(a: Part, b: Part) {
    if a.sum != b.sum then a.sum < b.sum
    else if |a.items| != |b.items| then |a.items| < |b.items|
    else ItemsLess(a.items, b.items)
  }

  lemma {:induction false} ItemsLessTotal(a: seq<Item>, b: seq<Item>)
    ensures a == b || ItemsLess(a, b) || ItemsLess(b, a)
    ensures !(ItemsLess(a, b) && ItemsLess(b, a))
    ensures !ItemsLess(a, a)
  {
    if a != [] {
      ItemsLessTotal(a[1..], if b == [] then b else b[1..]);
      if b != [] && a[0] == b[0] && a[1..] == b[1..] {
        assert a == [a[0]] + a[1..] && b == [b[0]] + b[1..];
      }
    }
  }

  lemma {:induction false} ItemsLessTransitive(a: seq<Item>, b: seq<Item>, c: seq<Item>)
    requires ItemsLess(a, b) && ItemsLess(b, c)
    ensures ItemsLess(a, c)
  {
    if a != [] && a[0] == b[0] && b[0] == c[0] {
      ItemsLessTransitive(a[1..], b[1..], c[1..]);
    }
  }

  /** `Set.__lt__` is a strict total order: sorting by it has one possible outcome. */
  lemma PartLessTotal(a: Part, b: Part)
    ensures a == b || PartLess(a, b) || PartLess(b, a)
    ensures !(PartLess(a, b) && PartLess(b, a)) && !PartLess(a, a)
  {
    ItemsLessTotal(a.items, b.items);
  }

  lemma PartLessTransitive(a: Part, b: Part, c: Part)
    requires PartLess(a, b) && PartLess(b, c)
    ensures PartLess(a, c)
  {
    if a.sum == b.sum == c.sum && |a.items| == |b.items| == |c.items| {
      ItemsLessTransitive(a.items, b.items, c.items);
    }
  }

  /** The lists agree up to n, and there a has ended or has the lesser item: by index, then by value. */
  predicate LessAt(a: seq<Item>, b: seq<Item>, n: nat) {
    && n <= |a| && n < |b| && (forall m :: 0 <= m < n ==> a[m] == b[m])
    && (n == |a| || a[n].idx < b[n].idx || (a[n].idx == b[n].idx && a[n].val < b[n].val))
  }

  lemma LessAtNext(a: seq<Item>, b: seq<Item>, n: nat)
    requires a != [] && b != []
    ensures LessAt(a, b, n + 1) <==> a[0] == b[0] && LessAt(a[1..], b[1..], n)
  {
    if LessAt(a, b, n + 1) {
      forall m | 0 <= m < n ensures a[1..][m] == b[1..][m] { assert a[m + 1] == b[m + 1]; }
    }
  }

  /** Lists of items compare as their first differing items do. */
  lemma {:induction false} ItemsLessIs(a: seq<Item>, b: seq<Item>)
    ensures ItemsLess(a, b) <==> exists n: nat :: LessAt(a, b, n)
  {
    if a == [] || b == [] || a[0] != b[0] {
      if ItemsLess(a, b) { assert LessAt(a, b, 0); }
      forall n: nat | LessAt(a, b, n) ensures n == 0 {
      }
    } else {
      ItemsLessIs(a[1..], b[1..]);
      assert !LessAt(a, b, 0);
      if ItemsLess(a, b) {
        var n: nat :| LessAt(a[1..], b[1..], n);
        LessAtNext(a, b, n);
      } else {
        forall n: nat ensures !LessAt(a, b, n) {
          if n > 0 { LessAtNext(a, b, n - 1); }
        }
      }
    }
  }

  /** A set is less if its sum is, or with equal sums its number of items, or else the list of its items. */
  lemma PartLessIs(a: Part, b: Part)
    ensures PartLess(a, b) <==>
      || a.sum < b.sum
      || (a.sum == b.sum && |a.items| < |b.items|)
      || (a.sum == b.sum && |a.items| == |b.items| && exists n: nat :: LessAt(a.items, b.items, n))
  {
    ItemsLessIs(a.items, b.items);
  }

  // ---------- sorted(sets, reverse=True) ----------

  predicate Descending(s: Split) {
    forall i, j {:trigger PartLess(s[i], s[j])} :: 0 <= i < j < |s| ==> !PartLess(s[i], s[j])
  }

  /** May a stand before b? */
  predicate NotLess(a: Part, b: Part) {
    !PartLess(a, b)
  }

  lemma NotLessOrders()
    ensures Orders(NotLess)
  {
    forall a, b ensures NotLess(a, b) || NotLess(b, a) {
      PartLessTotal(a, b);
    }
    forall a, b, c | NotLess(a, b) && NotLess(b, c) ensures NotLess(a, c) {
      PartLessTotal(a, b);
      if PartLess(a, c) && a != b { PartLessTransitive(b, a, c); }
    }
  }

  function SortDescending(s: Split): (r: Split)
    ensures |r| == |s|
  {
    Sort(s, NotLess)
  }

  lemma SortDescendingPermutes(s: Split)
    ensures IsPermutation(SortDescending(s), s)
  {
    SortPermutes(s, NotLess);
  }

  lemma SortDescendingIsDescending(s: Split)
    ensures Descending(SortDescending(s))
  {
    NotLessOrders();
    SortInOrder(s, NotLess);
    var r := SortDescending(s);
    forall i, j | 0 <= i < j < |r| ensures NotLess(r[i], r[j]) {
    }
  }

  lemma FirstIsGreatest(a: Split, b: Split)
    requires Descending(a) && Descending(b) && IsPermutation(a, b)
    requires a != [] && b != []
    ensures a[0] == b[0]
  {
    var i := PermutationFind(a, b, 0);
    var j := PermutationFind(b, a, 0);
    PartLessTotal(a[0], b[0]);
  }

  /** Whatever the sorting algorithm, a descending rearrangement of the sets is this one. */
  lemma {:induction false} DescendingUnique(a: Split, b: Split)
    requires Descending(a) && Descending(b) && IsPermutation(a, b)
    ensures a == b
  {
    PermutationSize(a, b);
    if a != [] {
      FirstIsGreatest(a, b);
      assert a == [a[0]] + a[1..] && b == [b[0]] + b[1..];
      assert multiset(a[1..]) == multiset(a) - multiset{a[0]};
      assert multiset(b[1..]) == multiset(b) - multiset{b[0]};
      DescendingUnique(a[1..], b[1..]);
    }
  }

  // ---------- one state ----------

  /** What every live state satisfies: right width, sums in step with items, largest set first. */
  predicate WellFormed(s: Split, k: nat) {
    && |s| == k
    && (forall i :: 0 <= i < k ==> s[i].sum == SumVals(s[i].items))
    && Descending(s)
  }

  function Spread(s: Split): int
    requires s != []
  {
    s[0].sum - s[|s| - 1].sum
  }

  /** `State.__lt__`: the larger spread first, then the larger first set. */
  predicate SplitLess(s: Split, t: Split)
    requires s != [] && t != []
  {
    if Spread(s) != Spread(t) then Spread(s) > Spread(t) else PartLess(t[0], s[0])
  }

  function MergePart(a: Part, b: Part): Part {
    Part(a.sum + SumVals(b.items), a.items + b.items)
  }

  /** Set i of one state takes in set k-1-i of the other: large meets small. */
  function CrossMerge(a: Split, b: Split): (r: Split)
    requires |a| == |b|
    ensures |r| == |a|
  {
    seq(|a|, i requires 0 <= i < |a| => MergePart(a[i], b[|a| - 1 - i]))
  }

  function MergeSplits(a: Split, b: Split): Split
    requires |a| == |b|
  {
    SortDescending(CrossMerge(a, b))
  }

  lemma CrossMergeSums(a: Split, b: Split, k: nat)
    requires WellFormed(a, k) && WellFormed(b, k)
    ensures forall i :: 0 <= i < k ==>
      var c := CrossMerge(a, b)[i];
      c.sum == a[i].sum + b[k - 1 - i].sum && c.sum == SumVals(c.items)
  {
    forall i | 0 <= i < k
      ensures CrossMerge(a, b)[i].sum == SumVals(CrossMerge(a, b)[i].items)
    {
      SumValsAppend(a[i].items, b[k - 1 - i].items);
    }
  }

  lemma MergeWellFormed(a: Split, b: Split, k: nat)
    requires WellFormed(a, k) && WellFormed(b, k)
    ensures WellFormed(MergeSplits(a, b), k)
  {
    var c, r := CrossMerge(a, b), MergeSplits(a, b);
    SortDescendingPermutes(c);
    CrossMergeSums(a, b, k);
    SortDescendingIsDescending(c);
    forall i | 0 <= i < k ensures r[i].sum == SumVals(r[i].items) {
      var j := PermutationFind(r, c, i);
    }
  }

  lemma GapWithinSpread(s: Split, k: nat, i: nat, j: nat)
    requires WellFormed(s, k) && i < k && j < k
    ensures s[i].sum - s[j].sum <= Spread(s)
    ensures i >= j ==> s[i].sum <= s[j].sum
  {
    assert s[0].sum >= s[i].sum by { if i > 0 { assert !PartLess(s[0], s[i]); } }
    assert s[j].sum >= s[k - 1].sum by { if j < k - 1 { assert !PartLess(s[j], s[k - 1]); } }
    assert i > j ==> s[i].sum <= s[j].sum by { if i > j { assert !PartLess(s[j], s[i]); } }
  }

  /** Any two sets of a merge differ by at most the larger of the operands' spreads. */
  lemma CrossMergeGap(a: Split, b: Split, k: nat, i: nat, j: nat)
    requires WellFormed(a, k) && WellFormed(b, k) && i < k && j < k
    ensures CrossMerge(a, b)[i].sum - CrossMerge(a, b)[j].sum <= Max(Spread(a), Spread(b))
  {
    GapWithinSpread(a, k, i, j);
    GapWithinSpread(b, k, k - 1 - i, k - 1 - j);
    CrossMergeSums(a, b, k);
  }

  /** Merging never makes the imbalance worse than that of the more unbalanced operand. */
  lemma MergeSpread(a: Split, b: Split, k: nat)
    requires k >= 1 && WellFormed(a, k) && WellFormed(b, k)
    ensures Spread(MergeSplits(a, b)) <= Max(Spread(a), Spread(b))
  {
    var c, r := CrossMerge(a, b), MergeSplits(a, b);
    SortDescendingPermutes(c);
    var i := PermutationFind(r, c, 0);
    var j := PermutationFind(r, c, k - 1);
    CrossMergeGap(a, b, k, i, j);
  }

  // ---------- conservation ----------

  /** All items held by a list of sets. */
  function ItemsOf(s: Split): multiset<Item> {
    if s == [] then multiset{} else multiset(s[0].items) + ItemsOf(s[1..])
  }

  lemma {:induction false} ItemsOfAppend(a: Split, b: Split)
    ensures ItemsOf(a + b) == ItemsOf(a) + ItemsOf(b)
  {
    if a == [] {
      assert a + b == b;
    } else {
      assert (a + b)[1..] == a[1..] + b;
      ItemsOfAppend(a[1..], b);
    }
  }

  lemma ItemsOfRemove(b: Split, i: nat)
    requires i < |b|
    ensures ItemsOf(b) == multiset(b[i].items) + ItemsOf(RemoveAt(b, i))
  {
    assert b == b[..i] + b[i..] && b[i..][1..] == b[i + 1..];
    ItemsOfAppend(b[..i], b[i..]);
    ItemsOfAppend(b[..i], b[i + 1..]);
  }

  lemma {:induction false} ItemsOfPermutation(a: Split, b: Split)
    requires IsPermutation(a, b)
    ensures ItemsOf(a) == ItemsOf(b)
  {
    PermutationSize(a, b);
    if a != [] {
      var i := PermutationStep(a, b);
      ItemsOfRemove(b, i);
      ItemsOfPermutation(a[1..], RemoveAt(b, i));
    }
  }

  lemma ItemsOfCons(p: Part, s: Split)
    ensures ItemsOf([p] + s) == multiset(p.items) + ItemsOf(s)
  {
    assert ([p] + s)[1..] == s;
  }

  lemma ItemsOfSnoc(s: Split, p: Part)
    ensures ItemsOf(s + [p]) == ItemsOf(s) + multiset(p.items)
  {
    ItemsOfAppend(s, [p]);
    assert ItemsOf([p]) == multiset(p.items) + ItemsOf([]);
  }

  lemma Regroup(x: multiset<Item>, y: multiset<Item>, u: multiset<Item>, v: multiset<Item>)
    ensures (x + y) + (u + v) == (x + u) + (v + y)
  {
  }

  lemma CrossMergeCons(a: Split, b: Split)
    requires |a| == |b| > 0
    ensures CrossMerge(a, b) == [MergePart(a[0], b[|b| - 1])] + CrossMerge(a[1..], b[..|b| - 1])
  {
  }

  lemma {:induction false} CrossMergeItems(a: Split, b: Split)
    requires |a| == |b|
    ensures ItemsOf(CrossMerge(a, b)) == ItemsOf(a) + ItemsOf(b)
  {
    if a != [] {
      var n := |a| - 1;
      var x, y := multiset(a[0].items), multiset(b[n].items);
      CrossMergeCons(a, b);
      ItemsOfCons(MergePart(a[0], b[n]), CrossMerge(a[1..], b[..n]));
      CrossMergeItems(a[1..], b[..n]);
      assert ItemsOf(b) == ItemsOf(b[..n]) + y by {
        assert b == b[..n] + [b[n]];
        ItemsOfSnoc(b[..n], b[n]);
      }
      Regroup(x, y, ItemsOf(a[1..]), ItemsOf(b[..n]));
    }
  }

  lemma MergeItems(a: Split, b: Split)
    requires |a| == |b|
    ensures ItemsOf(MergeSplits(a, b)) == ItemsOf(a) + ItemsOf(b)
  {
    CrossMergeItems(a, b);
    SortDescendingPermutes(CrossMerge(a, b));
    ItemsOfPermutation(MergeSplits(a, b), CrossMerge(a, b));
  }

  // ---------- how many sets are in use ----------

  predicate Unused(p: Part) {
    |p.items| == 0
  }

  /** Number of non-empty sets of a state. */
  function Filled(s: Split): (n: nat)
    ensures n <= |s|
  {
    if s == [] then 0 else (if Unused(s[0]) then 0 else 1) + Filled(s[1..])
  }

  lemma {:induction false} FilledAppend(a: Split, b: Split)
    ensures Filled(a + b) == Filled(a) + Filled(b)
  {
    if a == [] {
      assert a + b == b;
    } else {
      assert (a + b)[1..] == a[1..] + b;
      FilledAppend(a[1..], b);
    }
  }

  lemma FilledRemove(s: Split, i: nat)
    requires i < |s|
    ensures Filled(s) == Filled(RemoveAt(s, i)) + if Unused(s[i]) then 0 else 1
  {
    assert s == s[..i] + s[i..] && s[i..][1..] == s[i + 1..];
    FilledAppend(s[..i], s[i..]);
    FilledAppend(s[..i], s[i + 1..]);
  }

  lemma {:induction false} FilledPermutation(a: Split, b: Split)
    requires IsPermutation(a, b)
    ensures Filled(a) == Filled(b)
  {
    PermutationSize(a, b);
    if a != [] {
      var i := PermutationStep(a, b);
      FilledRemove(b, i);
      FilledPermutation(a[1..], RemoveAt(b, i));
    }
  }

  lemma UnusedIsLeast(p: Part, q: Part)
    requires p.sum == SumVals(p.items) && q.sum == SumVals(q.items)
    requires Unused(p) && !Unused(q)
    ensures PartLess(p, q)
  {
  }

  lemma {:induction false} CountUnused(s: Split, lo: nat, hi: nat)
    requires lo <= hi <= |s|
    requires forall i :: 0 <= i < |s| ==> (Unused(s[i]) <==> lo <= i < hi)
    ensures Filled(s) == |s| - (hi - lo)
  {
    if s != [] {
      assert forall i :: 0 <= i < |s| - 1 ==> s[1..][i] == s[i + 1];
      CountUnused(s[1..], if lo == 0 then 0 else lo - 1, if hi == 0 then 0 else hi - 1);
    }
  }

  lemma {:induction false} AllUnused(s: Split, k: nat)
    requires WellFormed(s, k) && k > 0 && Unused(s[0])
    ensures Filled(s) == 0 && forall i :: 0 <= i < k ==> Unused(s[i])
  {
    forall i | 0 <= i < k ensures Unused(s[i]) {
      if !Unused(s[i]) {
        UnusedIsLeast(s[0], s[i]);
      }
    }
    CountUnused(s, 0, k);
  }

  /** In a well-formed state the empty sets are exactly the last ones. */
  lemma {:induction false} UnusedLast(s: Split, k: nat, i: nat)
    requires WellFormed(s, k) && i < k
    ensures Unused(s[i]) <==> i >= Filled(s)
  {
    var t := s[1..];
    assert WellFormed(t, k - 1) by {
      forall m, n | 0 <= m < n < k - 1 ensures !PartLess(t[m], t[n]) {
        assert !PartLess(s[m + 1], s[n + 1]);
      }
    }
    if Unused(s[0]) {
      AllUnused(s, k);
    } else if i > 0 {
      UnusedLast(t, k - 1, i - 1);
    }
  }

  lemma CrossMergeUnused(a: Split, b: Split, k: nat, i: nat)
    requires WellFormed(a, k) && WellFormed(b, k) && i < k
    ensures Unused(CrossMerge(a, b)[i]) <==> Filled(a) <= i < k - Filled(b)
  {
    UnusedLast(a, k, i);
    UnusedLast(b, k, k - 1 - i);
  }

  lemma CrossMergeFilled(a: Split, b: Split, k: nat)
    requires WellFormed(a, k) && WellFormed(b, k)
    ensures Filled(CrossMerge(a, b)) == Min(k, Filled(a) + Filled(b))
  {
    var c, p, q := CrossMerge(a, b), Filled(a), Filled(b);
    forall i | 0 <= i < k ensures Unused(c[i]) <==> p <= i < k - q {
      CrossMergeUnused(a, b, k, i);
    }
    if p + q <= k {
      CountUnused(c, p, k - q);
    } else {
      CountUnused(c, 0, 0);
    }
  }

  /** p non-empty sets crossed with q non-empty sets leave exactly min(k, p+q) non-empty ones. */
  lemma MergeFilled(a: Split, b: Split, k: nat)
    requires WellFormed(a, k) && WellFormed(b, k)
    ensures Filled(MergeSplits(a, b)) == Min(k, Filled(a) + Filled(b))
  {
    CrossMergeFilled(a, b, k);
    SortDescendingPermutes(CrossMerge(a, b));
    FilledPermutation(MergeSplits(a, b), CrossMerge(a, b));
  }

  // ---------- equal sizes ----------

  /** Every set of the state holds exactly m items. */
  predicate EvenlyFilled(s: Split, m: int) {
    forall i :: 0 <= i < |s| ==> |s[i].items| == m
  }

  lemma MergeEvenlyFilled(a: Split, b: Split, m: int, n: int)
    requires |a| == |b| && EvenlyFilled(a, m) && EvenlyFilled(b, n)
    ensures EvenlyFilled(MergeSplits(a, b), m + n)
  {
    var c, r := CrossMerge(a, b), MergeSplits(a, b);
    SortDescendingPermutes(c);
    assert EvenlyFilled(c, m + n);
    forall i | 0 <= i < |r| ensures |r[i].items| == m + n {
      var j := PermutationFind(r, c, i);
    }
  }
}
