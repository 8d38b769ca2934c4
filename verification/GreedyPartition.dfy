/** `greedy_partition` of verl/utils/seqlen_balancing.py. */
module GreedyPartition {
  import opened Arithmetic
  import opened Sequences
  import opened KarmarkarKarpResult
  import opened KarmarkarKarpObjects

  /** The two parallel lists the loop updates. */
  datatype Bins = Bins(parts: seq<seq<nat>>, sums: seq<int>)

  /** The bin the inner loop picks: the first one no bin is below. */
  function FirstMin(sums: seq<int>): (m: nat)
    requires sums != []
    ensures m < |sums|
    ensures forall j :: 0 <= j < |sums| ==> sums[m] <= sums[j]
    ensures forall j :: 0 <= j < m ==> sums[m] < sums[j]
  {
    if |sums| == 1 then 0
    else
      var n := |sums| - 1;
      var m := FirstMin(sums[..n]);
      if sums[n] < sums[m] then n else m
  }

  function EmptyBins(k: nat): (r: seq<seq<nat>>)
    ensures |r| == k
  {
    seq(k, _ => [])
  }

  function Place(b: Bins, idx: nat, weight: int): Bins
    requires |b.parts| == |b.sums| > 0
  {
    var m := FirstMin(b.sums);
    Bins(b.parts[m := b.parts[m] + [idx]], b.sums[m := b.sums[m] + weight])
  }

  /** The bins after the first n items, each weighing its length plus the bias. */
  function Placed(lens: seq<nat>, k: nat, bias: int, n: nat): (b: Bins)
    requires k >= 1 && n <= |lens|
    ensures |b.parts| == |b.sums| == k
  {
    if n == 0 then Bins(EmptyBins(k), seq(k, _ => 0))
    else Place(Placed(lens, k, bias, n - 1), n - 1, lens[n - 1] + bias)
  }

  /** The inner loop: a linear scan that moves only to a strictly lighter bin. */
  method Lightest(sums: seq<int>) returns (minIdx: nat)
    requires sums != []
    ensures minIdx == FirstMin(sums)
  {
    minIdx := 0;
    for j := 1 to |sums|
      invariant minIdx < j && minIdx == FirstMin(sums[..j])
    {
      assert sums[..j + 1][..j] == sums[..j];
      if sums[j] < sums[minIdx] {
        minIdx := j;
      }
    }
    assert sums[..|sums|] == sums;
  }

  method GreedyBins(lens: seq<nat>, k: nat, bias: int) returns (partitions: seq<seq<nat>>)
    requires k >= 1
    ensures partitions == Placed(lens, k, bias, |lens|).parts
  {
    partitions := EmptyBins(k);
    var sums := seq(k, _ => 0);
    for i := 0 to |lens|
      invariant Bins(partitions, sums) == Placed(lens, k, bias, i)
    {
      var minIdx := Lightest(sums);
      partitions := partitions[minIdx := partitions[minIdx] + [i]];
      sums := sums[minIdx := sums[minIdx] + lens[i] + bias];
    }
  }

  // ---------- what the bins hold ----------

  lemma {:induction false} ReplaceInFlatten(ps: seq<seq<nat>>, m: nat, x: nat)
    requires m < |ps|
    ensures multiset(Flatten(ps[m := ps[m] + [x]])) == multiset(Flatten(ps)) + multiset{x}
  {
    var qs := ps[m := ps[m] + [x]];
    if m > 0 {
      assert qs[1..] == ps[1..][m - 1 := ps[1..][m - 1] + [x]];
      ReplaceInFlatten(ps[1..], m - 1, x);
    } else {
      assert qs[1..] == ps[1..];
    }
  }

  lemma {:induction false} EmptyBinsFlatten(k: nat)
    ensures Flatten(EmptyBins(k)) == []
  {
    if k > 0 {
      assert EmptyBins(k)[1..] == EmptyBins(k - 1);
      EmptyBinsFlatten(k - 1);
    }
  }

  /** The bins hold each of the first n indices exactly once. */
  predicate HoldsFirst(b: Bins, n: nat) {
    IsPermutation(Flatten(b.parts), Range(n))
  }

  lemma PlacedNone(lens: seq<nat>, k: nat, bias: int)
    requires k >= 1
    ensures HoldsFirst(Placed(lens, k, bias, 0), 0)
  {
    EmptyBinsFlatten(k);
  }

  lemma PlaceHolds(b: Bins, n: nat, weight: int)
    requires |b.parts| == |b.sums| > 0 && HoldsFirst(b, n)
    ensures HoldsFirst(Place(b, n, weight), n + 1)
  {
    ReplaceInFlatten(b.parts, FirstMin(b.sums), n);
    RangeSnoc(n);
  }

  lemma PlacedNext(lens: seq<nat>, k: nat, bias: int, n: nat)
    requires k >= 1 && n < |lens| && HoldsFirst(Placed(lens, k, bias, n), n)
    ensures HoldsFirst(Placed(lens, k, bias, n + 1), n + 1)
  {
    PlaceHolds(Placed(lens, k, bias, n), n, lens[n] + bias);
  }

  /** Every index is placed in exactly one bin. */
  lemma {:induction false} GreedyExactCover(lens: seq<nat>, k: nat, bias: int, n: nat)
    requires k >= 1 && n <= |lens|
    ensures HoldsFirst(Placed(lens, k, bias, n), n)
  {
    PlacedNone(lens, k, bias);
    for m := 0 to n
      invariant HoldsFirst(Placed(lens, k, bias, m), m)
    {
      PlacedNext(lens, k, bias, m);
    }
  }

  /** Every bin lists its indices in ascending order, all below n. */
  predicate Ascend(ps: seq<seq<nat>>, n: nat) {
    && (forall m, i :: 0 <= m < |ps| && 0 <= i < |ps[m]| ==> ps[m][i] < n)
    && (forall m, i, j :: 0 <= m < |ps| && 0 <= i < j < |ps[m]| ==> ps[m][i] < ps[m][j])
  }

  lemma AscendNext(ps: seq<seq<nat>>, m: nat, n: nat)
    requires m < |ps| && Ascend(ps, n)
    ensures Ascend(ps[m := ps[m] + [n]], n + 1)
  {
  }

  /** Items join a bin behind those that came before them. */
  lemma {:induction false} GreedyAscends(lens: seq<nat>, k: nat, bias: int, n: nat)
    requires k >= 1 && n <= |lens|
    ensures Ascend(Placed(lens, k, bias, n).parts, n)
  {
    if n > 0 {
      var before := Placed(lens, k, bias, n - 1);
      GreedyAscends(lens, k, bias, n - 1);
      AscendNext(before.parts, FirstMin(before.sums), n - 1);
    }
  }

  /** A bin's recorded sum is its lengths plus one bias per item, and no bin outweighs all lengths. */
  predicate SumsRight(lens: seq<nat>, bias: int, b: Bins, n: nat)
    requires n <= |lens|
  {
    && |b.parts| == |b.sums|
    && forall j :: 0 <= j < |b.parts| ==>
      && InRange(b.parts[j], |lens|)
      && b.sums[j] == Load(lens, b.parts[j]) + |b.parts[j]| * bias
      && Load(lens, b.parts[j]) <= Sum(lens[..n])
  }

  lemma {:induction false} LoadSnoc(lens: seq<nat>, p: seq<nat>, x: nat)
    requires InRange(p, |lens|) && x < |lens|
    ensures InRange(p + [x], |lens|) && Load(lens, p + [x]) == Load(lens, p) + lens[x]
  {
    LoadAppend(lens, p, [x]);
    assert Load(lens, [x]) == lens[x] + Load(lens, []);
  }

  lemma PlaceSumsRight(lens: seq<nat>, bias: int, b: Bins, n: nat)
    requires n < |lens| && |b.sums| > 0 && SumsRight(lens, bias, b, n)
    ensures SumsRight(lens, bias, Place(b, n, lens[n] + bias), n + 1)
  {
    var m := FirstMin(b.sums);
    LoadSnoc(lens, b.parts[m], n);
    assert lens[..n + 1] == lens[..n] + [lens[n]];
    SumSnoc(lens[..n], lens[n]);
    assert (|b.parts[m]| + 1) * bias == |b.parts[m]| * bias + bias;
  }

  lemma {:induction false} GreedySumsRight(lens: seq<nat>, k: nat, bias: int, n: nat)
    requires k >= 1 && n <= |lens|
    ensures SumsRight(lens, bias, Placed(lens, k, bias, n), n)
  {
    if n > 0 {
      GreedySumsRight(lens, k, bias, n - 1);
      PlaceSumsRight(lens, bias, Placed(lens, k, bias, n - 1), n - 1);
    }
  }

  // ---------- bias 0: balanced sums ----------

  /** At every moment the sums of any two bins differ by at most the largest length. */
  lemma {:induction false} GreedySpread(lens: seq<nat>, k: nat, n: nat, bound: nat, i: nat, j: nat)
    requires k >= 1 && n <= |lens| && i < k && j < k
    requires forall x :: 0 <= x < |lens| ==> lens[x] <= bound
    ensures var b := Placed(lens, k, 0, n); b.sums[i] - b.sums[j] <= bound
  {
    if n > 0 {
      GreedySpread(lens, k, n - 1, bound, i, j);
    }
  }

  /** In terms of the partitions returned: their loads differ by at most the largest length. */
  lemma GreedyLoads(lens: seq<nat>, k: nat, bound: nat, i: nat, j: nat)
    requires k >= 1 && i < k && j < k
    requires forall x :: 0 <= x < |lens| ==> lens[x] <= bound
    ensures var ps := Placed(lens, k, 0, |lens|).parts;
      InRange(ps[i], |lens|) && InRange(ps[j], |lens|) &&
      Load(lens, ps[i]) - Load(lens, ps[j]) <= bound
  {
    GreedySumsRight(lens, k, 0, |lens|);
    GreedySpread(lens, k, |lens|, bound, i, j);
  }

  // ---------- equal mode: balanced counts ----------

  lemma SumPrefix(lens: seq<nat>, n: nat)
    requires n <= |lens|
    ensures Sum(lens[..n]) <= Sum(lens)
    decreases |lens| - n
  {
    if n < |lens| {
      assert lens[..n + 1] == lens[..n] + [lens[n]];
      SumSnoc(lens[..n], lens[n]);
      SumPrefix(lens, n + 1);
    } else {
      assert lens[..n] == lens;
    }
  }

  /** The bias outweighs every load, so the lightest bin is one with the fewest items. */
  lemma LightestHasFewest(lens: seq<nat>, k: nat, n: nat, j: nat)
    requires k >= 1 && n <= |lens| && j < k
    ensures var b := Placed(lens, k, Sum(lens) + 1, n);
      |b.parts[FirstMin(b.sums)]| <= |b.parts[j]|
  {
    var bias := Sum(lens) + 1;
    var b := Placed(lens, k, bias, n);
    var m := FirstMin(b.sums);
    GreedySumsRight(lens, k, bias, n);
    SumPrefix(lens, n);
    if |b.parts[m]| > |b.parts[j]| {
      assert bias * (|b.parts[j]| + 1) == |b.parts[j]| * bias + bias;
      MulMonotonic(bias, |b.parts[j]| + 1, |b.parts[m]|);
    }
  }

  predicate OneApart(ps: seq<seq<nat>>, i: nat, j: nat)
    requires i < |ps| && j < |ps|
  {
    |ps[i]| - |ps[j]| <= 1
  }

  lemma PlaceCounts(b: Bins, idx: nat, weight: int, i: nat, j: nat)
    requires |b.parts| == |b.sums| > 0 && i < |b.parts| && j < |b.parts|
    requires OneApart(b.parts, i, j) && |b.parts[FirstMin(b.sums)]| <= |b.parts[j]|
    ensures OneApart(Place(b, idx, weight).parts, i, j)
  {
  }

  lemma CountsNext(lens: seq<nat>, k: nat, n: nat, i: nat, j: nat)
    requires k >= 1 && n < |lens| && i < k && j < k && OneApart(Placed(lens, k, Sum(lens) + 1, n).parts, i, j)
    ensures OneApart(Placed(lens, k, Sum(lens) + 1, n + 1).parts, i, j)
  {
    var bias := Sum(lens) + 1;
    LightestHasFewest(lens, k, n, j);
    PlaceCounts(Placed(lens, k, bias, n), n, lens[n] + bias, i, j);
  }

  /** At every moment the item counts of any two bins differ by at most one. */
  lemma GreedyCounts(lens: seq<nat>, k: nat, n: nat, i: nat, j: nat)
    requires k >= 1 && n <= |lens| && i < k && j < k
    ensures var b := Placed(lens, k, Sum(lens) + 1, n);
      |b.parts[i]| - |b.parts[j]| <= 1
  {
    for m := 0 to n
      invariant OneApart(Placed(lens, k, Sum(lens) + 1, m).parts, i, j)
    {
      CountsNext(lens, k, m, i, j);
    }
  }

  function Sizes(ps: seq<seq<nat>>): (r: seq<int>)
    ensures |r| == |ps|
  {
    seq(|ps|, i requires 0 <= i < |ps| => |ps[i]|)
  }

  lemma {:induction false} FlattenSize(ps: seq<seq<nat>>)
    ensures |Flatten(ps)| == Sum(Sizes(ps))
  {
    if ps != [] {
      FlattenSize(ps[1..]);
      assert Sizes(ps)[1..] == Sizes(ps[1..]);
    }
  }

  lemma {:induction false} SumBounds(s: seq<int>, lo: int, hi: int)
    requires forall i :: 0 <= i < |s| ==> lo <= s[i] <= hi
    ensures |s| * lo <= Sum(s) <= |s| * hi
  {
    if s != [] {
      SumBounds(s[1..], lo, hi);
      assert |s| * lo == (|s| - 1) * lo + lo && |s| * hi == (|s| - 1) * hi + hi;
    }
  }

  lemma SumSplit(s: seq<int>, i: nat)
    requires i < |s|
    ensures Sum(s) == s[i] + Sum(RemoveAt(s, i))
  {
    assert s == s[..i] + s[i..];
    SumAppend(s[..i], s[i..]);
    SumAppend(s[..i], s[i + 1..]);
    assert s[i..][1..] == s[i + 1..];
  }

  /** Whole numbers pairwise within one of each other whose sum is k*q are all q. */
  lemma CloseAndExact(s: seq<int>, q: int, i: nat)
    requires i < |s| && Sum(s) == |s| * q
    requires forall x, y :: 0 <= x < |s| && 0 <= y < |s| ==> s[x] - s[y] <= 1
    ensures s[i] == q
  {
    var rest := RemoveAt(s, i);
    SumSplit(s, i);
    forall x | 0 <= x < |rest| ensures s[i] - 1 <= rest[x] <= s[i] + 1 {
      assert rest[x] == s[if x < i then x else x + 1];
    }
    assert |s| * q == (|s| - 1) * q + q;
    if s[i] > q {
      SumBounds(rest, s[i] - 1, s[i] + 1);
      MulMonotonic(|s| - 1, q, s[i] - 1);
    } else if s[i] < q {
      SumBounds(rest, s[i] - 1, s[i] + 1);
      MulMonotonic(|s| - 1, s[i] + 1, q);
    }
  }

  lemma SharesAddUp(n: nat, k: nat)
    requires k >= 1 && n % k == 0
    ensures k * (n / k) == n
  {
    ExactDivision(n, k);
  }

  lemma PlacedTotal(lens: seq<nat>, k: nat, bias: int)
    requires k >= 1
    ensures var sizes := Sizes(Placed(lens, k, bias, |lens|).parts); |sizes| == k && Sum(sizes) == |lens|
  {
    var ps := Placed(lens, k, bias, |lens|).parts;
    GreedyExactCover(lens, k, bias, |lens|);
    PermutationSize(Flatten(ps), Range(|lens|));
    FlattenSize(ps);
  }

  lemma PlacedSizes(lens: seq<nat>, k: nat)
    requires k >= 1 && |lens| % k == 0
    ensures var sizes := Sizes(Placed(lens, k, Sum(lens) + 1, |lens|).parts);
      |sizes| == k && Sum(sizes) == |sizes| * (|lens| / k)
  {
    PlacedTotal(lens, k, Sum(lens) + 1);
    SharesAddUp(|lens|, k);
  }

  /** In equal mode every bin ends with n/k items when k divides n. */
  lemma GreedyEqualSizes(lens: seq<nat>, k: nat, i: nat)
    requires k >= 1 && |lens| % k == 0 && i < k
    ensures |Placed(lens, k, Sum(lens) + 1, |lens|).parts[i]| == |lens| / k
  {
    var ps := Placed(lens, k, Sum(lens) + 1, |lens|).parts;
    PlacedSizes(lens, k);
    forall x, y | 0 <= x < k && 0 <= y < k ensures Sizes(ps)[x] - Sizes(ps)[y] <= 1 {
      GreedyCounts(lens, k, |lens|, x, y);
    }
    CloseAndExact(Sizes(ps), |lens| / k, i);
  }

  lemma ExactShareDivides(part: seq<nat>, k: nat, n: nat)
    requires k >= 1 && ExactShare(part, k, n)
    ensures n % k == 0
  {
    DivModUnique(n, k, |part|, 0);
  }

  /** The closing assert of `greedy_partition` fires exactly when k does not divide the number of items. */
  lemma GreedySizesPass(lens: seq<nat>, k: nat)
    requires k >= 1
    ensures ExactShares(Placed(lens, k, Sum(lens) + 1, |lens|).parts, k, |lens|) <==> |lens| % k == 0
  {
    var ps := Placed(lens, k, Sum(lens) + 1, |lens|).parts;
    if |lens| % k == 0 {
      forall i | 0 <= i < |ps| ensures ExactShare(ps[i], k, |lens|) {
        GreedyEqualSizes(lens, k, i);
        ExactDivision(|lens|, k);
      }
    } else if ExactShares(ps, k, |lens|) {
      ExactShareDivides(ps[0], k, |lens|);
    }
  }

  /** It fires: one length cannot be shared equally between two bins. */
  lemma OneLengthTwoBins()
    ensures !ExactShares(Placed([1], 2, Sum([1]) + 1, |[1]|).parts, 2, |[1]|)
  {
    GreedySizesPass([1], 2);
  }

  // ---------- the whole function ----------

  /** Index error of Python's `partitions[None]` included: it is what a call without bins runs into. */
  datatype Outcome = Partitions(value: seq<seq<nat>>) | NoBins | UnevenParts

  /** `greedy_partition`: fails exactly without bins to fill, or in equal mode when k does not divide n. */
  method Greedy(lens: seq<nat>, k: int, equalSize: bool) returns (r: Outcome)
    ensures r.NoBins? <==> k < 1 && lens != []
    ensures r.UnevenParts? <==> k >= 1 && equalSize && |lens| % k != 0
    ensures r.Partitions? && k >= 1 ==>
      r.value == Placed(lens, k, if equalSize then Sum(lens) + 1 else 0, |lens|).parts
    ensures r.Partitions? && k < 1 ==> r.value == []
  {
    if k < 1 {
      return if lens == [] then Partitions([]) else NoBins;
    }
    var bias := if equalSize then Sum(lens) + 1 else 0;
    var partitions := GreedyBins(lens, k, bias);
    if equalSize {
      var passed := SizesPass(partitions, k, |lens|);
      GreedySizesPass(lens, k);
      if !passed {
        return UnevenParts;
      }
    }
    return Partitions(partitions);
  }
}
