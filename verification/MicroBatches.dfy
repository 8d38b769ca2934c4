/**
 `rearrange_micro_batches` and its undoing, `restore_dynamic_batch`, of verl/utils/seqlen_balancing.py.
 A batch is a sequence of rows; only the effective length of each row matters to the rearrangement.
 */
module MicroBatches {
  import opened Arithmetic
  import opened Sequences
  import opened Sorting
  import opened KarmarkarKarpResult
  import opened KarmarkarKarpObjects
  import opened Wrappers

  // ---------- how many micro-batches ----------

  /** Python's `//`. */
  function FloorDiv(a: int, b: int): int
    requires b != 0
  {
    if b > 0 then a / b else (-a) / (-b)
  }

  function CeilDiv(a: int, b: int): int
    requires b != 0
  {
    -FloorDiv(a, -b)
  }

  lemma CeilDivIsCeiling(a: int, b: int)
    requires b > 0
    ensures (CeilDiv(a, b) - 1) * b < a <= CeilDiv(a, b) * b
  {
    assert -a == b * ((-a) / b) + (-a) % b;
    assert CeilDiv(a, b) * b == -(b * ((-a) / b));
    assert (CeilDiv(a, b) - 1) * b == CeilDiv(a, b) * b - b;
  }

  function RoundUpDivisible(a: int, b: int): int
    requires b != 0
  {
    FloorDiv(a + b - 1, b) * b
  }

  /** The least multiple of b that is not below a. */
  lemma RoundUpIsLeastMultiple(a: int, b: int)
    requires b > 0
    ensures RoundUpDivisible(a, b) % b == 0 && a <= RoundUpDivisible(a, b) < a + b
  {
    var q := (a + b - 1) / b;
    assert a + b - 1 == b * q + (a + b - 1) % b;
    DivModUnique(q * b, b, q, 0);
  }

  /** `dist.all_reduce(..., op=MAX)` over the counts of the data-parallel group. */
  function AllReduceMax(counts: seq<int>): (m: int)
    requires counts != []
    ensures m in counts && forall i :: 0 <= i < |counts| ==> counts[i] <= m
  {
    if |counts| == 1 then counts[0]
    else Max(counts[0], AllReduceMax(counts[1..]))
  }

  /** One rank's own count, before it is synchronised. */
  function LocalCount(lens: seq<nat>, maxTokenLen: int, minNum: Option<int>): int
    requires maxTokenLen != 0
  {
    var local := Min(|lens|, CeilDiv(Sum(lens), maxTokenLen));
    match minNum
    case None => local
    case Some(least) => Max(least, local)
  }

  /** The count used for partitioning; `peers` are the other ranks' counts when they are synchronised. */
  function MicroBatchCount(lens: seq<nat>, maxTokenLen: int, minNum: Option<int>, peers: seq<int>,
                           dividedBy: Option<int>): int
    requires maxTokenLen != 0 && dividedBy != Some(0)
  {
    var synced := AllReduceMax([LocalCount(lens, maxTokenLen, minNum)] + peers);
    match dividedBy
    case None => synced
    case Some(d) => RoundUpDivisible(synced, d)
  }

  lemma MaxOfPermutation(x: seq<int>, y: seq<int>)
    requires x != [] && y != [] && IsPermutation(x, y)
    ensures AllReduceMax(x) == AllReduceMax(y)
  {
    var i :| 0 <= i < |x| && x[i] == AllReduceMax(x);
    var j :| 0 <= j < |y| && y[j] == AllReduceMax(y);
    i := PermutationFind(x, y, i);
    j := PermutationFind(y, x, j);
  }

  /** Ranks that synchronise cut their batches into equally many micro-batches. */
  lemma RanksAgree(a: seq<nat>, b: seq<nat>, maxTokenLen: int, minNum: Option<int>,
                   othersOfA: seq<int>, othersOfB: seq<int>, dividedBy: Option<int>)
    requires maxTokenLen != 0 && dividedBy != Some(0)
    requires multiset([LocalCount(a, maxTokenLen, minNum)] + othersOfA)
          == multiset([LocalCount(b, maxTokenLen, minNum)] + othersOfB)
    ensures MicroBatchCount(a, maxTokenLen, minNum, othersOfA, dividedBy)
         == MicroBatchCount(b, maxTokenLen, minNum, othersOfB, dividedBy)
  {
    MaxOfPermutation([LocalCount(a, maxTokenLen, minNum)] + othersOfA,
                     [LocalCount(b, maxTokenLen, minNum)] + othersOfB);
  }

  // ---------- what the count means ----------

  /** c micro-batches have room for the tokens of all rows, or there is one for each row. */
  predicate Enough(lens: seq<nat>, maxTokenLen: int, c: int) {
    c * maxTokenLen >= Sum(lens) || c >= |lens|
  }

  /** c is enough, and neither below the least number asked for nor below any peer's count. */
  predicate Allowed(lens: seq<nat>, maxTokenLen: int, minNum: Option<int>, peers: seq<int>, c: int) {
    && c >= 0 && Enough(lens, maxTokenLen, c)
    && (minNum.Some? ==> c >= minNum.value)
    && (forall i :: 0 <= i < |peers| ==> c >= peers[i])
  }

  predicate Divisible(dividedBy: Option<int>, c: int)
    requires dividedBy != Some(0)
  {
    dividedBy.Some? ==> c % dividedBy.value == 0
  }

  /** n is the least number that is allowed and divisible as asked for. */
  ghost predicate IsLeastCount(lens: seq<nat>, maxTokenLen: int, minNum: Option<int>, peers: seq<int>,
                               dividedBy: Option<int>, n: int)
    requires dividedBy != Some(0)
  {
    && Allowed(lens, maxTokenLen, minNum, peers, n) && Divisible(dividedBy, n)
    && (forall c :: Allowed(lens, maxTokenLen, minNum, peers, c) && Divisible(dividedBy, c) ==> n <= c)
  }

  lemma {:induction false} SumNonNegative(lens: seq<nat>)
    ensures Sum(lens) >= 0
  {
    if lens != [] { SumNonNegative(lens[1..]); }
  }

  /** The quotient rounded up is at most c exactly if c times b is no less. */
  lemma CeilDivAtMost(a: int, b: int, c: int)
    requires b > 0
    ensures CeilDiv(a, b) <= c <==> a <= c * b
  {
    CeilDivIsCeiling(a, b);
    if CeilDiv(a, b) <= c { MulMonotonic(b, CeilDiv(a, b), c); } else { MulMonotonic(b, c, CeilDiv(a, b) - 1); }
  }

  /** Allowed are exactly the numbers that the synchronised count does not exceed. */
  lemma AllowedIff(lens: seq<nat>, maxTokenLen: int, minNum: Option<int>, peers: seq<int>, c: int)
    requires maxTokenLen > 0
    ensures Allowed(lens, maxTokenLen, minNum, peers, c)
      <==> c >= 0 && c >= AllReduceMax([LocalCount(lens, maxTokenLen, minNum)] + peers)
  {
    var counts := [LocalCount(lens, maxTokenLen, minNum)] + peers;
    CeilDivAtMost(Sum(lens), maxTokenLen, c);
    assert Enough(lens, maxTokenLen, c) <==> Min(|lens|, CeilDiv(Sum(lens), maxTokenLen)) <= c;
    assert c >= AllReduceMax(counts) <==> forall i :: 0 <= i < |counts| ==> c >= counts[i];
    assert counts[0] == LocalCount(lens, maxTokenLen, minNum);
    assert forall i :: 0 <= i < |peers| ==> counts[i + 1] == peers[i];
  }

  lemma LocalCountNonNegative(lens: seq<nat>, maxTokenLen: int, minNum: Option<int>)
    requires maxTokenLen > 0
    ensures LocalCount(lens, maxTokenLen, minNum) >= 0
  {
    SumNonNegative(lens);
    CeilDivAtMost(Sum(lens), maxTokenLen, -1);
  }

  lemma NextMultiple(d: int, p: int, q: int)
    requires d > 0 && d * q < d * p + d
    ensures d * q <= d * p
  {
    if q <= p {
      MulMonotonic(d, q, p);
    } else {
      MulMonotonic(d, p + 1, q);
    }
  }

  lemma RoundedIsLeast(a: int, d: int, c: int)
    requires d > 0 && a <= c && c % d == 0
    ensures RoundUpDivisible(a, d) <= c
  {
    RoundUpIsLeastMultiple(a, d);
    ExactDivision(c, d);
    ExactDivision(RoundUpDivisible(a, d), d);
    NextMultiple(d, c / d, RoundUpDivisible(a, d) / d);
  }

  /** The count is the least number that is allowed and divisible: no other number is. */
  lemma CountIsLeast(lens: seq<nat>, maxTokenLen: int, minNum: Option<int>, peers: seq<int>,
                     dividedBy: Option<int>, n: int)
    requires maxTokenLen > 0 && (dividedBy.Some? ==> dividedBy.value > 0)
    ensures IsLeastCount(lens, maxTokenLen, minNum, peers, dividedBy, n)
      <==> n == MicroBatchCount(lens, maxTokenLen, minNum, peers, dividedBy)
  {
    var count := MicroBatchCount(lens, maxTokenLen, minNum, peers, dividedBy);
    var synced := AllReduceMax([LocalCount(lens, maxTokenLen, minNum)] + peers);
    LocalCountNonNegative(lens, maxTokenLen, minNum);
    assert ([LocalCount(lens, maxTokenLen, minNum)] + peers)[0] >= 0;
    if dividedBy.Some? { RoundUpIsLeastMultiple(synced, dividedBy.value); }
    AllowedIff(lens, maxTokenLen, minNum, peers, count);
    forall c | Allowed(lens, maxTokenLen, minNum, peers, c) && Divisible(dividedBy, c) ensures count <= c {
      AllowedIff(lens, maxTokenLen, minNum, peers, c);
      if dividedBy.Some? { RoundedIsLeast(synced, dividedBy.value, c); }
    }
  }

  lemma LeastCountWithin(lens: seq<nat>, maxTokenLen: int, minNum: Option<int>, peers: seq<int>,
                         dividedBy: Option<int>)
    requires maxTokenLen > 0 && (dividedBy.Some? ==> dividedBy.value > 0)
    ensures IsLeastCount(lens, maxTokenLen, minNum, peers, dividedBy,
                         MicroBatchCount(lens, maxTokenLen, minNum, peers, dividedBy))
    ensures (exists n :: 1 <= n <= |lens| && IsLeastCount(lens, maxTokenLen, minNum, peers, dividedBy, n))
      <==> 1 <= MicroBatchCount(lens, maxTokenLen, minNum, peers, dividedBy) <= |lens|
  {
    CountIsLeast(lens, maxTokenLen, minNum, peers, dividedBy,
                 MicroBatchCount(lens, maxTokenLen, minNum, peers, dividedBy));
    forall n | IsLeastCount(lens, maxTokenLen, minNum, peers, dividedBy, n)
      ensures n == MicroBatchCount(lens, maxTokenLen, minNum, peers, dividedBy)
    {
      CountIsLeast(lens, maxTokenLen, minNum, peers, dividedBy, n);
    }
  }

  lemma MultipleOfNegative(d: int, q: int)
    requires d < 0
    ensures (d * q) % d == 0
  {
    var x, e := d * q, -d;
    var t := x / d - q;
    assert x == d * (x / d) + x % d;
    assert e * t == x % d;
    if t >= 1 { MulMonotonic(e, 1, t); } else if t <= -1 { MulMonotonic(e, t, -1); }
  }

  lemma RoundedBelow(a: int, d: int)
    requires d < 0
    ensures RoundUpDivisible(a, d) % d == 0 && RoundUpDivisible(a, d) < a - 1 <= RoundUpDivisible(a, d) - d
  {
    var up, e := -(a + d - 1), -d;
    var q := up / e;
    assert up == e * q + up % e;
    assert RoundUpDivisible(a, d) == q * d;
    assert q * d == d * q && d * q == -(e * q);
    MultipleOfNegative(d, q);
  }

  /** A negative divisor rounds down instead: to the greatest multiple that is below the count less one. */
  lemma NegativeDivisor(lens: seq<nat>, maxTokenLen: int, minNum: Option<int>, peers: seq<int>, d: int)
    requires maxTokenLen > 0 && d < 0
    ensures var synced := MicroBatchCount(lens, maxTokenLen, minNum, peers, None);
      var n := MicroBatchCount(lens, maxTokenLen, minNum, peers, Some(d));
      n % d == 0 && n < synced - 1 <= n - d
  {
    RoundedBelow(MicroBatchCount(lens, maxTokenLen, minNum, peers, None), d);
  }

  // ---------- sorting the partitions by workload ----------

  /** The squared lengths of the rows a partition names; its indices are always within the list. */
  function Squares(lens: seq<nat>, part: seq<nat>): (r: seq<int>)
    ensures |r| == |part|
    ensures forall i :: 0 <= i < |part| && part[i] < |lens| ==> r[i] == lens[part[i]] * lens[part[i]]
  {
    seq(|part|, i requires 0 <= i < |part| => if part[i] < |lens| then lens[part[i]] * lens[part[i]] else 0)
  }

  function Workload(lens: seq<nat>, part: seq<nat>): int {
    Sum(Squares(lens, part))
  }

  /** The least index of a partition, and 0 for an empty one. */
  function Smallest(part: seq<nat>): (least: nat)
    ensures if part == [] then least == 0 else least in part && forall i :: 0 <= i < |part| ==> least <= part[i]
  {
    if part == [] then 0
    else if |part| == 1 then part[0]
    else if part[0] < Smallest(part[1..]) then part[0] else Smallest(part[1..])
  }

  /** The sort key of `a` is below that of `b`. */
  predicate KeyLess(lens: seq<nat>, a: seq<nat>, b: seq<nat>) {
    Workload(lens, a) < Workload(lens, b) ||
    (Workload(lens, a) == Workload(lens, b) && Smallest(a) < Smallest(b))
  }

  predicate AllInRange(ps: seq<seq<nat>>, n: nat) {
    forall i :: 0 <= i < |ps| ==> InRange(ps[i], n)
  }

  function ReverseOrder(lens: seq<nat>): (seq<nat>, seq<nat>) -> bool {
    (a: seq<nat>, b: seq<nat>) => !KeyLess(lens, a, b)
  }

  /** `sort(key=..., reverse=True)`: heaviest first, and stable among equal keys. */
  function SortHeavy(lens: seq<nat>, ps: seq<seq<nat>>): seq<seq<nat>> {
    Sort(ps, ReverseOrder(lens))
  }

  lemma SortHeavyPermutes(lens: seq<nat>, ps: seq<seq<nat>>)
    ensures IsPermutation(SortHeavy(lens, ps), ps)
  {
    SortPermutes(ps, ReverseOrder(lens));
  }

  /** The squared lengths of `a` add up to more than those of `b`, or to as much and its least index is no lower. */
  predicate NoLighter(lens: seq<nat>, a: seq<nat>, b: seq<nat>) {
    || Sum(Squares(lens, a)) > Sum(Squares(lens, b))
    || (Sum(Squares(lens, a)) == Sum(Squares(lens, b)) && Smallest(a) >= Smallest(b))
  }

  predicate HeaviestFirst(lens: seq<nat>, ps: seq<seq<nat>>) {
    forall i, j :: 0 <= i < j < |ps| ==> NoLighter(lens, ps[i], ps[j])
  }

  lemma SortHeavySorted(lens: seq<nat>, ps: seq<seq<nat>>)
    ensures HeaviestFirst(lens, SortHeavy(lens, ps))
  {
    SortInOrder(ps, ReverseOrder(lens));
    var r := SortHeavy(lens, ps);
    forall i, j | 0 <= i < j < |r| ensures NoLighter(lens, r[i], r[j]) {
      assert ReverseOrder(lens)(r[i], r[j]);
    }
  }

  lemma RearrangedInRange(a: seq<seq<nat>>, b: seq<seq<nat>>, n: nat)
    requires AllInRange(b, n) && IsPermutation(a, b)
    ensures AllInRange(a, n)
  {
    forall i | 0 <= i < |a| ensures InRange(a[i], n) {
      var j := PermutationFind(a, b, i);
    }
  }

  lemma FlattenRemove(b: seq<seq<nat>>, i: nat)
    requires i < |b|
    ensures multiset(Flatten(b)) == multiset(Flatten(RemoveAt(b, i))) + multiset(b[i])
  {
    assert b == b[..i] + b[i..] && b[i..][1..] == b[i + 1..];
    FlattenAppend(b[..i], b[i..]);
    FlattenAppend(b[..i], b[i + 1..]);
  }

  lemma {:induction false} FlattenPermutation(a: seq<seq<nat>>, b: seq<seq<nat>>)
    requires IsPermutation(a, b)
    ensures IsPermutation(Flatten(a), Flatten(b))
  {
    PermutationSize(a, b);
    if a != [] {
      var i := PermutationStep(a, b);
      FlattenRemove(b, i);
      FlattenPermutation(a[1..], RemoveAt(b, i));
    }
  }

  // ---------- rearranging ----------

  /** The rows a partition names, in its order. */
  function Pick<T>(rows: seq<T>, part: seq<nat>): (r: seq<T>)
    requires InRange(part, |rows|)
    ensures |r| == |part| && forall i :: 0 <= i < |part| ==> r[i] == rows[part[i]]
  {
    seq(|part|, i requires 0 <= i < |part| => rows[part[i]])
  }

  function PickAll<T>(rows: seq<T>, ps: seq<seq<nat>>): (r: seq<seq<T>>)
    requires AllInRange(ps, |rows|)
    ensures |r| == |ps| && forall i :: 0 <= i < |ps| ==> r[i] == Pick(rows, ps[i])
  {
    seq(|ps|, i requires 0 <= i < |ps| => Pick(rows, ps[i]))
  }

  datatype Rearranged<T> = Micro(batches: seq<seq<T>>, order: seq<seq<nat>>) | Refused

  lemma {:induction false} InFlatten(ps: seq<seq<nat>>, i: nat, x: nat)
    requires i < |ps| && x in ps[i]
    ensures x in Flatten(ps)
  {
    if i > 0 { InFlatten(ps[1..], i - 1, x); }
  }

  lemma {:induction false} CoverInRange(ps: seq<seq<nat>>, n: nat)
    requires IsPermutation(Flatten(ps), Range(n))
    ensures AllInRange(ps, n)
  {
    forall i | 0 <= i < |ps| ensures InRange(ps[i], n) {
      forall j | 0 <= j < |ps[i]| ensures ps[i][j] < n {
        InFlatten(ps, i, ps[i][j]);
        assert ps[i][j] in multiset(Range(n));
        assert ps[i][j] in Range(n);
      }
    }
  }

  /** The optional workload sort. */
  method Order(lens: seq<nat>, partitions: seq<seq<nat>>, balance: bool) returns (order: seq<seq<nat>>)
    requires IsPermutation(Flatten(partitions), Range(|lens|))
    ensures |order| == |partitions| && AllInRange(order, |lens|)
    ensures IsPermutation(order, partitions) && IsPermutation(Flatten(order), Range(|lens|))
    ensures if balance then HeaviestFirst(lens, order) else order == partitions
  {
    order := partitions;
    CoverInRange(order, |lens|);
    if balance {
      order := SortHeavy(lens, partitions);
      SortHeavySorted(lens, partitions);
      SortHeavyPermutes(lens, partitions);
      FlattenPermutation(order, partitions);
      PermutationSize(order, partitions);
      RearrangedInRange(order, partitions, |lens|);
    }
  }

  /** The loop that slices the batch row by row and concatenates. */
  method CutRows<T>(rows: seq<T>, order: seq<seq<nat>>) returns (batches: seq<seq<T>>)
    requires AllInRange(order, |rows|)
    ensures batches == PickAll(rows, order)
  {
    batches := [];
    for i := 0 to |order|
      invariant batches == PickAll(rows, order)[..i]
    {
      var current: seq<T> := [];
      for n := 0 to |order[i]|
        invariant current == Pick(rows, order[i])[..n]
      {
        current := current + [rows[order[i][n]]];
      }
      assert current == Pick(rows, order[i]) == PickAll(rows, order)[i];
      batches := batches + [current];
    }
  }

  /**
   `rearrange_micro_batches`. `rows` are the batch's rows and `lens` their effective lengths, each at
   most the padded width. It refuses exactly when the token budget is below the width, or the
   count it arrives at is not between 1 and the number of rows.
   */
  method Rearrange<T>(rows: seq<T>, lens: seq<nat>, width: nat, maxTokenLen: int, minNum: Option<int>,
                      peers: seq<int>, dividedBy: Option<int>, balance: bool)
    returns (r: Rearranged<T>)
    requires |rows| == |lens|
    ensures r.Micro? <==>
      && maxTokenLen >= width && maxTokenLen != 0 && dividedBy != Some(0)
      && 1 <= MicroBatchCount(lens, maxTokenLen, minNum, peers, dividedBy) <= |rows|
    ensures (dividedBy.Some? ==> dividedBy.value > 0) ==> (r.Micro? <==>
      && maxTokenLen >= width && maxTokenLen != 0
      && exists n :: 1 <= n <= |rows| && IsLeastCount(lens, maxTokenLen, minNum, peers, dividedBy, n))
    ensures r.Micro? && (dividedBy.Some? ==> dividedBy.value > 0) ==>
      IsLeastCount(lens, maxTokenLen, minNum, peers, dividedBy, |r.order|)
    ensures r.Micro? ==>
      && |r.order| == MicroBatchCount(lens, maxTokenLen, minNum, peers, dividedBy)
      && AllInRange(r.order, |rows|)
      && IsPermutation(Flatten(r.order), Range(|rows|))
      && r.batches == PickAll(rows, r.order)
    ensures r.Micro? ==>
      && IsPermutation(r.order, Balanced(lens, |r.order|, false))
      && (balance ==> HeaviestFirst(lens, r.order))
      && (!balance ==> r.order == Balanced(lens, |r.order|, false))
  {
    if maxTokenLen < width || maxTokenLen == 0 || dividedBy == Some(0) {
      return Refused;
    }
    var count := MicroBatchCount(lens, maxTokenLen, minNum, peers, dividedBy);
    if dividedBy.None? || dividedBy.value > 0 { LeastCountWithin(lens, maxTokenLen, minNum, peers, dividedBy); }
    if count > |lens| {
      return Refused;
    }
    var found := BalancedPartitions(lens, count, false);
    if found.Err? {
      return Refused;
    }
    BalancedExactCover(lens, count, false);
    BalancedShape(lens, count, false, 0);
    var order := Order(lens, found.value, balance);
    var batches := CutRows(rows, order);
    return Micro(batches, order);
  }

  // ---------- restoring ----------

  /** `get_reverse_idx` after its first n assignments. */
  function ReverseAfter(map_: seq<nat>, n: nat): (r: seq<nat>)
    requires InRange(map_, |map_|) && n <= |map_|
    ensures |r| == |map_|
  {
    if n == 0 then map_ else ReverseAfter(map_, n - 1)[map_[n - 1] := n - 1]
  }

  method GetReverseIdx(idxMap: seq<nat>) returns (reverse: seq<nat>)
    requires InRange(idxMap, |idxMap|)
    ensures reverse == ReverseAfter(idxMap, |idxMap|)
  {
    reverse := idxMap;
    for i := 0 to |idxMap|
      invariant reverse == ReverseAfter(idxMap, i)
    {
      reverse := reverse[idxMap[i] := i];
    }
  }

  predicate Permutation(p: seq<nat>) {
    IsPermutation(p, Range(|p|))
  }

  lemma {:induction false} RangeOnce(n: nat, x: nat)
    ensures multiset(Range(n))[x] == if x < n then 1 else 0
  {
    if n > 0 {
      RangeOnce(n - 1, x);
      RangeSnoc(n - 1);
    }
  }

  lemma RepeatedTwice(p: seq<nat>, i: nat, j: nat)
    requires i < j < |p| && p[i] == p[j]
    ensures multiset(p)[p[i]] >= 2
  {
    assert p == p[..j] + p[j..];
    assert p[..j][i] == p[i] && p[j..][0] == p[i];
    assert p[i] in multiset(p[..j]) && p[i] in multiset(p[j..]);
  }

  lemma PermutationDistinct(p: seq<nat>, i: nat, j: nat)
    requires Permutation(p) && i < j < |p|
    ensures p[i] != p[j]
  {
    if p[i] == p[j] {
      RepeatedTwice(p, i, j);
      RangeOnce(|p|, p[i]);
    }
  }

  lemma PermutationInRange(p: seq<nat>)
    requires Permutation(p)
    ensures InRange(p, |p|)
  {
    forall i | 0 <= i < |p| ensures p[i] < |p| {
      assert p[i] in multiset(p);
      RangeOnce(|p|, p[i]);
    }
  }

  lemma {:induction false} ReverseAfterAt(p: seq<nat>, n: nat, i: nat)
    requires Permutation(p) && InRange(p, |p|) && i < n <= |p|
    ensures ReverseAfter(p, n)[p[i]] == i
  {
    if i < n - 1 {
      PermutationDistinct(p, i, n - 1);
      ReverseAfterAt(p, n - 1, i);
    }
  }

  /** On a permutation `get_reverse_idx` returns its two-sided inverse. */
  lemma ReverseIsInverse(p: seq<nat>, x: nat)
    requires Permutation(p) && InRange(p, |p|) && x < |p|
    ensures var r := ReverseAfter(p, |p|);
      r[p[x]] == x && r[x] < |p| && p[r[x]] == x
  {
    ReverseAfterAt(p, |p|, x);
    RangeOnce(|p|, x);
    assert x in multiset(p);
    var i :| 0 <= i < |p| && p[i] == x;
    ReverseAfterAt(p, |p|, i);
  }

  /** Row i of `data` stands at position p[i] of r. */
  predicate Scattered<T(==)>(data: seq<T>, p: seq<nat>, r: seq<T>) {
    |p| == |data| && forall i :: 0 <= i < |p| ==> p[i] < |r| && r[p[i]] == data[i]
  }

  /** `restore_dynamic_batch`: row i of `data` belongs at position `flattened order`[i]. */
  method Restore<T(==)>(data: seq<T>, order: seq<seq<nat>>) returns (r: seq<T>)
    requires |data| == |Flatten(order)| && Permutation(Flatten(order))
    ensures |r| == |data| && Scattered(data, Flatten(order), r)
  {
    var indices := Flatten(order);
    PermutationInRange(indices);
    var revert := GetReverseIdx(indices);
    forall i | 0 <= i < |indices|
      ensures revert[indices[i]] == i && revert[i] < |indices| && indices[revert[i]] == i
    {
      ReverseIsInverse(indices, i);
    }
    r := Pick(data, revert);
  }

  // ---------- the round trip ----------

  /** Row-wise results of each micro-batch. */
  function Apply<T, U>(f: T -> U, rows: seq<T>): (r: seq<U>)
    ensures |r| == |rows| && forall i :: 0 <= i < |rows| ==> r[i] == f(rows[i])
  {
    seq(|rows|, i requires 0 <= i < |rows| => f(rows[i]))
  }

  function ApplyAll<T, U>(f: T -> U, batches: seq<seq<T>>): (r: seq<seq<U>>)
    ensures |r| == |batches|
  {
    seq(|batches|, i requires 0 <= i < |batches| => Apply(f, batches[i]))
  }

  lemma {:induction false} FlattenPicked<T, U>(f: T -> U, rows: seq<T>, order: seq<seq<nat>>)
    requires AllInRange(order, |rows|)
    ensures InRange(Flatten(order), |rows|)
    ensures Flatten(ApplyAll(f, PickAll(rows, order))) == Apply(f, Pick(rows, Flatten(order)))
  {
    if order != [] {
      FlattenPicked(f, rows, order[1..]);
      assert PickAll(rows, order)[1..] == PickAll(rows, order[1..]);
      assert ApplyAll(f, PickAll(rows, order))[1..] == ApplyAll(f, PickAll(rows, order[1..]));
    }
  }

  /**
   The promise of dynamic batching: for every accepted batch, applying a row-wise computation to each
   micro-batch, concatenating, and restoring gives the computation applied to the original rows.
   */
  method RoundTrip<T, U(==)>(f: T -> U, rows: seq<T>, lens: seq<nat>, width: nat, maxTokenLen: int,
                         minNum: Option<int>, peers: seq<int>, dividedBy: Option<int>, balance: bool)
    returns (r: Option<seq<U>>)
    requires |rows| == |lens|
    ensures r.Some? ==> r.value == Apply(f, rows)
    ensures r.Some? <==>
      && maxTokenLen >= width && maxTokenLen != 0 && dividedBy != Some(0)
      && 1 <= MicroBatchCount(lens, maxTokenLen, minNum, peers, dividedBy) <= |rows|
  {
    var micro := Rearrange(rows, lens, width, maxTokenLen, minNum, peers, dividedBy, balance);
    if micro.Refused? {
      return None;
    }
    var results := Flatten(ApplyAll(f, micro.batches));
    var flat := Flatten(micro.order);
    FlattenPicked(f, rows, micro.order);
    PermutationSize(flat, Range(|rows|));
    var restored := Restore(results, micro.order);
    forall x | 0 <= x < |rows| ensures restored[x] == f(rows[x]) {
      ReverseIsInverse(flat, x);
      var i := ReverseAfter(flat, |flat|)[x];
      assert flat[i] == x;
    }
    return Some(restored);
  }
}
