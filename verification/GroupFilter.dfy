/**
 Dynamic sampling of recipe/dapo/dapo_ray_trainer.py: of every generation round only the prompts whose
 trajectories differ in the metric are kept, and rounds are accumulated until a training batch is full.
 */
module GroupFilter {
  import opened Sequences

  type Uid = string

  /** A row of the batch, as far as the filter looks at it; `sample` stands for the rest. */
  datatype Row<D> = Row(uid: Uid, metric: real, sample: D)

  // ---------- the spread of a metric ----------

  function Total(xs: seq<real>): real {
    if xs == [] then 0.0 else xs[0] + Total(xs[1..])
  }

  function Times(a: real, b: real): real { a * b }

  lemma PositiveTimes(a: real, b: real)
    requires a > 0.0 && b > 0.0
    ensures Times(a, b) > 0.0
  {
  }

  lemma NegatedTimes(a: real, b: real)
    ensures Times(-a, -b) == Times(a, b)
  {
  }

  lemma SquareZeroIff(d: real)
    ensures Times(d, d) >= 0.0 && (Times(d, d) == 0.0 <==> d == 0.0)
  {
    if d > 0.0 {
      PositiveTimes(d, d);
    } else if d < 0.0 {
      PositiveTimes(-d, -d);
      NegatedTimes(d, d);
    }
  }

  function SquaredDistances(xs: seq<real>, m: real): (r: real)
    ensures r >= 0.0
  {
    if xs == [] then 0.0
    else
      SquareZeroIff(xs[0] - m);
      Times(xs[0] - m, xs[0] - m) + SquaredDistances(xs[1..], m)
  }

  /** The square of `np.std`, in exact arithmetic. */
  function Variance(xs: seq<real>): real
    requires xs != []
  {
    SquaredDistances(xs, Total(xs) / |xs| as real) / |xs| as real
  }

  predicate Constant(xs: seq<real>) {
    forall i, j :: 0 <= i < |xs| && 0 <= j < |xs| ==> xs[i] == xs[j]
  }

  lemma {:induction false} TotalConstant(xs: seq<real>, c: real)
    requires forall i :: 0 <= i < |xs| ==> xs[i] == c
    ensures Total(xs) == |xs| as real * c
  {
    if xs != [] { TotalConstant(xs[1..], c); }
  }

  lemma {:induction false} DistancesZeroIff(xs: seq<real>, m: real)
    ensures SquaredDistances(xs, m) == 0.0 <==> forall i :: 0 <= i < |xs| ==> xs[i] == m
  {
    if xs != [] {
      DistancesZeroIff(xs[1..], m);
      SquareZeroIff(xs[0] - m);
      assert forall i :: 1 <= i < |xs| ==> xs[i] == xs[1..][i - 1];
    }
  }

  lemma MeanOfConstant(n: real, c: real)
    requires n > 0.0
    ensures n * c / n == c
  {
  }

  /** The deviation is positive exactly if the values are not all the same. */
  lemma VariancePositiveIff(xs: seq<real>)
    requires xs != []
    ensures Variance(xs) > 0.0 <==> !Constant(xs)
  {
    var n := |xs| as real;
    var m := Total(xs) / n;
    DistancesZeroIff(xs, m);
    if Constant(xs) {
      TotalConstant(xs, xs[0]);
      MeanOfConstant(n, xs[0]);
    }
    assert SquaredDistances(xs, m) / n > 0.0 <==> SquaredDistances(xs, m) > 0.0;
  }

  /** `std > 0 or len(vals) == 1` */
  predicate Keep(metrics: seq<real>)
    requires metrics != []
  {
    Variance(metrics) > 0.0 || |metrics| == 1
  }

  // ---------- groups of rows ----------

  function Metrics<D>(rows: seq<Row<D>>): (m: seq<real>)
    ensures |m| == |rows| && forall i :: 0 <= i < |rows| ==> m[i] == rows[i].metric
  {
    seq(|rows|, i requires 0 <= i < |rows| => rows[i].metric)
  }

  /** The rows of one prompt. */
  predicate IsGroup<D>(g: seq<Row<D>>, n: nat) {
    |g| == n && n >= 1 && forall i :: 0 <= i < n ==> g[i].uid == g[0].uid
  }

  /** Whole groups of n rows, one for each of several prompts. */
  predicate Grouped<D>(groups: seq<seq<Row<D>>>, n: nat) {
    && n >= 1 && (forall g :: 0 <= g < |groups| ==> IsGroup(groups[g], n))
    && forall g, h :: 0 <= g < h < |groups| ==> groups[g][0].uid != groups[h][0].uid
  }

  /** A group worth training on: its trajectories differ, or there is only one. */
  predicate Informative<D>(g: seq<Row<D>>) {
    |g| == 1 || !Constant(Metrics(g))
  }

  predicate AllInformative<D>(groups: seq<seq<Row<D>>>) {
    forall g :: 0 <= g < |groups| ==> Informative(groups[g])
  }

  function KeptGroups<D>(groups: seq<seq<Row<D>>>): (r: seq<seq<Row<D>>>)
    ensures |r| <= |groups|
  {
    if groups == [] then []
    else
      var last := groups[|groups| - 1];
      if Informative(last) then KeptGroups(groups[..|groups| - 1]) + [last] else KeptGroups(groups[..|groups| - 1])
  }

  /** A single row, or two rows that differ in the metric. */
  predicate Differs<D>(g: seq<Row<D>>) {
    |g| == 1 || exists i, j :: 0 <= i < |g| && 0 <= j < |g| && g[i].metric != g[j].metric
  }

  lemma InformativeIff<D>(g: seq<Row<D>>)
    ensures Informative(g) <==> Differs(g)
  {
    var m := Metrics(g);
    if exists i, j :: 0 <= i < |g| && 0 <= j < |g| && g[i].metric != g[j].metric {
      var i, j :| 0 <= i < |g| && 0 <= j < |g| && g[i].metric != g[j].metric;
      assert m[i] != m[j];
    }
  }

  /** The places are those of the groups that differ. */
  ghost predicate WhereDiffering<D>(groups: seq<seq<Row<D>>>, at: seq<nat>) {
    forall g: nat :: g in at <==> g < |groups| && Differs(groups[g])
  }

  lemma DifferingNext<D>(groups: seq<seq<Row<D>>>, at: seq<nat>, last: seq<Row<D>>)
    requires WhereDiffering(groups, at)
    ensures WhereDiffering(groups + [last], if Differs(last) then at + [|groups|] else at)
  {
    var more := groups + [last];
    assert forall g :: 0 <= g < |groups| ==> more[g] == groups[g];
    assert forall g: nat :: g in at + [|groups|] <==> g in at || g == |groups|;
  }

  /** Kept are exactly the groups of a single row or of differing metrics, in order. */
  lemma {:induction false} KeptInOrder<D>(groups: seq<seq<Row<D>>>) returns (at: seq<nat>)
    ensures ListedFrom(groups, at, KeptGroups(groups)) && WhereDiffering(groups, at)
  {
    if groups == [] {
      at := [];
    } else {
      var front, last := groups[..|groups| - 1], groups[|groups| - 1];
      assert groups == front + [last];
      at := KeptInOrder(front);
      InformativeIff(last);
      DifferingNext(front, at, last);
      ListedFromMore(front, at, KeptGroups(front), last);
      if Differs(last) { at := at + [|front|]; }
    }
  }

  // ---------- what the loops of the filter compute ----------

  /** The metric values of one prompt, in row order. */
  function MetricsOf<D>(rows: seq<Row<D>>, uid: Uid): (m: seq<real>) {
    if rows == [] then []
    else
      var last := rows[|rows| - 1];
      if last.uid == uid then MetricsOf(rows[..|rows| - 1], uid) + [last.metric] else MetricsOf(rows[..|rows| - 1], uid)
  }

  /** The keys of the dictionary, in insertion order. */
  function FirstSeen<D>(rows: seq<Row<D>>): (r: seq<Uid>) {
    if rows == [] then []
    else
      var before, uid := FirstSeen(rows[..|rows| - 1]), rows[|rows| - 1].uid;
      if uid in before then before else before + [uid]
  }

  lemma {:induction false} SeenHasMetrics<D>(rows: seq<Row<D>>, uid: Uid)
    ensures uid in FirstSeen(rows) <==> MetricsOf(rows, uid) != []
  {
    if rows != [] { SeenHasMetrics(rows[..|rows| - 1], uid); }
  }

  /** The prompts that pass the test. */
  function KeptUids<D>(seen: seq<Uid>, rows: seq<Row<D>>): (r: seq<Uid>)
    requires forall u :: u in seen ==> MetricsOf(rows, u) != []
    ensures forall u :: u in r <==> u in seen && Keep(MetricsOf(rows, u))
  {
    if seen == [] then []
    else
      var last := seen[|seen| - 1];
      if Keep(MetricsOf(rows, last)) then KeptUids(seen[..|seen| - 1], rows) + [last]
      else KeptUids(seen[..|seen| - 1], rows)
  }

  /** The rows of certain prompts. */
  function RowsOf<D>(rows: seq<Row<D>>, kept: seq<Uid>): (r: seq<Row<D>>) {
    if rows == [] then []
    else
      var last := rows[|rows| - 1];
      if last.uid in kept then RowsOf(rows[..|rows| - 1], kept) + [last] else RowsOf(rows[..|rows| - 1], kept)
  }

  // ---------- on grouped rows they keep whole groups ----------

  lemma {:induction false} MetricsOfAppend<D>(a: seq<Row<D>>, b: seq<Row<D>>, uid: Uid)
    ensures MetricsOf(a + b, uid) == MetricsOf(a, uid) + MetricsOf(b, uid)
  {
    if b == [] {
      assert a + b == a;
    } else {
      assert (a + b)[..|a + b| - 1] == a + b[..|b| - 1];
      MetricsOfAppend(a, b[..|b| - 1], uid);
    }
  }

  lemma {:induction false} MetricsOfGroup<D>(g: seq<Row<D>>, owner: Uid, uid: Uid)
    requires forall i :: 0 <= i < |g| ==> g[i].uid == owner
    ensures MetricsOf(g, uid) == if uid == owner then Metrics(g) else []
  {
    if g != [] {
      MetricsOfGroup(g[..|g| - 1], owner, uid);
      assert Metrics(g) == Metrics(g[..|g| - 1]) + [g[|g| - 1].metric];
    }
  }

  /** The dictionary holds each prompt's own values and nothing else. */
  lemma {:induction false} MetricsOfGrouped<D>(groups: seq<seq<Row<D>>>, n: nat, k: nat, uid: Uid)
    requires Grouped(groups, n) && k <= |groups|
    ensures forall g :: 0 <= g < k && groups[g][0].uid == uid ==>
      MetricsOf(Flatten(groups[..k]), uid) == Metrics(groups[g])
    ensures (forall g :: 0 <= g < k ==> groups[g][0].uid != uid) ==> MetricsOf(Flatten(groups[..k]), uid) == []
  {
    if k > 0 {
      MetricsOfGrouped(groups, n, k - 1, uid);
      FlattenTake(groups, k);
      MetricsOfAppend(Flatten(groups[..k - 1]), groups[k - 1], uid);
      MetricsOfGroup(groups[k - 1], groups[k - 1][0].uid, uid);
    }
  }

  /** The prompts of the first k groups. */
  function Owners<D>(groups: seq<seq<Row<D>>>, n: nat, k: nat): (r: seq<Uid>)
    requires Grouped(groups, n) && k <= |groups|
    ensures |r| == k && forall g :: 0 <= g < k ==> r[g] == groups[g][0].uid
  {
    seq(k, g requires 0 <= g < k => groups[g][0].uid)
  }

  lemma {:induction false} FirstSeenAppend<D>(rows: seq<Row<D>>, g: seq<Row<D>>, uid: Uid)
    requires g != [] && (forall i :: 0 <= i < |g| ==> g[i].uid == uid) && uid !in FirstSeen(rows)
    ensures FirstSeen(rows + g) == FirstSeen(rows) + [uid]
  {
    assert (rows + g)[..|rows + g| - 1] == rows + g[..|g| - 1];
    if |g| == 1 {
      assert rows + g[..0] == rows;
    } else {
      FirstSeenAppend(rows, g[..|g| - 1], uid);
    }
  }

  /** The dictionary's keys are the prompts of the groups, in order. */
  lemma {:induction false} FirstSeenGrouped<D>(groups: seq<seq<Row<D>>>, n: nat, k: nat)
    requires Grouped(groups, n) && k <= |groups|
    ensures FirstSeen(Flatten(groups[..k])) == Owners(groups, n, k)
  {
    if k > 0 {
      FirstSeenGrouped(groups, n, k - 1);
      FlattenTake(groups, k);
      FirstSeenAppend(Flatten(groups[..k - 1]), groups[k - 1], groups[k - 1][0].uid);
    }
  }

  /** Every prompt is judged by exactly its own group. */
  ghost predicate OwnMetrics<D>(groups: seq<seq<Row<D>>>, n: nat, rows: seq<Row<D>>)
    requires Grouped(groups, n)
  {
    forall g :: 0 <= g < |groups| ==> MetricsOf(rows, groups[g][0].uid) == Metrics(groups[g])
  }

  lemma OwnMetricsHold<D>(groups: seq<seq<Row<D>>>, n: nat)
    requires Grouped(groups, n)
    ensures OwnMetrics(groups, n, Flatten(groups))
  {
    TakeAll(groups, |groups|);
    forall g | 0 <= g < |groups| ensures MetricsOf(Flatten(groups), groups[g][0].uid) == Metrics(groups[g]) {
      MetricsOfGrouped(groups, n, |groups|, groups[g][0].uid);
    }
  }

  lemma KeepIffInformative<D>(g: seq<Row<D>>, n: nat)
    requires IsGroup(g, n)
    ensures Keep(Metrics(g)) <==> Informative(g)
  {
    VariancePositiveIff(Metrics(g));
  }

  lemma OwnersHaveMetrics<D>(groups: seq<seq<Row<D>>>, n: nat, k: nat, rows: seq<Row<D>>)
    requires Grouped(groups, n) && k <= |groups| && OwnMetrics(groups, n, rows)
    ensures forall u :: u in Owners(groups, n, k) ==> MetricsOf(rows, u) != []
  {
    forall u | u in Owners(groups, n, k) ensures MetricsOf(rows, u) != [] {
      var g :| 0 <= g < k && Owners(groups, n, k)[g] == u;
      assert MetricsOf(rows, groups[g][0].uid) == Metrics(groups[g]);
    }
  }

  lemma KeptUidsLast<D>(seen: seq<Uid>, last: Uid, rows: seq<Row<D>>)
    requires forall u :: u in seen + [last] ==> MetricsOf(rows, u) != []
    ensures MetricsOf(rows, last) != [] && forall u :: u in seen ==> MetricsOf(rows, u) != []
    ensures |KeptUids(seen + [last], rows)| == |KeptUids(seen, rows)| + if Keep(MetricsOf(rows, last)) then 1 else 0
  {
    assert last in seen + [last];
    assert (seen + [last])[..|seen|] == seen;
  }

  lemma KeptGroupsLast<D>(groups: seq<seq<Row<D>>>, last: seq<Row<D>>)
    ensures |KeptGroups(groups + [last])| == |KeptGroups(groups)| + if Informative(last) then 1 else 0
  {
    assert (groups + [last])[..|groups|] == groups;
  }

  lemma {:induction false} KeptUidsGrouped<D>(groups: seq<seq<Row<D>>>, n: nat, k: nat, rows: seq<Row<D>>)
    requires Grouped(groups, n) && k <= |groups| && OwnMetrics(groups, n, rows)
    ensures forall u :: u in Owners(groups, n, k) ==> MetricsOf(rows, u) != []
    ensures |KeptUids(Owners(groups, n, k), rows)| == |KeptGroups(groups[..k])|
  {
    OwnersHaveMetrics(groups, n, k, rows);
    if k > 0 {
      KeptUidsGrouped(groups, n, k - 1, rows);
      KeepIffInformative(groups[k - 1], n);
      assert Owners(groups, n, k) == Owners(groups, n, k - 1) + [groups[k - 1][0].uid];
      assert groups[..k] == groups[..k - 1] + [groups[k - 1]];
      KeptUidsLast(Owners(groups, n, k - 1), groups[k - 1][0].uid, rows);
      KeptGroupsLast(groups[..k - 1], groups[k - 1]);
    }
  }

  lemma {:induction false} RowsOfAppend<D>(rows: seq<Row<D>>, g: seq<Row<D>>, uid: Uid, kept: seq<Uid>)
    requires forall i :: 0 <= i < |g| ==> g[i].uid == uid
    ensures RowsOf(rows + g, kept) == RowsOf(rows, kept) + if uid in kept then g else []
  {
    if g == [] {
      assert rows + g == rows;
    } else {
      assert (rows + g)[..|rows + g| - 1] == rows + g[..|g| - 1];
      RowsOfAppend(rows, g[..|g| - 1], uid, kept);
    }
  }

  lemma {:induction false} RowsOfGrouped<D>(groups: seq<seq<Row<D>>>, n: nat, k: nat, kept: seq<Uid>)
    requires Grouped(groups, n) && k <= |groups|
    requires forall g :: 0 <= g < |groups| ==> (groups[g][0].uid in kept <==> Informative(groups[g]))
    ensures RowsOf(Flatten(groups[..k]), kept) == Flatten(KeptGroups(groups[..k]))
  {
    if k > 0 {
      RowsOfGrouped(groups, n, k - 1, kept);
      FlattenTake(groups, k);
      RowsOfAppend(Flatten(groups[..k - 1]), groups[k - 1], groups[k - 1][0].uid, kept);
      assert groups[..k][..k - 1] == groups[..k - 1];
      if Informative(groups[k - 1]) { FlattenSnoc(KeptGroups(groups[..k - 1]), groups[k - 1]); }
    }
  }

  /** On whole groups with a prompt each, the filter keeps exactly the informative groups, whole. */
  lemma FilterKeepsGroups<D>(groups: seq<seq<Row<D>>>, n: nat)
    requires Grouped(groups, n)
    ensures var rows := Flatten(groups); var seen := FirstSeen(rows);
      (forall u :: u in seen ==> MetricsOf(rows, u) != []) &&
      |KeptUids(seen, rows)| == |KeptGroups(groups)| &&
      RowsOf(rows, KeptUids(seen, rows)) == Flatten(KeptGroups(groups))
  {
    var rows := Flatten(groups);
    TakeAll(groups, |groups|);
    FirstSeenGrouped(groups, n, |groups|);
    OwnMetricsHold(groups, n);
    KeptUidsGrouped(groups, n, |groups|, rows);
    var kept := KeptUids(FirstSeen(rows), rows);
    forall g | 0 <= g < |groups| ensures groups[g][0].uid in kept <==> Informative(groups[g]) {
      KeepIffInformative(groups[g], n);
      assert Owners(groups, n, |groups|)[g] == groups[g][0].uid;
    }
    RowsOfGrouped(groups, n, |groups|, kept);
  }

  lemma GroupedSnoc<D>(groups: seq<seq<Row<D>>>, g: seq<Row<D>>, n: nat)
    requires Grouped(groups, n) && IsGroup(g, n)
    requires forall h :: 0 <= h < |groups| ==> groups[h][0].uid != g[0].uid
    ensures Grouped(groups + [g], n)
  {
  }

  lemma {:induction false} KeptAreGrouped<D>(groups: seq<seq<Row<D>>>, n: nat)
    requires Grouped(groups, n)
    ensures Grouped(KeptGroups(groups), n) && AllInformative(KeptGroups(groups))
    ensures forall g :: 0 <= g < |KeptGroups(groups)| ==> KeptGroups(groups)[g] in groups
  {
    if groups != [] {
      var before, last := groups[..|groups| - 1], groups[|groups| - 1];
      KeptAreGrouped(before, n);
      if Informative(last) {
        var kept: seq<seq<Row<D>>> := KeptGroups(before);
        forall h | 0 <= h < |kept| ensures kept[h][0].uid != last[0].uid {
          assert kept[h] in before;
        }
        GroupedSnoc(kept, last, n);
      }
    }
  }
}
