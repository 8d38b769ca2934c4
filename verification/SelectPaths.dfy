/**
 `select_paths` of reasoner/common/paths.py: duplicates are dropped, scored paths come first, and up to k paths
 are taken so that no pick only repeats triples of an earlier one, topped up if that leaves too few.
 */
module SelectPaths {
  import opened Sequences
  import opened Sorting
  import opened Wrappers

  type Triple = (string, string, string)

  datatype Path = Path(triples: seq<Triple>, score: Option<real>) {
    function TripleSet(): set<Triple> { set t | t in triples }
  }

  // ---------- dropping duplicates ----------

  predicate HasKey(ps: seq<Path>, triples: seq<Triple>) {
    exists i :: 0 <= i < |ps| && ps[i].triples == triples
  }

  predicate DistinctKeys(ps: seq<Path>) {
    forall i, j :: 0 <= i < j < |ps| ==> ps[i].triples != ps[j].triples
  }

  /** The first path of every triple list, in input order. */
  function Dedup(ps: seq<Path>): (r: seq<Path>) {
    if ps == [] then []
    else
      var before, last := Dedup(ps[..|ps| - 1]), ps[|ps| - 1];
      if HasKey(before, last.triples) then before else before + [last]
  }

  lemma {:induction false} DedupOk(ps: seq<Path>)
    ensures DistinctKeys(Dedup(ps)) && forall p :: p in Dedup(ps) ==> p in ps
    ensures forall p :: p in ps ==> HasKey(Dedup(ps), p.triples)
  {
    if ps != [] {
      var before, last := Dedup(ps[..|ps| - 1]), ps[|ps| - 1];
      DedupOk(ps[..|ps| - 1]);
      forall p | p in ps ensures HasKey(Dedup(ps), p.triples) {
        if HasKey(before, p.triples) {
          var i :| 0 <= i < |before| && before[i].triples == p.triples;
          assert Dedup(ps)[i].triples == p.triples;
        } else {
          assert p == last && Dedup(ps)[|before|] == last;
        }
      }
    }
  }

  /** No path before the i-th has its triples. */
  predicate IsFirst(ps: seq<Path>, i: nat) {
    i < |ps| && forall j :: 0 <= j < i ==> ps[j].triples != ps[i].triples
  }

  lemma IsFirstBefore(ps: seq<Path>, last: Path, i: nat)
    requires i < |ps|
    ensures IsFirst(ps + [last], i) <==> IsFirst(ps, i)
  {
    assert forall j :: 0 <= j <= i ==> (ps + [last])[j] == ps[j];
    if IsFirst(ps + [last], i) {
      forall j | 0 <= j < i ensures ps[j].triples != ps[i].triples {
        assert (ps + [last])[j].triples != (ps + [last])[i].triples;
      }
    }
  }

  lemma IsFirstLast(ps: seq<Path>, last: Path)
    ensures IsFirst(ps + [last], |ps|) <==> !HasKey(ps, last.triples)
  {
    if HasKey(ps, last.triples) {
      var j :| 0 <= j < |ps| && ps[j].triples == last.triples;
      assert (ps + [last])[j].triples == last.triples;
    } else {
      assert forall j :: 0 <= j < |ps| ==> (ps + [last])[j] == ps[j];
    }
  }

  lemma DedupHasKey(ps: seq<Path>, triples: seq<Triple>)
    ensures HasKey(Dedup(ps), triples) <==> HasKey(ps, triples)
  {
    DedupOk(ps);
    if HasKey(ps, triples) {
      var i :| 0 <= i < |ps| && ps[i].triples == triples;
      assert ps[i] in ps;
    }
    if HasKey(Dedup(ps), triples) {
      var i :| 0 <= i < |Dedup(ps)| && Dedup(ps)[i].triples == triples;
      assert Dedup(ps)[i] in ps;
    }
  }

  ghost predicate AreFirsts(ps: seq<Path>, at: seq<nat>) {
    forall i: nat :: i in at <==> IsFirst(ps, i)
  }

  lemma AreFirstsNext(front: seq<Path>, before: seq<nat>, last: Path)
    requires AreFirsts(front, before)
    ensures AreFirsts(front + [last], if HasKey(front, last.triples) then before else before + [|front|])
  {
    IsFirstLast(front, last);
    forall i: nat
      ensures i in (if HasKey(front, last.triples) then before else before + [|front|])
        <==> IsFirst(front + [last], i)
    {
      assert i in before <==> IsFirst(front, i);
      if i < |front| { IsFirstBefore(front, last, i); }
    }
  }

  /** Kept are exactly the paths with no earlier path of the same triples, in input order. */
  lemma {:induction false} DedupKeepsFirsts(ps: seq<Path>) returns (at: seq<nat>)
    ensures ListedFrom(ps, at, Dedup(ps)) && AreFirsts(ps, at)
  {
    if ps == [] {
      at := [];
    } else {
      var front, last := ps[..|ps| - 1], ps[|ps| - 1];
      var before := DedupKeepsFirsts(front);
      assert ps == front + [last];
      DedupHasKey(front, last.triples);
      AreFirstsNext(front, before, last);
      ListedFromMore(front, before, Dedup(front), last);
      at := if HasKey(front, last.triples) then before else before + [|front|];
    }
  }

  // ---------- the stable sort by score, best first ----------

  /** q does not have to come before p. */
  predicate NoWorse(p: Path, q: Path) {
    q.score.None? || (p.score.Some? && p.score.value >= q.score.value)
  }

  function SortByScore(ps: seq<Path>): (r: seq<Path>)
    ensures |r| == |ps|
  {
    Sort(ps, NoWorse)
  }

  /** Every scored path comes before the unscored ones and after those that score better. */
  predicate BestFirst(ps: seq<Path>) {
    forall i, j :: 0 <= i < j < |ps| && ps[j].score.Some? ==>
      ps[i].score.Some? && ps[i].score.value >= ps[j].score.value
  }

  lemma {:induction false} DistinctRearranged(a: seq<Path>, b: seq<Path>)
    requires DistinctKeys(a) && IsPermutation(b, a)
    ensures DistinctKeys(b)
  {
    if b != [] {
      var j := PermutationStep(b, a);
      var rest := RemoveAt(a, j);
      DistinctRearranged(rest, b[1..]);
      forall i | 0 < i < |b| ensures b[0].triples != b[i].triples {
        var n := PermutationFind(b[1..], rest, i - 1);
        assert rest[n] == if n < j then a[n] else a[n + 1];
      }
    }
  }

  /** Sorting rearranges the paths so that the best scores come first. */
  lemma SortOk(ps: seq<Path>)
    ensures BestFirst(SortByScore(ps)) && forall x :: x in SortByScore(ps) <==> x in ps
    ensures DistinctKeys(ps) ==> DistinctKeys(SortByScore(ps))
  {
    var r := SortByScore(ps);
    SortInOrder(ps, NoWorse);
    assert BestFirst(r) by {
      forall i, j | 0 <= i < j < |r| ensures NoWorse(r[i], r[j]) {
      }
    }
    SortPermutes(ps, NoWorse);
    forall x ensures x in r <==> x in ps {
      assert x in multiset(r) <==> x in multiset(ps);
    }
    if DistinctKeys(ps) { DistinctRearranged(ps, r); }
  }

  function Scoring(score: Option<real>): Path -> bool {
    (p: Path) => p.score == score
  }

  /** The paths of each score keep the order they came in. */
  ghost predicate SameTies(a: seq<Path>, b: seq<Path>) {
    forall score :: Filter(a, Scoring(score)) == Filter(b, Scoring(score))
  }

  lemma SortKeepsTies(ps: seq<Path>)
    ensures SameTies(SortByScore(ps), ps)
  {
    forall score ensures Filter(SortByScore(ps), Scoring(score)) == Filter(ps, Scoring(score)) {
      SortStable(ps, Scoring(score), NoWorse);
    }
  }

  lemma {:induction false} FirstOfScore(p: Path, s: seq<Path>)
    requires Filter(s, Scoring(p.score)) != [] && Filter(s, Scoring(p.score))[0] == p
    ensures p in s
    ensures s[0].score == p.score ==> s[0] == p
  {
    if s[0].score != p.score { FirstOfScore(p, s[1..]); }
  }

  lemma TiesOfTails(a: seq<Path>, b: seq<Path>)
    requires a != [] && b != [] && a[0] == b[0] && SameTies(a, b)
    ensures SameTies(a[1..], b[1..])
  {
    forall score ensures Filter(a[1..], Scoring(score)) == Filter(b[1..], Scoring(score)) {
      var first := if a[0].score == score then [a[0]] else [];
      assert first + Filter(a[1..], Scoring(score)) == Filter(a, Scoring(score)) == Filter(b, Scoring(score));
      assert (first + Filter(a[1..], Scoring(score)))[|first|..] == Filter(a[1..], Scoring(score));
      assert (first + Filter(b[1..], Scoring(score)))[|first|..] == Filter(b[1..], Scoring(score));
    }
  }

  lemma NonEmptyTies(a: seq<Path>, b: seq<Path>)
    requires a != [] && SameTies(a, b)
    ensures b != []
  {
    var kept := Filter(b, Scoring(a[0].score));
    assert kept == Filter(a, Scoring(a[0].score));
    assert kept != [];
  }

  /** Two arrangements by falling score that agree on the order within each score are the same. */
  lemma {:induction false} BestFirstUnique(a: seq<Path>, b: seq<Path>)
    requires BestFirst(a) && BestFirst(b) && SameTies(a, b)
    ensures a == b
  {
    if a == [] {
      if b != [] { NonEmptyTies(b, a); }
    } else {
      NonEmptyTies(a, b);
      assert Filter(a, Scoring(b[0].score)) == Filter(b, Scoring(b[0].score));
      FirstOfScore(b[0], a);
      assert Filter(a, Scoring(a[0].score)) == Filter(b, Scoring(a[0].score));
      FirstOfScore(a[0], b);
      assert NoWorse(a[0], b[0]) && NoWorse(b[0], a[0]);
      TiesOfTails(a, b);
      BestFirstUnique(a[1..], b[1..]);
      assert a == [a[0]] + a[1..] && b == [b[0]] + b[1..];
    }
  }

  predicate AnyScored(ps: seq<Path>) {
    exists i :: 0 <= i < |ps| && ps[i].score.Some?
  }

  /** The candidates, in the order in which they are considered. */
  function Ranked(ps: seq<Path>): (r: seq<Path>)
    ensures |r| == |Dedup(ps)|
  {
    if AnyScored(Dedup(ps)) then SortByScore(Dedup(ps)) else Dedup(ps)
  }

  lemma Rearranged(a: seq<Path>, b: seq<Path>, triples: seq<Triple>)
    requires HasKey(a, triples) && forall x :: x in a ==> x in b
    ensures HasKey(b, triples)
  {
    var i :| 0 <= i < |a| && a[i].triples == triples;
    assert a[i] in b;
  }

  lemma RankedOk(ps: seq<Path>)
    ensures DistinctKeys(Ranked(ps)) && BestFirst(Ranked(ps))
    ensures forall p :: p in Ranked(ps) ==> p in ps
    ensures forall p :: p in ps ==> HasKey(Ranked(ps), p.triples)
  {
    DedupOk(ps);
    var ds := Dedup(ps);
    if AnyScored(ds) {
      SortOk(ds);
      forall p | p in ps ensures HasKey(SortByScore(ds), p.triples) { Rearranged(ds, SortByScore(ds), p.triples); }
    } else {
      assert forall i :: 0 <= i < |ds| ==> ds[i].score.None?;
    }
  }

  /** The ranking is the one arrangement with the best scores first that keeps ties in input order. */
  lemma RankedUnique(ps: seq<Path>, r: seq<Path>)
    ensures BestFirst(r) && SameTies(r, Dedup(ps)) <==> r == Ranked(ps)
  {
    RankedOk(ps);
    if AnyScored(Dedup(ps)) { SortKeepsTies(Dedup(ps)); }
    if BestFirst(r) && SameTies(r, Dedup(ps)) {
      forall score ensures Filter(r, Scoring(score)) == Filter(Ranked(ps), Scoring(score)) {
        assert Filter(r, Scoring(score)) == Filter(Dedup(ps), Scoring(score));
      }
      BestFirstUnique(r, Ranked(ps));
    }
  }

  function KeySet(ps: seq<Path>): (keys: set<seq<Triple>>) {
    set i | 0 <= i < |ps| :: ps[i].triples
  }

  lemma {:induction false} DistinctKeyCount(ps: seq<Path>)
    requires DistinctKeys(ps)
    ensures |KeySet(ps)| == |ps|
  {
    if ps != [] {
      var front, last := ps[..|ps| - 1], ps[|ps| - 1];
      DistinctKeyCount(front);
      assert KeySet(ps) == KeySet(front) + {last.triples};
      assert last.triples !in KeySet(front);
    }
  }

  /** As many candidates as there are different triple lists. */
  lemma RankedCount(ps: seq<Path>)
    ensures |Ranked(ps)| == |KeySet(ps)|
  {
    DedupOk(ps);
    DistinctKeyCount(Dedup(ps));
    forall key ensures key in KeySet(Dedup(ps)) <==> key in KeySet(ps) {
      if key in KeySet(ps) {
        var i :| 0 <= i < |ps| && ps[i].triples == key;
        assert HasKey(Dedup(ps), ps[i].triples);
      }
      if key in KeySet(Dedup(ps)) {
        var i :| 0 <= i < |Dedup(ps)| && Dedup(ps)[i].triples == key;
        assert Dedup(ps)[i] in ps;
      }
    }
    assert KeySet(Dedup(ps)) == KeySet(ps);
  }

  // ---------- the diversity scan ----------

  /** All triples of p occur in one of the picks. */
  predicate Covered(p: Path, picks: seq<Path>) {
    exists i :: 0 <= i < |picks| && p.TripleSet() <= picks[i].TripleSet()
  }

  /** The picks after the first n candidates. */
  function Scan(ds: seq<Path>, n: nat, k: nat): (r: seq<Path>)
    requires n <= |ds| && k >= 1
    ensures |r| <= k && |r| <= n
  {
    if n == 0 then []
    else
      var before := Scan(ds, n - 1, k);
      if |before| < k && !Covered(ds[n - 1], before) then before + [ds[n - 1]] else before
  }

  /** The picks after topping up from the first n candidates. */
  function TopUp(ds: seq<Path>, n: nat, picks: seq<Path>, k: nat): (r: seq<Path>)
    requires n <= |ds| && |picks| <= k
    ensures |r| <= k && picks <= r
  {
    if n == 0 then picks
    else
      var before := TopUp(ds, n - 1, picks, k);
      if |before| < k && ds[n - 1] !in before then before + [ds[n - 1]] else before
  }

  predicate Repeats(p: Path, q: Path) {
    forall t :: t in p.triples ==> t in q.triples
  }

  /** No pick only repeats triples of an earlier one. */
  predicate Diverse(picks: seq<Path>) {
    forall i, j :: 0 <= i < j < |picks| ==> !Repeats(picks[j], picks[i])
  }

  /** All triples of p are triples of one of the picks. */
  predicate RepeatsAny(p: Path, picks: seq<Path>) {
    exists i :: 0 <= i < |picks| && Repeats(p, picks[i])
  }

  lemma RepeatsIff(p: Path, q: Path)
    ensures Repeats(p, q) <==> p.TripleSet() <= q.TripleSet()
  {
    if p.TripleSet() <= q.TripleSet() {
      forall t | t in p.triples ensures t in q.triples { assert t in p.TripleSet(); }
    }
  }

  lemma CoveredIff(p: Path, picks: seq<Path>)
    ensures Covered(p, picks) <==> RepeatsAny(p, picks)
  {
    forall i | 0 <= i < |picks| ensures Repeats(p, picks[i]) <==> p.TripleSet() <= picks[i].TripleSet() {
      RepeatsIff(p, picks[i]);
    }
  }

  lemma RepeatsStays(p: Path, picks: seq<Path>, more: seq<Path>)
    requires RepeatsAny(p, picks) && picks <= more
    ensures RepeatsAny(p, more)
  {
    var i :| 0 <= i < |picks| && Repeats(p, picks[i]);
    assert picks[i] == more[i];
  }

  lemma PickCovered(p: Path, picks: seq<Path>, i: nat)
    requires i < |picks| && picks[i] == p
    ensures RepeatsAny(p, picks)
  {
    assert Repeats(p, picks[i]);
  }

  lemma DiverseNext(picks: seq<Path>, p: Path)
    requires Diverse(picks) && !RepeatsAny(p, picks)
    ensures Diverse(picks + [p])
  {
    var more := picks + [p];
    forall i, j | 0 <= i < j < |more| ensures !Repeats(more[j], more[i]) {
      assert more[i] == picks[i];
    }
  }

  lemma {:induction false} ScanDiverse(ds: seq<Path>, n: nat, k: nat)
    requires n <= |ds| && k >= 1
    ensures Diverse(Scan(ds, n, k)) && forall p :: p in Scan(ds, n, k) ==> p in ds[..n]
  {
    if n > 0 {
      ScanDiverse(ds, n - 1, k);
      var before := Scan(ds, n - 1, k);
      assert ds[..n] == ds[..n - 1] + [ds[n - 1]];
      CoveredIff(ds[n - 1], before);
      if |before| < k && !Covered(ds[n - 1], before) { DiverseNext(before, ds[n - 1]); }
    }
  }

  lemma {:induction false} ScanRepeats(ds: seq<Path>, n: nat, k: nat, i: nat)
    requires i < n <= |ds| && k >= 1 && |Scan(ds, n, k)| < k
    ensures RepeatsAny(ds[i], Scan(ds, n, k))
  {
    var before, picks := Scan(ds, n - 1, k), Scan(ds, n, k);
    if i < n - 1 {
      ScanRepeats(ds, n - 1, k, i);
      RepeatsStays(ds[i], before, picks);
    } else if picks == before {
      CoveredIff(ds[i], before);
    } else {
      PickCovered(ds[i], picks, |picks| - 1);
    }
  }

  /** The scan picks diverse candidates, and unless it fills up, passes over nothing but repetitions of a pick. */
  lemma ScanOk(ds: seq<Path>, n: nat, k: nat)
    requires n <= |ds| && k >= 1
    ensures var picks := Scan(ds, n, k);
      Diverse(picks) && (forall p :: p in picks ==> p in ds[..n]) &&
      (|picks| < k ==> forall i :: 0 <= i < n ==> RepeatsAny(ds[i], picks))
  {
    ScanDiverse(ds, n, k);
    if |Scan(ds, n, k)| < k {
      forall i | 0 <= i < n ensures RepeatsAny(ds[i], Scan(ds, n, k)) { ScanRepeats(ds, n, k, i); }
    }
  }

  lemma DiverseDistinct(picks: seq<Path>)
    requires Diverse(picks)
    ensures DistinctKeys(picks)
  {
    forall i, j | 0 <= i < j < |picks| ensures picks[i].triples != picks[j].triples {
      assert !Repeats(picks[j], picks[i]);
    }
  }

  lemma SameKeySamePath(ds: seq<Path>, p: Path, q: Path)
    requires DistinctKeys(ds) && p in ds && q in ds
    ensures p.triples == q.triples <==> p == q
  {
    var i :| 0 <= i < |ds| && ds[i] == p;
    var j :| 0 <= j < |ds| && ds[j] == q;
    if p.triples == q.triples { assert i == j; }
  }

  /** Topping up adds candidates that are missing until there are k picks or no candidate is missing. */
  lemma {:induction false} TopUpOk(ds: seq<Path>, n: nat, picks: seq<Path>, k: nat)
    requires n <= |ds| && |picks| <= k && DistinctKeys(ds) && DistinctKeys(picks) && forall p :: p in picks ==> p in ds
    ensures var r := TopUp(ds, n, picks, k);
      DistinctKeys(r) && (forall p :: p in r ==> p in ds) && (|r| < k ==> forall i :: 0 <= i < n ==> ds[i] in r)
  {
    if n > 0 {
      TopUpOk(ds, n - 1, picks, k);
      var before, r := TopUp(ds, n - 1, picks, k), TopUp(ds, n, picks, k);
      if r != before {
        forall i | 0 <= i < |before| ensures before[i].triples != ds[n - 1].triples {
          SameKeySamePath(ds, before[i], ds[n - 1]);
        }
        assert r[|before|] == ds[n - 1];
      }
    }
  }

  lemma {:induction false} FullTopUp(ds: seq<Path>, m: nat, n: nat, picks: seq<Path>, k: nat)
    requires m <= n <= |ds| && |picks| <= k && |TopUp(ds, m, picks, k)| == k
    ensures TopUp(ds, n, picks, k) == TopUp(ds, m, picks, k)
  {
    if m < n { FullTopUp(ds, m, n - 1, picks, k); }
  }

  lemma {:induction false} TopUpFrom(ds: seq<Path>, n: nat, picks: seq<Path>, k: nat, p: Path)
    requires n <= |ds| && |picks| <= k && p in TopUp(ds, n, picks, k)
    ensures p in picks || p in ds[..n]
  {
    if n > 0 {
      assert ds[..n] == ds[..n - 1] + [ds[n - 1]];
      if p in TopUp(ds, n - 1, picks, k) { TopUpFrom(ds, n - 1, picks, k, p); }
    }
  }

  lemma {:induction false} TopUpGrows(ds: seq<Path>, m: nat, n: nat, picks: seq<Path>, k: nat)
    requires m <= n <= |ds| && |picks| <= k
    ensures TopUp(ds, m, picks, k) <= TopUp(ds, n, picks, k)
  {
    if m < n { TopUpGrows(ds, m, n - 1, picks, k); }
  }

  lemma NotEarlier(ds: seq<Path>, i: nat, j: nat)
    requires DistinctKeys(ds) && i < j < |ds|
    ensures ds[j] !in ds[..i + 1]
  {
    forall m | 0 <= m <= i ensures ds[m] != ds[j] {}
  }

  /** The best candidates are taken: one that was added only to top up comes after none that is missing. */
  lemma TopUpTakesBest(ds: seq<Path>, picks: seq<Path>, k: nat, i: nat, j: nat)
    requires i < j < |ds| && |picks| <= k
    requires DistinctKeys(ds) && DistinctKeys(picks) && forall p :: p in picks ==> p in ds
    requires ds[j] in TopUp(ds, |ds|, picks, k) && ds[j] !in picks
    ensures ds[i] in TopUp(ds, |ds|, picks, k)
  {
    TopUpOk(ds, i + 1, picks, k);
    if |TopUp(ds, i + 1, picks, k)| < k {
      TopUpGrows(ds, i + 1, |ds|, picks, k);
    } else {
      FullTopUp(ds, i + 1, |ds|, picks, k);
      NotEarlier(ds, i, j);
      TopUpFrom(ds, i + 1, picks, k, ds[j]);
    }
  }

  lemma KeysSubset(a: seq<Path>, b: seq<Path>)
    requires forall p :: p in a ==> p in b
    ensures KeySet(a) <= KeySet(b) && |KeySet(a)| <= |KeySet(b)|
  {
    forall key | key in KeySet(a) ensures key in KeySet(b) {
      var i :| 0 <= i < |a| && a[i].triples == key;
      assert a[i] in b;
    }
    var rest := KeySet(b) - KeySet(a);
    assert KeySet(b) == KeySet(a) + rest;
  }

  lemma {:induction false} KeySetSize(b: seq<Path>)
    ensures |KeySet(b)| <= |b|
  {
    if b != [] {
      var front, last := b[..|b| - 1], b[|b| - 1];
      KeySetSize(front);
      assert KeySet(b) == KeySet(front) + {last.triples};
    }
  }

  lemma {:induction false} NoMoreThan(a: seq<Path>, b: seq<Path>)
    requires DistinctKeys(a) && forall p :: p in a ==> p in b
    ensures |a| <= |b|
  {
    DistinctKeyCount(a);
    KeysSubset(a, b);
    KeySetSize(b);
  }

  // ---------- the function ----------

  /** Python's `s[:k]`, also for a negative k. */
  function Take<T>(s: seq<T>, k: int): (r: seq<T>) {
    if k >= 0 then s[..Min(k, |s|)] else s[..Max(|s| + k, 0)]
  }

  /** Both loops, for a positive k. */
  function Chosen(ps: seq<Path>, k: nat): (r: seq<Path>)
    requires k >= 1
  {
    TopUp(Ranked(ps), |Ranked(ps)|, Scan(Ranked(ps), |Ranked(ps)|, k), k)
  }

  lemma KeyAdded(before: seq<Path>, p: Path, key: seq<Triple>)
    ensures HasKey(before + [p], key) <==> HasKey(before, key) || key == p.triples
  {
    var after := before + [p];
    if HasKey(before, key) {
      var i :| 0 <= i < |before| && before[i].triples == key;
      assert after[i].triples == key;
    }
    assert after[|before|] == p;
  }

  method Deduplicate(paths: seq<Path>) returns (deduped: seq<Path>)
    ensures deduped == Dedup(paths)
  {
    var seen: set<seq<Triple>> := {};
    deduped := [];
    for i := 0 to |paths|
      invariant deduped == Dedup(paths[..i])
      invariant forall key :: key in seen <==> HasKey(deduped, key)
    {
      assert paths[..i + 1][..i] == paths[..i];
      var key := paths[i].triples;
      if key !in seen {
        ghost var before := deduped;
        seen := seen + {key};
        deduped := deduped + [paths[i]];
        forall other ensures HasKey(deduped, other) <==> HasKey(before, other) || other == key {
          KeyAdded(before, paths[i], other);
        }
      }
    }
    assert paths[..|paths|] == paths;
  }

  lemma {:induction false} FullScan(ds: seq<Path>, m: nat, n: nat, k: nat)
    requires k >= 1 && m <= n <= |ds| && |Scan(ds, m, k)| == k
    ensures Scan(ds, n, k) == Scan(ds, m, k)
  {
    if m < n { FullScan(ds, m, n - 1, k); }
  }

  /** The scan makes a first pick before it looks at k. */
  method DiversityScan(deduped: seq<Path>, k: int) returns (chosen: seq<Path>)
    ensures chosen == Scan(deduped, |deduped|, Max(k, 1))
  {
    chosen := [];
    var chosenSets: seq<set<Triple>> := [];
    for i := 0 to |deduped|
      invariant chosen == Scan(deduped, i, Max(k, 1)) && |chosen| < Max(k, 1)
      invariant |chosenSets| == |chosen| && forall c :: 0 <= c < |chosen| ==> chosenSets[c] == chosen[c].TripleSet()
    {
      var s := deduped[i].TripleSet();
      if exists c :: 0 <= c < |chosenSets| && s <= chosenSets[c] { continue; }
      chosen := chosen + [deduped[i]];
      chosenSets := chosenSets + [s];
      if |chosen| >= k {
        FullScan(deduped, i + 1, |deduped|, Max(k, 1));
        return;
      }
    }
  }

  method Backfill(deduped: seq<Path>, picks: seq<Path>, k: nat) returns (chosen: seq<Path>)
    requires |picks| < k
    ensures chosen == TopUp(deduped, |deduped|, picks, k)
  {
    chosen := picks;
    for i := 0 to |deduped|
      invariant chosen == TopUp(deduped, i, picks, k) && |chosen| < k
    {
      if deduped[i] !in chosen { chosen := chosen + [deduped[i]]; }
      if |chosen| >= k {
        FullTopUp(deduped, i + 1, |deduped|, picks, k);
        return;
      }
    }
  }

  /** `select_paths` */
  method Select(paths: seq<Path>, k: int, diversity: bool) returns (r: seq<Path>)
    ensures !diversity ==> r == Take(Ranked(paths), k)
    ensures diversity && k >= 1 ==> r == Chosen(paths, k)
    ensures diversity && k <= 0 ==> r == []
  {
    var deduped := Deduplicate(paths);
    if AnyScored(deduped) { deduped := SortByScore(deduped); }
    if !diversity { return Take(deduped, k); }
    var chosen := DiversityScan(deduped, k);
    if |chosen| < k {
      chosen := Backfill(deduped, chosen, k);
    } else if k >= 1 {
      FullTopUp(deduped, 0, |deduped|, chosen, k);
    }
    return Take(chosen, k);
  }

  /** As many paths as asked for or as there are different ones, all from the input, no two alike. */
  lemma ChosenCount(ps: seq<Path>, k: nat)
    requires k >= 1
    ensures |Chosen(ps, k)| == Min(k, |KeySet(ps)|) && DistinctKeys(Chosen(ps, k))
    ensures forall p :: p in Chosen(ps, k) ==> p in ps
  {
    var ds := Ranked(ps);
    var picks, r := Scan(ds, |ds|, k), Chosen(ps, k);
    RankedOk(ps);
    RankedCount(ps);
    ScanOk(ds, |ds|, k);
    TakeAll(ds, |ds|);
    DiverseDistinct(picks);
    TopUpOk(ds, |ds|, picks, k);
    NoMoreThan(r, ds);
    if |r| < k { NoMoreThan(ds, r); }
  }

  lemma SameRepeats(p: Path, q: Path, picks: seq<Path>)
    requires p.triples == q.triples && RepeatsAny(p, picks)
    ensures RepeatsAny(q, picks)
  {
    var i :| 0 <= i < |picks| && Repeats(p, picks[i]);
    assert Repeats(q, picks[i]);
  }

  /**
   The scan's picks come first and none only repeats an earlier one; whatever was passed over repeats
   a pick, or there are k picks already. So with fewer diverse picks than k, every input path repeats a pick.
   */
  lemma ChosenCovers(ps: seq<Path>, k: nat)
    requires k >= 1
    ensures var picks := Scan(Ranked(ps), |Ranked(ps)|, k);
      picks <= Chosen(ps, k) && Diverse(picks) &&
      (|picks| < k ==> forall p :: p in ps ==> RepeatsAny(p, picks) && RepeatsAny(p, Chosen(ps, k)))
  {
    var ds := Ranked(ps);
    var picks := Scan(ds, |ds|, k);
    RankedOk(ps);
    ScanOk(ds, |ds|, k);
    if |picks| < k {
      forall p | p in ps ensures RepeatsAny(p, picks) && RepeatsAny(p, Chosen(ps, k)) {
        var i :| 0 <= i < |ds| && ds[i].triples == p.triples;
        SameRepeats(ds[i], p, picks);
        RepeatsStays(p, picks, Chosen(ps, k));
      }
    }
  }

  /** The scan is greedy: a candidate is passed over only if it repeats a pick made before it. */
  lemma {:induction false} PassedOverCovered(ds: seq<Path>, n: nat, k: nat, i: nat)
    requires k >= 1 && i < n <= |ds| && |Scan(ds, i, k)| < k
    ensures RepeatsAny(ds[i], Scan(ds, i, k)) || ds[i] in Scan(ds, n, k)
  {
    if n == i + 1 {
      CoveredIff(ds[i], Scan(ds, i, k));
      if !Covered(ds[i], Scan(ds, i, k)) {
        var r := Scan(ds, n, k);
        assert r[|r| - 1] == ds[i];
      }
    } else {
      PassedOverCovered(ds, n - 1, k, i);
    }
  }
}
