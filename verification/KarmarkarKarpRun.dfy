/**
 The priority-queue loop of `karmarkar_karp`: two least states out, their merge in, until one is left.
 What a run keeps is proved by induction over its steps.
 */
module KarmarkarKarpRun {
  import opened Sequences
  import opened KarmarkarKarp

  predicate QueueOk(q: seq<Split>, k: nat) {
    k >= 1 && forall i :: 0 <= i < |q| ==> WellFormed(q[i], k)
  }

  lemma SplitLessTransitive(a: Split, b: Split, c: Split)
    requires a != [] && b != [] && c != [] && SplitLess(a, c) && SplitLess(c, b)
    ensures SplitLess(a, b)
  {
    if Spread(a) == Spread(b) {
      PartLessTransitive(b[0], c[0], a[0]);
    }
  }

  lemma SplitLessIrreflexive(a: Split)
    requires a != []
    ensures !SplitLess(a, a)
  {
    PartLessTotal(a[0], a[0]);
  }

  /** The state `heappop` returns: none of the others is less. */
  function Least(q: seq<Split>): (m: nat)
    requires q != [] && forall i :: 0 <= i < |q| ==> q[i] != []
    ensures m < |q| && forall j :: 0 <= j < |q| ==> !SplitLess(q[j], q[m])
  {
    var n := |q| - 1;
    SplitLessIrreflexive(q[n]);
    if n == 0 then 0
    else
      var m := Least(q[..n]);
      assert forall j :: 0 <= j < n ==> q[j] == q[..n][j];
      if SplitLess(q[n], q[m]) then
        assert forall j :: 0 <= j < n ==> !SplitLess(q[j], q[n]) by {
          forall j | 0 <= j < n ensures !SplitLess(q[j], q[n]) {
            if SplitLess(q[j], q[n]) { SplitLessTransitive(q[j], q[m], q[n]); }
          }
        }
        n
      else m
  }

  lemma RemoveKeepsQueueOk(q: seq<Split>, k: nat, m: nat)
    requires QueueOk(q, k) && m < |q|
    ensures QueueOk(RemoveAt(q, m), k)
  {
  }

  /** First popped state, second popped state, and what stays in the queue. */
  function PopTwo(q: seq<Split>, k: nat): (r: (Split, Split, seq<Split>))
    requires QueueOk(q, k) && |q| >= 2
    ensures WellFormed(r.0, k) && WellFormed(r.1, k) && QueueOk(r.2, k) && |r.2| == |q| - 2
  {
    var i := Least(q);
    var rest := RemoveAt(q, i);
    var j := Least(rest);
    (q[i], rest[j], RemoveAt(rest, j))
  }

  lemma PopTwoMembers(q: seq<Split>, k: nat)
    requires QueueOk(q, k) && |q| >= 2
    ensures var (a, b, rest) := PopTwo(q, k);
      a in q && b in q && forall s :: s in rest ==> s in q
  {
    var rest0 := RemoveAt(q, Least(q));
    assert forall s :: s in rest0 ==> s in q;
  }

  /**
   State s does not come after state t: its first and last sets are at least as far apart, and if they are exactly as
   far apart, its first set is not less.
   */
  predicate ComesFirst(s: Split, t: Split, k: nat) {
    && |s| == |t| == k >= 1
    && s[0].sum - s[k - 1].sum >= t[0].sum - t[k - 1].sum
    && (s[0].sum - s[k - 1].sum == t[0].sum - t[k - 1].sum ==> !PartLess(s[0], t[0]))
  }

  lemma LeastComesFirst(q: seq<Split>, k: nat, s: Split)
    requires QueueOk(q, k) && s in q
    ensures ComesFirst(q[Least(q)], s, k)
  {
    var n :| 0 <= n < |q| && q[n] == s;
    assert !SplitLess(q[n], q[Least(q)]);
  }

  lemma RemovedIsIn<T>(q: seq<T>, i: nat, s: T)
    requires i < |q| && s in RemoveAt(q, i)
    ensures s in q
  {
  }

  /** The states popped are the most unbalanced ones, and among equally unbalanced ones those of greater first set. */
  lemma PopTwoMostUnbalanced(q: seq<Split>, k: nat)
    requires QueueOk(q, k) && |q| >= 2
    ensures var (a, b, rest) := PopTwo(q, k);
      ComesFirst(a, b, k) && forall s :: s in rest ==> ComesFirst(a, s, k) && ComesFirst(b, s, k)
  {
    var (a, b, rest) := PopTwo(q, k);
    var i := Least(q);
    var others := RemoveAt(q, i);
    RemoveKeepsQueueOk(q, k, i);
    RemovedIsIn(q, i, b);
    LeastComesFirst(q, k, b);
    forall s | s in rest ensures ComesFirst(a, s, k) && ComesFirst(b, s, k) {
      RemovedIsIn(others, Least(others), s);
      RemovedIsIn(q, i, s);
      LeastComesFirst(q, k, s);
      LeastComesFirst(others, k, s);
    }
  }

  function Step(q: seq<Split>, k: nat): (r: seq<Split>)
    requires QueueOk(q, k) && |q| >= 2
    ensures QueueOk(r, k) && |r| == |q| - 1
  {
    var (a, b, rest) := PopTwo(q, k);
    MergeWellFormed(a, b, k);
    rest + [MergeSplits(a, b)]
  }

  /** The state left in the queue when the loop ends. */
  function Run(q: seq<Split>, k: nat): (s: Split)
    requires QueueOk(q, k) && q != []
    ensures WellFormed(s, k)
    decreases |q|
  {
    if |q| == 1 then q[0] else Run(Step(q, k), k)
  }

  /** The step in terms of the two positions popped. */
  lemma StepByPositions(q: seq<Split>, k: nat, i: nat, j: nat)
    requires QueueOk(q, k) && |q| >= 2 && i == Least(q)
    requires QueueOk(RemoveAt(q, i), k) && j == Least(RemoveAt(q, i))
    ensures Step(q, k)
         == RemoveAt(RemoveAt(q, i), j) + [MergeSplits(q[i], RemoveAt(q, i)[j])]
  {
  }

  /** One turn: the two states that come first leave the queue, and the second one merged into the first enters it. */
  predicate TurnAt(q: seq<Split>, k: nat, next: seq<Split>, i: nat, j: nat)
    requires i < |q| && j < |q| - 1
  {
    var a, b, rest := q[i], RemoveAt(q, i)[j], RemoveAt(RemoveAt(q, i), j);
    && ComesFirst(a, b, k)
    && (forall s :: s in rest ==> ComesFirst(a, s, k) && ComesFirst(b, s, k))
    && next == rest + [MergeSplits(a, b)]
  }

  ghost predicate TurnOf(q: seq<Split>, k: nat, next: seq<Split>) {
    exists i: nat, j: nat :: i < |q| && j < |q| - 1 && TurnAt(q, k, next, i, j)
  }

  lemma StepIsTurn(q: seq<Split>, k: nat)
    requires QueueOk(q, k) && |q| >= 2
    ensures TurnOf(q, k, Step(q, k))
  {
    PopTwoMostUnbalanced(q, k);
    var i := Least(q);
    RemoveKeepsQueueOk(q, k, i);
    var j := Least(RemoveAt(q, i));
    StepByPositions(q, k, i, j);
    assert TurnAt(q, k, Step(q, k), i, j);
  }

  // ---------- totals over the queue ----------

  function Tally(q: seq<Split>, f: Split -> int): int {
    if q == [] then 0 else f(q[0]) + Tally(q[1..], f)
  }

  lemma {:induction false} TallyAppend(a: seq<Split>, b: seq<Split>, f: Split -> int)
    ensures Tally(a + b, f) == Tally(a, f) + Tally(b, f)
  {
    if a == [] {
      assert a + b == b;
    } else {
      assert (a + b)[1..] == a[1..] + b;
      TallyAppend(a[1..], b, f);
    }
  }

  lemma TallyRemove(q: seq<Split>, i: nat, f: Split -> int)
    requires i < |q|
    ensures Tally(q, f) == Tally(RemoveAt(q, i), f) + f(q[i])
  {
    assert q == q[..i] + q[i..];
    assert q[i..][1..] == q[i + 1..];
    TallyAppend(q[..i], q[i..], f);
    TallyAppend(q[..i], q[i + 1..], f);
  }

  lemma TallyRemoveTwo(q: seq<Split>, i: nat, j: nat, f: Split -> int)
    requires i < |q| && j < |q| - 1
    ensures Tally(q, f) == f(q[i]) + f(RemoveAt(q, i)[j]) + Tally(RemoveAt(RemoveAt(q, i), j), f)
  {
    TallyRemove(q, i, f);
    TallyRemove(RemoveAt(q, i), j, f);
  }

  lemma TallyPopTwo(q: seq<Split>, k: nat, f: Split -> int)
    requires QueueOk(q, k) && |q| >= 2
    ensures var (a, b, rest) := PopTwo(q, k);
      Tally(q, f) == f(a) + f(b) + Tally(rest, f)
  {
    RemoveKeepsQueueOk(q, k, Least(q));
    TallyRemoveTwo(q, Least(q), Least(RemoveAt(q, Least(q))), f);
  }

  lemma TallySnoc(q: seq<Split>, s: Split, f: Split -> int)
    ensures Tally(q + [s], f) == Tally(q, f) + f(s)
  {
    TallyAppend(q, [s], f);
    assert Tally([s], f) == f(s) + Tally([], f);
  }

  lemma TallyStep(q: seq<Split>, k: nat, f: Split -> int)
    requires QueueOk(q, k) && |q| >= 2
    ensures var (a, b, rest) := PopTwo(q, k);
      Tally(Step(q, k), f) == Tally(rest, f) + f(MergeSplits(a, b))
  {
    var (a, b, rest) := PopTwo(q, k);
    TallySnoc(rest, MergeSplits(a, b), f);
  }

  lemma {:induction false} TallyNonNegative(q: seq<Split>, f: Split -> int)
    requires forall s :: f(s) >= 0
    ensures Tally(q, f) >= 0
  {
    if q != [] { TallyNonNegative(q[1..], f); }
  }

  lemma {:induction false} TallyBound(q: seq<Split>, f: Split -> int, i: nat, j: nat)
    requires i < j < |q| && forall s :: f(s) >= 0
    ensures Tally(q, f) >= f(q[i]) + f(q[j])
  {
    TallyRemove(q, j, f);
    TallyRemove(RemoveAt(q, j), i, f);
    TallyNonNegative(RemoveAt(RemoveAt(q, j), i), f);
  }

  /** Multiplicity of one item in one state. */
  function Holds(x: Item): Split -> int {
    s => ItemsOf(s)[x]
  }

  function Used(): Split -> int {
    s => Filled(s)
  }

  /** Items in the first set; in an evenly filled state, in every set. */
  function FirstSize(): Split -> int {
    (s: Split) => if s == [] then 0 else |s[0].items|
  }

  // ---------- what a run keeps ----------

  lemma StepConserves(q: seq<Split>, k: nat, x: Item)
    requires QueueOk(q, k) && |q| >= 2
    ensures Tally(Step(q, k), Holds(x)) == Tally(q, Holds(x))
  {
    var (a, b, rest) := PopTwo(q, k);
    MergeItems(a, b);
    TallyPopTwo(q, k, Holds(x));
    TallyStep(q, k, Holds(x));
  }

  /** No item is lost or duplicated by a run. */
  lemma {:induction false} RunConserves(q: seq<Split>, k: nat, x: Item)
    requires QueueOk(q, k) && q != []
    ensures ItemsOf(Run(q, k))[x] == Tally(q, Holds(x))
    decreases |q|
  {
    if |q| == 1 {
      assert q == [] + [q[0]];
      TallySnoc([], q[0], Holds(x));
    } else {
      StepConserves(q, k, x);
      RunConserves(Step(q, k), k, x);
    }
  }

  /** A run ends no more unbalanced than its most unbalanced starting state. */
  lemma StepSpread(q: seq<Split>, k: nat, bound: int)
    requires QueueOk(q, k) && |q| >= 2
    requires forall s :: s in q ==> s != [] && Spread(s) <= bound
    ensures forall s :: s in Step(q, k) ==> s != [] && Spread(s) <= bound
  {
    var (a, b, rest) := PopTwo(q, k);
    PopTwoMembers(q, k);
    MergeSpread(a, b, k);
  }

  lemma {:induction false} RunSpread(q: seq<Split>, k: nat, bound: int)
    requires QueueOk(q, k) && q != []
    requires forall s :: s in q ==> s != [] && Spread(s) <= bound
    ensures Spread(Run(q, k)) <= bound
    decreases |q|
  {
    if |q| > 1 {
      StepSpread(q, k, bound);
      RunSpread(Step(q, k), k, bound);
    }
  }

  lemma {:induction false} UsedNonNegative(q: seq<Split>)
    ensures Tally(q, Used()) >= 0
  {
    if q != [] { UsedNonNegative(q[1..]); }
  }

  lemma MergedUse(a: Split, b: Split, k: nat)
    requires WellFormed(a, k) && WellFormed(b, k)
    ensures Used()(a) >= 0 && Used()(b) >= 0
    ensures Used()(MergeSplits(a, b)) == Min(k, Used()(a) + Used()(b))
  {
    MergeFilled(a, b, k);
  }

  lemma StepFilled(q: seq<Split>, k: nat)
    requires QueueOk(q, k) && |q| >= 2
    ensures Min(k, Tally(Step(q, k), Used())) == Min(k, Tally(q, Used()))
  {
    var f := Used();
    var (a, b, rest) := PopTwo(q, k);
    MergedUse(a, b, k);
    TallyPopTwo(q, k, f);
    TallyStep(q, k, f);
    UsedNonNegative(rest);
  }

  /** The final number of non-empty sets, exactly. */
  lemma {:induction false} RunFilled(q: seq<Split>, k: nat)
    requires QueueOk(q, k) && q != []
    ensures Filled(Run(q, k)) == Min(k, Tally(q, Used()))
    decreases |q|
  {
    if |q| == 1 {
      assert q == [] + [q[0]];
      TallySnoc([], q[0], Used());
    } else {
      StepFilled(q, k);
      RunFilled(Step(q, k), k);
    }
  }

  /** All sets of the state hold equally many items. */
  predicate Even(s: Split) {
    EvenlyFilled(s, FirstSize()(s))
  }

  lemma MergeEven(a: Split, b: Split, k: nat)
    requires k >= 1 && |a| == k && |b| == k && Even(a) && Even(b)
    ensures Even(MergeSplits(a, b))
    ensures FirstSize()(MergeSplits(a, b)) == FirstSize()(a) + FirstSize()(b)
  {
    MergeEvenlyFilled(a, b, |a[0].items|, |b[0].items|);
  }

  lemma StepEven(q: seq<Split>, k: nat)
    requires QueueOk(q, k) && |q| >= 2
    requires forall s :: s in q ==> Even(s)
    ensures forall s :: s in Step(q, k) ==> Even(s)
    ensures Tally(Step(q, k), FirstSize()) == Tally(q, FirstSize())
  {
    var (a, b, rest) := PopTwo(q, k);
    PopTwoMembers(q, k);
    MergeEven(a, b, k);
    TallyPopTwo(q, k, FirstSize());
    TallyStep(q, k, FirstSize());
  }

  /** Starting from evenly filled states, a run ends evenly filled, with the item counts added up. */
  lemma {:induction false} RunEven(q: seq<Split>, k: nat)
    requires QueueOk(q, k) && q != []
    requires forall s :: s in q ==> Even(s)
    ensures EvenlyFilled(Run(q, k), Tally(q, FirstSize()))
    decreases |q|
  {
    if |q| == 1 {
      assert q == [] + [q[0]] && q[0] in q;
      TallySnoc([], q[0], FirstSize());
    } else {
      StepEven(q, k);
      RunEven(Step(q, k), k);
    }
  }

  // ---------- the heap's internal layout does not matter ----------

  predicate NoneEmpty(q: seq<Split>) {
    forall i :: 0 <= i < |q| ==> Filled(q[i]) >= 1
  }

  lemma NoneEmptySnoc(q: seq<Split>, s: Split)
    requires NoneEmpty(q) && Filled(s) >= 1
    ensures NoneEmpty(q + [s])
  {
  }

  lemma NoneEmptyPart(q: seq<Split>, part: seq<Split>)
    requires NoneEmpty(q) && forall s :: s in part ==> s in q
    ensures NoneEmpty(part)
  {
    forall i | 0 <= i < |part| ensures Filled(part[i]) >= 1 {
      assert part[i] in q;
    }
  }

  /** Live queues: every state holds something and no item is held twice. */
  ghost predicate Live(q: seq<Split>, k: nat) {
    && QueueOk(q, k)
    && NoneEmpty(q)
    && forall x :: Tally(q, Holds(x)) <= 1
  }

  lemma MergeNotEmpty(a: Split, b: Split, k: nat)
    requires k >= 1 && WellFormed(a, k) && WellFormed(b, k) && Filled(a) >= 1 && Filled(b) >= 1
    ensures Filled(MergeSplits(a, b)) >= 1
  {
    MergeFilled(a, b, k);
  }

  lemma NotEmpty(q: seq<Split>, s: Split)
    requires NoneEmpty(q) && s in q
    ensures Filled(s) >= 1
  {
  }

  lemma StepFilledPositive(q: seq<Split>, k: nat)
    requires QueueOk(q, k) && |q| >= 2 && NoneEmpty(q)
    ensures NoneEmpty(Step(q, k))
  {
    var (a, b, rest) := PopTwo(q, k);
    PopTwoMembers(q, k);
    NotEmpty(q, a);
    NotEmpty(q, b);
    MergeNotEmpty(a, b, k);
    NoneEmptyPart(q, rest);
    NoneEmptySnoc(rest, MergeSplits(a, b));
  }

  lemma StepLive(q: seq<Split>, k: nat)
    requires Live(q, k) && |q| >= 2
    ensures Live(Step(q, k), k)
  {
    StepFilledPositive(q, k);
    forall x ensures Tally(Step(q, k), Holds(x)) <= 1 {
      StepConserves(q, k, x);
    }
  }

  /** Two states of a live queue never tie, so "the least state" is unambiguous. */
  lemma LiveHasNoTies(q: seq<Split>, k: nat, i: nat, j: nat)
    requires Live(q, k) && i < |q| && j < |q| && i != j
    ensures q[i] != q[j] && (SplitLess(q[i], q[j]) || SplitLess(q[j], q[i]))
  {
    var a, b := q[i], q[j];
    UnusedLast(a, k, 0);
    if a[0] == b[0] {
      var x := a[0].items[0];
      assert x in ItemsOf(a) && x in ItemsOf(b);
      assert Holds(x)(a) >= 1 && Holds(x)(b) >= 1;
      assert forall s :: Holds(x)(s) >= 0;
      TallyBound(q, Holds(x), Min(i, j), Max(i, j));
    }
    PartLessTotal(a[0], b[0]);
  }

  lemma RemoveSamePermutation(p: seq<Split>, q: seq<Split>, i: nat, j: nat)
    requires IsPermutation(p, q) && i < |p| && j < |q| && p[i] == q[j]
    ensures IsPermutation(RemoveAt(p, i), RemoveAt(q, j))
  {
    RemoveAtMultiset(p, i);
    RemoveAtMultiset(q, j);
    assert multiset(RemoveAt(p, i)) == multiset(p) - multiset{p[i]};
    assert multiset(RemoveAt(q, j)) == multiset(q) - multiset{p[i]};
  }

  lemma {:induction false} LeastOfPermutation(p: seq<Split>, q: seq<Split>, k: nat)
    requires Live(p, k) && Live(q, k) && p != [] && q != [] && IsPermutation(p, q)
    ensures p[Least(p)] == q[Least(q)]
    ensures IsPermutation(RemoveAt(p, Least(p)), RemoveAt(q, Least(q)))
  {
    var i := PermutationFind(p, q, Least(p));
    var j := PermutationFind(q, p, Least(q));
    if i != Least(q) { LiveHasNoTies(q, k, i, Least(q)); }
    RemoveSamePermutation(p, q, Least(p), Least(q));
  }

  lemma {:induction false} LiveAfterRemove(q: seq<Split>, k: nat, i: nat)
    requires Live(q, k) && i < |q|
    ensures Live(RemoveAt(q, i), k)
  {
    forall x ensures Tally(RemoveAt(q, i), Holds(x)) <= 1 {
      TallyRemove(q, i, Holds(x));
      assert Holds(x)(q[i]) >= 0;
    }
  }

  /** A run's outcome is a function of which states are queued, not of how the heap arranges them. */
  lemma {:induction false} RunIgnoresHeapLayout(p: seq<Split>, q: seq<Split>, k: nat)
    requires Live(p, k) && Live(q, k) && p != [] && IsPermutation(p, q)
    ensures q != [] && Run(p, k) == Run(q, k)
    decreases |p|
  {
    PermutationSize(p, q);
    LeastOfPermutation(p, q, k);
    if |p| > 1 {
      var p1, q1 := RemoveAt(p, Least(p)), RemoveAt(q, Least(q));
      LiveAfterRemove(p, k, Least(p));
      LiveAfterRemove(q, k, Least(q));
      LeastOfPermutation(p1, q1, k);
      StepLive(p, k);
      StepLive(q, k);
      RunIgnoresHeapLayout(Step(p, k), Step(q, k), k);
    } else {
      assert p == [p[0]] && q == [q[0]];
    }
  }
}
