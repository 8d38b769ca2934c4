/**
 `karmarkar_karp` and `get_seqlen_balanced_partitions` of verl/utils/seqlen_balancing.py over their
 mutable objects. Every method is proved against the value-level functions of the other modules.
 */
module KarmarkarKarpObjects {
  import opened Arithmetic
  import opened Sequences
  import opened Sorting
  import opened KarmarkarKarp
  import opened KarmarkarKarpRun
  import opened KarmarkarKarpResult

  datatype Failure = FailedAssert | IndexOutOfRange | DivisionByZero

  datatype Result<+T> = Ok(value: T) | Err(failure: Failure)

  /** `Set` */
  class PartSet {
    var sum: int
    var items: seq<Item>

    constructor ()
      ensures Value() == EMPTY
    {
      sum := 0;
      items := [];
    }

    function Value(): Part
      reads this
    {
      Part(sum, items)
    }

    method Add(idx: nat, val: nat)
      modifies this
      ensures Value() == Part(old(sum) + val, old(items) + [Item(idx, val)])
    {
      items := items + [Item(idx, val)];
      sum := sum + val;
    }

    method Merge(other: PartSet)
      requires other != this
      modifies this
      ensures Value() == MergePart(old(Value()), other.Value())
    {
      for n := 0 to |other.items|
        invariant items == old(items) + other.items[..n]
        invariant sum == old(sum) + SumVals(other.items[..n])
        invariant other.items == old(other.items)
      {
        var x := other.items[n];
        assert other.items[..n + 1] == other.items[..n] + [x];
        SumValsAppend(other.items[..n], [x]);
        items := items + [x];
        sum := sum + x.val;
      }
      assert other.items[..|other.items|] == other.items;
    }
  }

  function Values(sets: seq<PartSet>): (s: Split)
    reads sets
    ensures |s| == |sets|
  {
    seq(|sets|, i requires 0 <= i < |sets| reads sets => sets[i].Value())
  }

  predicate Distinct<T(==)>(s: seq<T>) {
    forall i, j :: 0 <= i < j < |s| ==> s[i] != s[j]
  }

  /** Puts one set in front of the first listed set that is not greater. */
  method InsertSet(x: PartSet, sorted: seq<PartSet>) returns (r: seq<PartSet>)
    requires Distinct(sorted) && x !in sorted
    ensures Distinct(r) && |r| == |sorted| + 1 && forall y :: y in r <==> y == x || y in sorted
    ensures Values(r) == Insert(x.Value(), Values(sorted), NotLess)
  {
    if sorted == [] || !PartLess(x.Value(), sorted[0].Value()) {
      r := [x] + sorted;
      assert Distinct(r);
      assert Values(r) == [x.Value()] + Values(sorted);
    } else {
      var t := InsertSet(x, sorted[1..]);
      assert Values(sorted)[1..] == Values(sorted[1..]);
      assert sorted == [sorted[0]] + sorted[1..] && sorted[0] !in t;
      r := [sorted[0]] + t;
      assert Values(r) == [sorted[0].Value()] + Values(t);
    }
  }

  /** `sorted(sets, reverse=True)`: the same objects, in the one order their values allow. */
  method SortSets(sets: seq<PartSet>) returns (r: seq<PartSet>)
    requires Distinct(sets)
    ensures Distinct(r) && |r| == |sets| && forall y :: y in r <==> y in sets
    ensures Values(r) == SortDescending(Values(sets))
  {
    if sets == [] {
      r := [];
    } else {
      var t := SortSets(sets[1..]);
      assert Values(sets)[1..] == Values(sets[1..]);
      r := InsertSet(sets[0], t);
    }
  }

  /** The `for i in range(self.k)` loop of `State.merge`. */
  method CrossMergeInto(mine: seq<PartSet>, theirs: seq<PartSet>)
    requires |mine| == |theirs| && Distinct(mine)
    requires forall s :: s in mine ==> s !in theirs
    modifies mine
    ensures Values(mine) == CrossMerge(old(Values(mine)), Values(theirs))
    ensures Values(theirs) == old(Values(theirs))
  {
    var k := |mine|;
    ghost var a, b := Values(mine), Values(theirs);
    for i := 0 to k
      invariant Values(theirs) == b
      invariant forall j :: 0 <= j < i ==> mine[j].Value() == CrossMerge(a, b)[j]
      invariant forall j :: i <= j < k ==> mine[j].Value() == a[j]
    {
      assert mine[i] in mine;
      assert theirs[k - 1 - i].Value() == Values(theirs)[k - 1 - i];
      mine[i].Merge(theirs[k - 1 - i]);
      assert forall j :: 0 <= j < k ==> theirs[j] in theirs;
      assert forall j :: 0 <= j < k ==> Values(theirs)[j] == b[j];
    }
    assert Values(mine) == CrossMerge(a, b);
  }

  /** `State` */
  class State {
    const k: nat
    var sets: seq<PartSet>

    ghost predicate Valid()
      reads this
    {
      |sets| == k && Distinct(sets)
    }

    function Value(): (s: Split)
      reads this, sets
    {
      Values(sets)
    }

    /** The two states share no set object. */
    ghost predicate Apart(other: State)
      reads this, other
    {
      this != other && forall s :: s in sets ==> s !in other.sets
    }

    constructor (items: seq<Item>, k: nat)
      requires 1 <= |items| <= k
      ensures Valid() && this.k == k && fresh(this) && forall s :: s in sets ==> fresh(s)
      ensures Value() == NewSplit(items, k)
    {
      this.k := k;
      var made: seq<PartSet> := [];
      for i := 0 to k
        invariant |made| == i && Distinct(made)
        invariant forall j :: 0 <= j < i ==> fresh(made[j])
        invariant forall j :: 0 <= j < i ==> made[j].Value() == Unsorted(items, k)[j]
      {
        var one := new PartSet();
        if i < |items| {
          one.Add(items[i].idx, items[i].val);
        }
        made := made + [one];
      }
      assert Values(made) == Unsorted(items, k);
      var sorted := SortSets(made);
      sets := sorted;
    }

    method GetPartitions() returns (partitions: seq<seq<nat>>)
      ensures partitions == PartitionsOf(Value())
    {
      partitions := [];
      for i := 0 to |sets|
        invariant partitions == PartitionsOf(Value())[..i]
      {
        var current: seq<nat> := [];
        for n := 0 to |sets[i].items|
          invariant current == Indices(sets[i].items)[..n]
        {
          current := current + [sets[i].items[n].idx];
        }
        assert current == Indices(sets[i].items) == PartitionsOf(Value())[i];
        partitions := partitions + [current];
      }
    }

    /** Set i absorbs set k-1-i of `other`; then the sets are put back in order. */
    method Merge(other: State)
      requires Valid() && other.Valid() && other.k == k
      requires Apart(other)
      modifies this, sets
      ensures Valid() && forall p :: p in sets <==> p in old(sets)
      ensures Value() == MergeSplits(old(Value()), old(other.Value()))
    {
      ghost var a, b := Value(), other.Value();
      CrossMergeInto(sets, other.sets);
      assert Values(sets) == CrossMerge(a, b);
      var sorted := SortSets(sets);
      assert Values(sorted) == MergeSplits(a, b);
      sets := sorted;
    }
  }

  // ---------- the queue ----------

  /** The queued states share no objects. */
  ghost predicate QueueValid(pq: seq<State>, k: nat)
    reads pq
  {
    && (forall i :: 0 <= i < |pq| ==> pq[i].Valid() && pq[i].k == k)
    && forall i, j :: 0 <= i < |pq| && 0 <= j < |pq| && i != j ==> pq[i].Apart(pq[j])
  }

  /** `owned` covers the set objects the queued states are made of. */
  ghost predicate Covers(owned: set<PartSet>, pq: seq<State>)
    reads pq
  {
    forall n, p :: 0 <= n < |pq| && p in pq[n].sets ==> p in owned
  }

  lemma QueueAfterRemove(pq: seq<State>, k: nat, m: nat)
    requires QueueValid(pq, k) && m < |pq|
    ensures QueueValid(RemoveAt(pq, m), k)
    ensures forall i :: 0 <= i < |pq| - 1 ==> pq[m].Apart(RemoveAt(pq, m)[i])
  {
    var rest := RemoveAt(pq, m);
    forall i | 0 <= i < |rest| ensures rest[i] == pq[if i < m then i else i + 1] {}
  }

  lemma ValuesAfterRemove(pq: seq<State>, q: seq<Split>, m: nat)
    requires |q| == |pq| && m < |pq| && forall i :: 0 <= i < |pq| ==> pq[i].Value() == q[i]
    ensures forall i :: 0 <= i < |pq| - 1 ==> RemoveAt(pq, m)[i].Value() == RemoveAt(q, m)[i]
  {
    forall i | 0 <= i < |pq| - 1 ensures RemoveAt(pq, m)[i].Value() == RemoveAt(q, m)[i] {
      var n := if i < m then i else i + 1;
      assert RemoveAt(pq, m)[i] == pq[n] && RemoveAt(q, m)[i] == q[n];
    }
  }

  /** Where `heappop` finds the least state; `q` lists the values the states carry. */
  method LeastIndex(pq: seq<State>, ghost q: seq<Split>) returns (m: nat)
    requires |q| == |pq| > 0 && forall i :: 0 <= i < |pq| ==> q[i] != []
    requires forall i :: 0 <= i < |pq| ==> pq[i].Value() == q[i]
    ensures m < |pq| && m == Least(q)
    ensures forall k :: QueueOk(q, k) ==> forall s :: s in q ==> ComesFirst(pq[m].Value(), s, k)
  {
    m := 0;
    for n := 1 to |pq|
      invariant m < n && m == Least(q[..n])
    {
      assert q[..n + 1][..n] == q[..n];
      if SplitLess(pq[n].Value(), pq[m].Value()) {
        m := n;
      }
    }
    assert q[..|pq|] == q;
    forall k, s | QueueOk(q, k) && s in q ensures ComesFirst(q[m], s, k) {
      LeastComesFirst(q, k, s);
    }
  }

  /** Both pops of a turn: positions in the queue and in what the first pop leaves. */
  method TwoLeast(pq: seq<State>, ghost q: seq<Split>, k: nat) returns (i: nat, j: nat)
    requires QueueOk(q, k) && |q| == |pq| >= 2
    requires forall n :: 0 <= n < |pq| ==> pq[n].Value() == q[n]
    ensures i < |pq| && j < |pq| - 1 && |q[i]| == |RemoveAt(q, i)[j]| == k
    ensures Step(q, k) == RemoveAt(RemoveAt(q, i), j) + [MergeSplits(q[i], RemoveAt(q, i)[j])]
    ensures forall n :: 0 <= n < |pq| ==> pq[n].Value() == q[n]
  {
    i := LeastIndex(pq, q);
    RemoveKeepsQueueOk(q, k, i);
    ValuesAfterRemove(pq, q, i);
    j := LeastIndex(RemoveAt(pq, i), RemoveAt(q, i));
    StepByPositions(q, k, i, j);
  }

  twostate lemma Untouched(t: State)
    requires t.sets == old(t.sets)
    requires forall p :: p in t.sets ==> p.sum == old(p.sum) && p.items == old(p.items)
    ensures t.Value() == old(t.Value())
  {
    assert forall j :: 0 <= j < |t.sets| ==> t.sets[j] in t.sets;
  }

  /** Merges `state1` into `state0` and pushes it back; `v` lists the values of the states left alone. */
  method MergeAndPush(state0: State, state1: State, rest: seq<State>, ghost v: seq<Split>, k: nat)
    returns (r: seq<State>)
    requires QueueValid(rest + [state0], k) && state0.Valid() && state1.Valid()
    requires state0.k == state1.k == k && state0.Apart(state1)
    requires |v| == |rest| && forall n :: 0 <= n < |rest| ==> rest[n].Value() == v[n]
    modifies state0, state0.sets
    ensures r == rest + [state0] && QueueValid(r, k)
    ensures forall p :: p in state0.sets <==> p in old(state0.sets)
    ensures state0.Value() == MergeSplits(old(state0.Value()), old(state1.Value()))
    ensures forall n :: 0 <= n < |rest| ==> rest[n].Value() == v[n]
    ensures forall n :: 0 <= n < |rest| ==> rest[n].sets == old(rest[n].sets)
  {
    r := rest + [state0];
    forall n | 0 <= n < |rest| ensures state0.Apart(rest[n]) && rest[n].Apart(state0) {
      assert rest[n] == r[n] && state0 == r[|rest|];
    }
    state0.Merge(state1);
    forall n | 0 <= n < |rest| ensures rest[n].Value() == v[n] {
      Untouched(rest[n]);
    }
  }

  lemma PoppedQueueValid(pq: seq<State>, k: nat, i: nat, j: nat)
    requires QueueValid(pq, k) && i < |pq| && j < |pq| - 1
    ensures QueueValid(RemoveAt(RemoveAt(pq, i), j) + [pq[i]], k)
    ensures pq[i].Apart(RemoveAt(pq, i)[j]) && RemoveAt(pq, i)[j] in pq
    ensures forall n :: 0 <= n < |pq| - 2 ==> RemoveAt(RemoveAt(pq, i), j)[n] in pq
  {
    QueueAfterRemove(pq, k, i);
    QueueAfterRemove(RemoveAt(pq, i), k, j);
    var rest := RemoveAt(RemoveAt(pq, i), j);
    forall n | 0 <= n < |rest| ensures rest[n] in RemoveAt(pq, i) && pq[i].Apart(rest[n]) {
      assert rest[n] == RemoveAt(pq, i)[if n < j then n else n + 1];
    }
  }

  method MergeAt(pq: seq<State>, ghost q: seq<Split>, k: nat, i: nat, j: nat, ghost owned: set<PartSet>)
    returns (r: seq<State>)
    requires QueueValid(pq, k) && Covers(owned, pq) && |q| == |pq| && i < |pq| && j < |pq| - 1
    requires |q[i]| == |RemoveAt(q, i)[j]| == k
    requires forall n :: 0 <= n < |pq| ==> pq[n].Value() == q[n]
    modifies pq, owned
    ensures QueueValid(r, k) && Covers(owned, r) && |r| == |pq| - 1
    ensures var v := RemoveAt(RemoveAt(q, i), j) + [MergeSplits(q[i], RemoveAt(q, i)[j])];
      forall n :: 0 <= n < |r| ==> r[n] in pq && r[n].Value() == v[n]
  {
    var state1, rest := RemoveAt(pq, i)[j], RemoveAt(RemoveAt(pq, i), j);
    ghost var b, v := RemoveAt(q, i)[j], RemoveAt(RemoveAt(q, i), j);
    PoppedQueueValid(pq, k, i, j);
    ValuesAfterRemove(pq, q, i);
    ValuesAfterRemove(RemoveAt(pq, i), RemoveAt(q, i), j);
    assert pq[i].Value() == q[i] && state1.Value() == b;
    assert forall p :: p in pq[i].sets ==> p in owned;
    r := MergeAndPush(pq[i], state1, rest, v, k);
    forall n | 0 <= n < |r| ensures r[n] in pq && forall p :: p in r[n].sets ==> p in owned {
      assert r[n] == if n < |rest| then rest[n] else pq[i];
    }
  }

  /** One turn of the `while len(states_pq) > 1` loop. */
  method MergeLeastTwo(pq: seq<State>, ghost q: seq<Split>, k: nat, ghost owned: set<PartSet>)
    returns (r: seq<State>)
    requires QueueValid(pq, k) && Covers(owned, pq) && QueueOk(q, k) && |q| == |pq| >= 2
    requires forall n :: 0 <= n < |pq| ==> pq[n].Value() == q[n]
    modifies pq, owned
    ensures QueueValid(r, k) && Covers(owned, r) && |r| == |pq| - 1
    ensures forall n :: 0 <= n < |r| ==> r[n] in pq && r[n].Value() == Step(q, k)[n]
    ensures TurnOf(q, k, Step(q, k))
  {
    StepIsTurn(q, k);
    var i, j := TwoLeast(pq, q, k);
    r := MergeAt(pq, q, k, i, j, owned);
  }

  // ---------- the whole algorithm ----------

  /** Queued states and all their set objects were allocated by the running call. */
  twostate predicate AllFresh(new pq: seq<State>)
    reads pq
  {
    forall s :: s in pq ==> fresh(s) && forall p :: p in s.sets ==> fresh(p)
  }

  method Push(pq: seq<State>, ghost q: seq<Split>, items: seq<Item>, k: nat) returns (r: seq<State>)
    requires 1 <= |items| <= k && QueueValid(pq, k)
    requires |q| == |pq| && forall n :: 0 <= n < |pq| ==> pq[n].Value() == q[n]
    ensures |r| == |pq| + 1 && r[..|pq|] == pq && QueueValid(r, k)
    ensures fresh(r[|pq|]) && forall p :: p in r[|pq|].sets ==> fresh(p)
    ensures forall n :: 0 <= n < |r| ==> r[n].Value() == (q + [NewSplit(items, k)])[n]
  {
    var s := new State(items, k);
    r := pq + [s];
  }

  lemma {:induction false} SinglesAt(items: seq<Item>, k: nat, n: nat)
    requires n < |items|
    ensures Singles(items, k)[..n + 1] == Singles(items, k)[..n] + [NewSplit([items[n]], k)]
  {
    if n == 0 {
      assert items[..1] == [items[0]];
    } else {
      SinglesAt(items[1..], k, n - 1);
      assert Singles(items, k)[n] == Singles(items[1..], k)[n - 1];
    }
  }

  /** `heappush` of one new state per item. */
  method BuildSingles(items: seq<Item>, k: nat) returns (pq: seq<State>)
    requires k >= 1
    ensures AllFresh(pq) && QueueValid(pq, k) && |pq| == |items|
    ensures forall n :: 0 <= n < |pq| ==> pq[n].Value() == Singles(items, k)[n]
  {
    pq := [];
    for n := 0 to |items|
      invariant AllFresh(pq) && QueueValid(pq, k) && |pq| == n
      invariant forall m :: 0 <= m < |pq| ==> pq[m].Value() == Singles(items, k)[m]
    {
      SinglesAt(items, k, n);
      pq := Push(pq, Singles(items, k)[..n], [items[n]], k);
    }
  }

  predicate WholeGroups(n: int, k: nat)
    requires k >= 1
  {
    n % k == 0
  }

  lemma GroupFits(n: nat, k: nat)
    requires n > 0 && k >= 1 && WholeGroups(n, k)
    ensures k <= n && WholeGroups(n - k, k)
  {
    MultipleMinus(n, k);
  }

  /** The place where group g begins. */
  predicate BeginsAt(offset: nat, g: nat, k: nat) {
    offset == g * k
  }

  lemma BeginsNext(offset: nat, g: nat, k: nat)
    requires BeginsAt(offset, g, k)
    ensures BeginsAt(offset + k, g + 1, k)
  {
  }

  lemma GroupsLater(items: seq<Item>, k: nat, g: nat)
    requires k >= 1 && items != [] && WholeGroups(|items|, k)
    ensures |items| >= k && WholeGroups(|items| - k, k)
    ensures g < |Groups(items[k..], k)| ==>
      g + 1 < |Groups(items, k)| && Groups(items, k)[g + 1] == Groups(items[k..], k)[g]
  {
    MultipleMinus(|items|, k);
  }

  lemma LaterSlice<T>(s: seq<T>, k: nat, from: nat)
    requires k <= from && from + k <= |s|
    ensures s[k..][from - k..from] == s[from..from + k]
  {
  }

  lemma BeginsBefore(offset: nat, g: nat, k: nat)
    requires BeginsAt(offset, g, k) && k >= 1 && g >= 1
    ensures offset >= k && BeginsAt(offset - k, g - 1, k)
  {
    MulMonotonic(k, 1, g);
  }

  lemma GroupFirst(items: seq<Item>, k: nat)
    requires k >= 1 && items != [] && WholeGroups(|items|, k)
    ensures |items| >= k && Groups(items, k)[0] == NewSplit(items[0..k], k)
  {
    MultipleMinus(|items|, k);
    assert items[..k] == items[0..k];
  }

  lemma {:induction false} GroupAt(items: seq<Item>, k: nat, offset: nat, g: nat)
    requires k >= 1 && WholeGroups(|items|, k) && BeginsAt(offset, g, k) && offset + k <= |items|
    ensures g < |Groups(items, k)| && Groups(items, k)[g] == NewSplit(items[offset..offset + k], k)
    decreases g
  {
    if g == 0 {
      GroupFirst(items, k);
    } else {
      BeginsBefore(offset, g, k);
      GroupsLater(items, k, g - 1);
      GroupAt(items[k..], k, offset - k, g - 1);
      LaterSlice(items, k, offset);
    }
  }

  lemma {:induction false} GroupTotal(items: seq<Item>, k: nat)
    requires k >= 1 && WholeGroups(|items|, k)
    ensures BeginsAt(|items|, |Groups(items, k)|, k)
    decreases |items|
  {
    if items != [] {
      MultipleMinus(|items|, k);
      GroupTotal(items[k..], k);
      BeginsNext(|items| - k, |Groups(items[k..], k)|, k);
    }
  }

  lemma SameGroup(offset: nat, g: nat, h: nat, k: nat)
    requires k >= 1 && BeginsAt(offset, g, k) && BeginsAt(offset, h, k)
    ensures g == h
  {
    if g < h { MulMonotonic(k, g + 1, h); } else if h < g { MulMonotonic(k, h + 1, g); }
  }

  /** `heappush` of one new state per run of k items. */
  method BuildGroups(items: seq<Item>, k: nat) returns (pq: seq<State>)
    requires k >= 1 && |items| % k == 0
    ensures AllFresh(pq) && QueueValid(pq, k) && |pq| == |Groups(items, k)|
    ensures forall n :: 0 <= n < |pq| ==> pq[n].Value() == Groups(items, k)[n]
  {
    pq := [];
    ghost var all := Groups(items, k);
    GroupTotal(items, k);
    var offset := 0;
    while offset < |items|
      invariant offset <= |items| && WholeGroups(|items| - offset, k)
      invariant AllFresh(pq) && QueueValid(pq, k) && BeginsAt(offset, |pq|, k) && |pq| <= |all|
      invariant forall m :: 0 <= m < |pq| ==> pq[m].Value() == all[m]
      decreases |items| - offset
    {
      GroupFits(|items| - offset, k);
      GroupAt(items, k, offset, |pq|);
      BeginsNext(offset, |pq|, k);
      var group := items[offset..offset + k];
      pq := Push(pq, all[..|pq|], group, k);
      offset := offset + k;
    }
    SameGroup(offset, |pq|, |all|, k);
  }

  /** The merge loop: what is left is the run's final state. */
  method MergeAll(pq0: seq<State>, ghost q0: seq<Split>, k: nat, ghost owned: set<PartSet>) returns (s: State)
    requires QueueValid(pq0, k) && Covers(owned, pq0) && QueueOk(q0, k) && |q0| == |pq0| >= 1
    requires forall n :: 0 <= n < |pq0| ==> pq0[n].Value() == q0[n]
    modifies pq0, owned
    ensures s.Value() == Run(q0, k)
  {
    var pq := pq0;
    ghost var q := q0;
    while |pq| > 1
      invariant QueueValid(pq, k) && Covers(owned, pq) && QueueOk(q, k) && |q| == |pq| >= 1
      invariant forall n :: 0 <= n < |pq| ==> pq[n] in pq0 && pq[n].Value() == q[n]
      invariant Run(q, k) == Run(q0, k)
    {
      pq := MergeLeastTwo(pq, q, k, owned);
      q := Step(q, k);
    }
    s := pq[0];
  }

  /** The queue as the first half of `karmarkar_karp` leaves it. */
  method BuildInitial(lens: seq<nat>, k: nat, equalSize: bool) returns (pq: seq<State>, ghost owned: set<PartSet>)
    requires k >= 1 && (equalSize ==> |lens| % k == 0)
    ensures AllFresh(pq) && fresh(owned) && QueueValid(pq, k) && Covers(owned, pq)
    ensures |pq| == |Initial(lens, k, equalSize)|
    ensures forall n :: 0 <= n < |pq| ==> pq[n].Value() == Initial(lens, k, equalSize)[n]
  {
    var items := SortItems(Indexed(lens));
    if equalSize {
      pq := BuildGroups(items, k);
    } else {
      pq := BuildSingles(items, k);
    }
    owned := set n, p | 0 <= n < |pq| && p in pq[n].sets :: p;
    assert forall n :: 0 <= n < |pq| ==> pq[n] in pq;
  }

  method RunQueue(lens: seq<nat>, k: nat, equalSize: bool) returns (partitions: seq<seq<nat>>)
    requires k >= 1 && |lens| >= 1 && (equalSize ==> |lens| % k == 0)
    ensures partitions == PartitionsOf(FinalState(lens, k, equalSize))
  {
    var pq, owned := BuildInitial(lens, k, equalSize);
    InitialOk(lens, k, equalSize);
    var final := MergeAll(pq, Initial(lens, k, equalSize), k, owned);
    partitions := final.GetPartitions();
  }

  /** The condition asserted of every partition in equal mode. */
  predicate ExactShare(part: seq<nat>, k: int, n: nat) {
    |part| * k == n
  }

  predicate ExactShares(partitions: seq<seq<nat>>, k: int, n: nat) {
    forall i :: 0 <= i < |partitions| ==> ExactShare(partitions[i], k, n)
  }

  method SizesPass(partitions: seq<seq<nat>>, k: int, n: nat) returns (passed: bool)
    ensures passed <==> ExactShares(partitions, k, n)
  {
    for i := 0 to |partitions|
      invariant forall j :: 0 <= j < i ==> ExactShare(partitions[j], k, n)
    {
      if !ExactShare(partitions[i], k, n) {
        return false;
      }
    }
    return true;
  }

  /** The closing assert of `karmarkar_karp` holds of every result. */
  lemma FinalSizesPass(lens: seq<nat>, k: nat)
    requires k >= 1 && |lens| >= 1 && |lens| % k == 0
    ensures ExactShares(PartitionsOf(FinalState(lens, k, true)), k, |lens|)
  {
    var ps := PartitionsOf(FinalState(lens, k, true));
    InitialOk(lens, k, true);
    forall i | 0 <= i < |ps| ensures ExactShare(ps[i], k, |lens|) {
      FinalEqualSizes(lens, k, i);
      ExactDivision(|lens|, k);
    }
  }

  /** `karmarkar_karp` */
  method Partition(lens: seq<nat>, k: int, equalSize: bool) returns (r: Result<seq<seq<nat>>>)
    ensures r.Ok? <==> k >= 1 && |lens| >= 1 && (equalSize ==> |lens| % k == 0)
    ensures r.Ok? ==> r.value == PartitionsOf(FinalState(lens, k, equalSize))
    ensures r.Err? && equalSize && k == 0 ==> r.failure == DivisionByZero
    ensures r.Err? && equalSize && k != 0 && |lens| % k != 0 ==> r.failure == FailedAssert
    ensures r.Err? && (equalSize ==> k != 0 && |lens| % k == 0) ==> r.failure == IndexOutOfRange
  {
    if equalSize && k == 0 {
      return Err(DivisionByZero);
    } else if equalSize && |lens| % k != 0 {
      return Err(FailedAssert);
    } else if k < 1 || lens == [] {
      // no usable state is ever built: the first set, or the first state, does not exist
      return Err(IndexOutOfRange);
    }
    var partitions := RunQueue(lens, k, equalSize);
    if equalSize {
      var passed := SizesPass(partitions, k, |lens|);
      FinalSizesPass(lens, k);
      if !passed {
        return Err(FailedAssert);
      }
    }
    return Ok(partitions);
  }

  // ---------- get_seqlen_balanced_partitions ----------

  /** `_check_and_sort_partitions`: its asserts, in order, then the sorted copies. */
  method CheckAndSort(partitions: seq<seq<nat>>, k: int, n: nat) returns (r: Result<seq<seq<nat>>>)
    ensures r.Ok? <==>
      && |partitions| == k
      && (forall i :: 0 <= i < k ==> partitions[i] != [])
      && (set x | x in Flatten(partitions)) == set x | x in Range(n)
    ensures r.Ok? ==> r.value == SortAll(partitions) && forall i :: 0 <= i < k ==> NonDecreasing(r.value[i])
    ensures r.Err? ==> r.failure == FailedAssert
  {
    if |partitions| != k {
      return Err(FailedAssert);
    }
    var seen: set<nat> := {};
    var sorted: seq<seq<nat>> := [];
    for i := 0 to k
      invariant forall j :: 0 <= j < i ==> partitions[j] != []
      invariant seen == set x | x in Flatten(partitions[..i])
      invariant sorted == SortAll(partitions)[..i]
    {
      if partitions[i] == [] {
        return Err(FailedAssert);
      }
      for m := 0 to |partitions[i]|
        invariant seen == set x | x in Flatten(partitions[..i]) + partitions[i][..m]
      {
        seen := seen + {partitions[i][m]};
      }
      assert partitions[..i + 1] == partitions[..i] + [partitions[i]];
      FlattenSnoc(partitions[..i], partitions[i]);
      sorted := sorted + [SortIndices(partitions[i])];
    }
    assert partitions[..k] == partitions;
    if seen != set x | x in Range(n) {
      return Err(FailedAssert);
    }
    SortAllSorted(partitions);
    return Ok(sorted);
  }

  lemma SameElements(a: seq<nat>, b: seq<nat>)
    requires IsPermutation(a, b)
    ensures (set x | x in a) == (set x | x in b)
  {
    forall x ensures x in a <==> x in b {
      assert x in multiset(a) <==> x in multiset(b);
    }
  }

  /** Every condition `_check_and_sort_partitions` asserts holds of what `karmarkar_karp` returns. */
  lemma FinalStatePasses(lens: seq<nat>, k: nat, equalSize: bool)
    requires |lens| >= k >= 1 && (equalSize ==> |lens| % k == 0)
    ensures var ps := PartitionsOf(FinalState(lens, k, equalSize));
      && |ps| == k
      && (forall i :: 0 <= i < k ==> ps[i] != [])
      && (set x | x in Flatten(ps)) == set x | x in Range(|lens|)
  {
    var ps := PartitionsOf(FinalState(lens, k, equalSize));
    InitialOk(lens, k, equalSize);
    forall i | 0 <= i < k ensures ps[i] != [] {
      BalancedShape(lens, k, equalSize, i);
      assert |SortIndices(ps[i])| == |ps[i]|;
    }
    FinalExactCover(lens, k, equalSize);
    SameElements(Flatten(ps), Range(|lens|));
  }

  /**
   The caller's view: given as many lengths as partitions (and an even split in equal mode) no assert
   fires, and the result is the balanced partition; otherwise it fails.
   */
  method BalancedPartitions(lens: seq<nat>, k: int, equalSize: bool) returns (r: Result<seq<seq<nat>>>)
    ensures r.Ok? <==> |lens| >= k >= 1 && (equalSize ==> |lens| % k == 0)
    ensures r.Ok? ==> r.value == Balanced(lens, k, equalSize) && forall i :: 0 <= i < k ==> NonDecreasing(r.value[i])
  {
    if |lens| < k {
      return Err(FailedAssert);
    }
    r := Partition(lens, k, equalSize);
    if r.Ok? {
      var partitions := r.value;
      FinalStatePasses(lens, k, equalSize);
      r := CheckAndSort(partitions, k, |lens|);
    }
  }
}
