/**
 From a list of lengths to partitions: the initial queue of `karmarkar_karp`, its result,
 and what get_seqlen_balanced_partitions promises about it.
 */
module KarmarkarKarpResult {
  import opened Arithmetic
  import opened Sequences
  import opened Sorting
  import opened KarmarkarKarp
  import opened KarmarkarKarpRun

  // ---------- sorted([(seqlen, i) ...]) ----------

  /** Each length with its position. */
  function Indexed(lens: seq<nat>): seq<Item> {
    seq(|lens|, i requires 0 <= i < |lens| => Item(i, lens[i]))
  }

  predicate LengthOrder(a: Item, b: Item) {
    a.val < b.val || (a.val == b.val && a.idx <= b.idx)
  }

  predicate Ascending(items: seq<Item>) {
    forall i, j :: 0 <= i < j < |items| ==> LengthOrder(items[i], items[j])
  }

  function SortItems(s: seq<Item>): (r: seq<Item>)
    ensures |r| == |s|
  {
    Sort(s, LengthOrder)
  }

  lemma SortItemsPermutes(s: seq<Item>)
    ensures IsPermutation(SortItems(s), s)
  {
    SortPermutes(s, LengthOrder);
  }

  lemma SortItemsAscending(s: seq<Item>)
    ensures Ascending(SortItems(s))
  {
    SortInOrder(s, LengthOrder);
    var r := SortItems(s);
    forall i, j | 0 <= i < j < |r| ensures LengthOrder(r[i], r[j]) {
    }
  }

  /** The items are the lengths with their positions, shorter ones first, equal ones by position. */
  lemma ItemsByLength(lens: seq<nat>)
    ensures var items := SortItems(Indexed(lens));
      && |items| == |lens|
      && (forall i :: 0 <= i < |items| ==> items[i].idx < |lens| && items[i].val == lens[items[i].idx])
      && (forall i, j :: 0 <= i < j < |items| ==>
           items[i].val < items[j].val || (items[i].val == items[j].val && items[i].idx <= items[j].idx))
  {
    var items := SortItems(Indexed(lens));
    SortItemsPermutes(Indexed(lens));
    SortItemsAscending(Indexed(lens));
    forall i | 0 <= i < |items| ensures items[i].idx < |lens| && items[i].val == lens[items[i].idx] {
      var j := PermutationFind(items, Indexed(lens), i);
    }
    forall i, j | 0 <= i < j < |items|
      ensures items[i].val < items[j].val || (items[i].val == items[j].val && items[i].idx <= items[j].idx)
    {
      assert LengthOrder(items[i], items[j]);
    }
  }

  // ---------- the initial queue ----------

  /** `State(items, k)`: one item per set, as far as the items go, largest set first. */
  function Unsorted(items: seq<Item>, k: nat): (s: Split)
    ensures |s| == k
  {
    seq(k, i requires 0 <= i < k => if i < |items| then Part(items[i].val, [items[i]]) else EMPTY)
  }

  function NewSplit(items: seq<Item>, k: nat): Split {
    SortDescending(Unsorted(items, k))
  }

  function Singles(items: seq<Item>, k: nat): (q: seq<Split>)
    ensures |q| == |items|
  {
    if items == [] then [] else [NewSplit(items[..1], k)] + Singles(items[1..], k)
  }

  function Groups(items: seq<Item>, k: nat): (q: seq<Split>)
    requires k >= 1 && |items| % k == 0
    ensures |items| > 0 ==> |q| > 0
  {
    if items == [] then []
    else
      assert |items| >= k && (|items| - k) % k == 0 by { MultipleMinus(|items|, k); }
      [NewSplit(items[..k], k)] + Groups(items[k..], k)
  }

  function Initial(lens: seq<nat>, k: nat, equalSize: bool): (q: seq<Split>)
    requires k >= 1 && (equalSize ==> |lens| % k == 0)
    ensures |lens| > 0 ==> |q| > 0
  {
    var items := SortItems(Indexed(lens));
    if equalSize then Groups(items, k) else Singles(items, k)
  }

  lemma {:induction false} ItemsOfEmpties(k: nat)
    ensures ItemsOf(Unsorted([], k)) == multiset{}
  {
    if k > 0 {
      assert Unsorted([], k) == [EMPTY] + Unsorted([], k - 1);
      ItemsOfCons(EMPTY, Unsorted([], k - 1));
      ItemsOfEmpties(k - 1);
    }
  }

  lemma {:induction false} ItemsOfUnsorted(items: seq<Item>, k: nat)
    requires |items| <= k
    ensures ItemsOf(Unsorted(items, k)) == multiset(items)
  {
    if items == [] {
      ItemsOfEmpties(k);
    } else {
      var first := Part(items[0].val, [items[0]]);
      assert Unsorted(items, k) == [first] + Unsorted(items[1..], k - 1);
      ItemsOfCons(first, Unsorted(items[1..], k - 1));
      ItemsOfUnsorted(items[1..], k - 1);
      assert items == [items[0]] + items[1..];
    }
  }

  lemma NewSplitOk(items: seq<Item>, k: nat)
    requires 1 <= |items| <= k
    ensures WellFormed(NewSplit(items, k), k)
    ensures ItemsOf(NewSplit(items, k)) == multiset(items)
    ensures Filled(NewSplit(items, k)) == |items|
  {
    var u, s := Unsorted(items, k), NewSplit(items, k);
    SortDescendingPermutes(u);
    SortDescendingIsDescending(u);
    ItemsOfUnsorted(items, k);
    ItemsOfPermutation(s, u);
    CountUnused(u, |items|, k);
    FilledPermutation(s, u);
    forall i | 0 <= i < k ensures s[i].sum == SumVals(s[i].items) {
      var j := PermutationFind(s, u, i);
    }
  }

  lemma NewSplitEven(items: seq<Item>, k: nat)
    requires |items| == k >= 1
    ensures Even(NewSplit(items, k)) && FirstSize()(NewSplit(items, k)) == 1
  {
    var u, s := Unsorted(items, k), NewSplit(items, k);
    SortDescendingPermutes(u);
    forall i | 0 <= i < k ensures |s[i].items| == 1 {
      var j := PermutationFind(s, u, i);
    }
  }

  lemma NewSplitSpread(items: seq<Item>, k: nat, lo: int, hi: int)
    requires 1 <= |items| <= k
    requires forall i :: 0 <= i < k ==> lo <= Unsorted(items, k)[i].sum <= hi
    ensures Spread(NewSplit(items, k)) <= hi - lo
  {
    var u, s := Unsorted(items, k), NewSplit(items, k);
    SortDescendingPermutes(u);
    var i := PermutationFind(s, u, 0);
    var j := PermutationFind(s, u, k - 1);
  }

  // ---------- unequal mode ----------

  lemma QueueOkCons(s: Split, q: seq<Split>, k: nat)
    requires QueueOk(q, k) && WellFormed(s, k)
    ensures QueueOk([s] + q, k)
  {
  }

  lemma {:induction false} SinglesOk(items: seq<Item>, k: nat)
    requires k >= 1
    ensures QueueOk(Singles(items, k), k)
    ensures forall s :: s in Singles(items, k) ==> Filled(s) == 1
  {
    if items != [] {
      NewSplitOk(items[..1], k);
      SinglesOk(items[1..], k);
      QueueOkCons(NewSplit(items[..1], k), Singles(items[1..], k), k);
    }
  }

  lemma {:induction false} SinglesUsed(items: seq<Item>, k: nat)
    requires k >= 1
    ensures Tally(Singles(items, k), Used()) == |items|
  {
    if items != [] {
      NewSplitOk(items[..1], k);
      SinglesUsed(items[1..], k);
    }
  }

  lemma {:induction false} SinglesSpread(items: seq<Item>, k: nat, bound: nat)
    requires k >= 1 && forall x :: x in items ==> x.val <= bound
    ensures forall s :: s in Singles(items, k) ==> s != [] && Spread(s) <= bound
  {
    if items != [] {
      NewSplitSpread(items[..1], k, 0, bound);
      SinglesSpread(items[1..], k, bound);
    }
  }

  lemma {:induction false} SinglesHold(items: seq<Item>, k: nat, x: Item)
    requires k >= 1
    ensures Tally(Singles(items, k), Holds(x)) == multiset(items)[x]
  {
    if items != [] {
      NewSplitOk(items[..1], k);
      SinglesHold(items[1..], k, x);
      assert items == items[..1] + items[1..];
    }
  }

  // ---------- equal mode ----------

  /** The widest length gap inside one run of k consecutive items of the sorted list is at most `bound`. */
  predicate GroupGapsWithin(items: seq<Item>, k: nat, bound: int)
    requires k >= 1 && |items| % k == 0
    decreases |items|
  {
    items == [] ||
    (MultipleMinus(|items|, k);
     items[k - 1].val - items[0].val <= bound && GroupGapsWithin(items[k..], k, bound))
  }

  lemma {:induction false} GroupsOk(items: seq<Item>, k: nat)
    requires k >= 1 && |items| % k == 0
    ensures QueueOk(Groups(items, k), k)
    ensures forall s :: s in Groups(items, k) ==> Even(s) && Filled(s) == k
    decreases |items|
  {
    if items != [] {
      MultipleMinus(|items|, k);
      NewSplitOk(items[..k], k);
      NewSplitEven(items[..k], k);
      GroupsOk(items[k..], k);
      QueueOkCons(NewSplit(items[..k], k), Groups(items[k..], k), k);
    }
  }

  lemma TallyCons(s: Split, q: seq<Split>, f: Split -> int)
    ensures Tally([s] + q, f) == f(s) + Tally(q, f)
  {
    assert ([s] + q)[1..] == q;
  }

  lemma OneMore(first: Split, q: seq<Split>, k: nat)
    requires FirstSize()(first) == 1
    ensures Tally([first] + q, FirstSize()) * k == Tally(q, FirstSize()) * k + k
  {
    TallyCons(first, q, FirstSize());
  }

  lemma {:induction false} GroupsCount(items: seq<Item>, k: nat)
    requires k >= 1 && |items| % k == 0
    ensures Tally(Groups(items, k), FirstSize()) * k == |items|
    decreases |items|
  {
    if items != [] {
      var first, rest := NewSplit(items[..k], k), items[k..];
      MultipleMinus(|items|, k);
      GroupsCount(rest, k);
      OneMore(first, Groups(rest, k), k) by { NewSplitEven(items[..k], k); }
    }
  }

  lemma {:induction false} GroupsSpread(items: seq<Item>, k: nat, bound: int)
    requires k >= 1 && |items| % k == 0 && Ascending(items) && GroupGapsWithin(items, k, bound)
    ensures forall s :: s in Groups(items, k) ==> s != [] && Spread(s) <= bound
    decreases |items|
  {
    if items != [] {
      MultipleMinus(|items|, k);
      NewSplitSpread(items[..k], k, items[0].val, items[k - 1].val);
      GroupsSpread(items[k..], k, bound);
    }
  }

  lemma {:induction false} GroupsHold(items: seq<Item>, k: nat, x: Item)
    requires k >= 1 && |items| % k == 0
    ensures Tally(Groups(items, k), Holds(x)) == multiset(items)[x]
    decreases |items|
  {
    if items != [] {
      MultipleMinus(|items|, k);
      var first, rest := items[..k], items[k..];
      assert Holds(x)(NewSplit(first, k)) == multiset(first)[x] by { NewSplitOk(first, k); }
      GroupsHold(rest, k, x);
      assert Groups(items, k) == [NewSplit(first, k)] + Groups(rest, k);
      assert items == first + rest;
    }
  }

  // ---------- the final state ----------

  function Indices(items: seq<Item>): (r: seq<nat>)
    ensures |r| == |items|
  {
    seq(|items|, i requires 0 <= i < |items| => items[i].idx)
  }

  /** `get_partitions`. */
  function PartitionsOf(s: Split): (r: seq<seq<nat>>)
    ensures |r| == |s|
  {
    seq(|s|, i requires 0 <= i < |s| => Indices(s[i].items))
  }

  lemma InitialOk(lens: seq<nat>, k: nat, equalSize: bool)
    requires k >= 1 && (equalSize ==> |lens| % k == 0)
    ensures QueueOk(Initial(lens, k, equalSize), k)
  {
    var items := SortItems(Indexed(lens));
    if equalSize {
      GroupsOk(items, k);
    } else {
      SinglesOk(items, k);
    }
  }

  function FinalState(lens: seq<nat>, k: nat, equalSize: bool): Split
    requires k >= 1 && |lens| >= 1 && (equalSize ==> |lens| % k == 0)
  {
    InitialOk(lens, k, equalSize);
    Run(Initial(lens, k, equalSize), k)
  }

  predicate InRange(part: seq<nat>, n: nat) {
    forall i :: 0 <= i < |part| ==> part[i] < n
  }

  /** Total length of the sequences a partition names. */
  function Load(lens: seq<nat>, part: seq<nat>): nat
    requires InRange(part, |lens|)
  {
    if part == [] then 0 else lens[part[0]] + Load(lens, part[1..])
  }

  lemma IndicesRemove(b: seq<Item>, i: nat)
    requires i < |b|
    ensures multiset(Indices(b)) == multiset(Indices(RemoveAt(b, i))) + multiset{b[i].idx}
  {
    assert Indices(RemoveAt(b, i)) == RemoveAt(Indices(b), i);
    RemoveAtMultiset(Indices(b), i);
  }

  lemma {:induction false} IndicesPermutation(a: seq<Item>, b: seq<Item>)
    requires IsPermutation(a, b)
    ensures IsPermutation(Indices(a), Indices(b))
  {
    PermutationSize(a, b);
    if a != [] {
      var i := PermutationStep(a, b);
      IndicesRemove(a, 0);
      IndicesRemove(b, i);
      assert RemoveAt(a, 0) == a[1..];
      IndicesPermutation(a[1..], RemoveAt(b, i));
    }
  }

  /** All items of a state, set after set. */
  function Listing(s: Split): seq<Item> {
    if s == [] then [] else s[0].items + Listing(s[1..])
  }

  lemma {:induction false} ListingOk(s: Split)
    ensures multiset(Listing(s)) == ItemsOf(s)
    ensures Flatten(PartitionsOf(s)) == Indices(Listing(s))
  {
    if s != [] {
      ListingOk(s[1..]);
      assert PartitionsOf(s)[1..] == PartitionsOf(s[1..]);
    }
  }

  lemma FinalItems(lens: seq<nat>, k: nat, equalSize: bool)
    requires k >= 1 && |lens| >= 1 && (equalSize ==> |lens| % k == 0)
    ensures ItemsOf(FinalState(lens, k, equalSize)) == multiset(Indexed(lens))
  {
    var items, q := SortItems(Indexed(lens)), Initial(lens, k, equalSize);
    InitialOk(lens, k, equalSize);
    forall x ensures ItemsOf(FinalState(lens, k, equalSize))[x] == multiset(Indexed(lens))[x] {
      RunConserves(q, k, x);
      SortItemsPermutes(Indexed(lens));
      if equalSize { GroupsHold(items, k, x); } else { SinglesHold(items, k, x); }
    }
  }

  lemma {:induction false} IndexedOnce(lens: seq<nat>, x: Item)
    ensures multiset(Indexed(lens))[x] <= 1
    ensures multiset(Indexed(lens))[x] == 1 ==> x.idx < |lens|
  {
    if lens != [] {
      var n := |lens| - 1;
      IndexedOnce(lens[..n], x);
      assert Indexed(lens) == Indexed(lens[..n]) + [Item(n, lens[n])];
    }
  }

  /** The initial queue is live: the heap never has to break a tie. */
  lemma InitialLive(lens: seq<nat>, k: nat, equalSize: bool)
    requires k >= 1 && (equalSize ==> |lens| % k == 0)
    ensures Live(Initial(lens, k, equalSize), k)
  {
    var items, q := SortItems(Indexed(lens)), Initial(lens, k, equalSize);
    InitialOk(lens, k, equalSize);
    SortItemsPermutes(Indexed(lens));
    forall x ensures Tally(q, Holds(x)) <= 1 {
      if equalSize { GroupsHold(items, k, x); } else { SinglesHold(items, k, x); }
      IndexedOnce(lens, x);
    }
    forall i | 0 <= i < |q| ensures Filled(q[i]) >= 1 {
      assert q[i] in q;
      if equalSize { GroupsOk(items, k); } else { SinglesOk(items, k); }
    }
  }

  lemma ListedExactly(s: Split, lens: seq<nat>)
    requires ItemsOf(s) == multiset(Indexed(lens))
    ensures IsPermutation(Flatten(PartitionsOf(s)), Range(|lens|))
  {
    ListingOk(s);
    IndicesPermutation(Listing(s), Indexed(lens));
    assert Indices(Indexed(lens)) == Range(|lens|);
  }

  lemma FinalExactCover(lens: seq<nat>, k: nat, equalSize: bool)
    requires k >= 1 && |lens| >= 1 && (equalSize ==> |lens| % k == 0)
    ensures IsPermutation(Flatten(PartitionsOf(FinalState(lens, k, equalSize))), Range(|lens|))
  {
    FinalItems(lens, k, equalSize);
    ListedExactly(FinalState(lens, k, equalSize), lens);
  }

  predicate Faithful(lens: seq<nat>, items: seq<Item>) {
    forall i :: 0 <= i < |items| ==> items[i].idx < |lens| && items[i].val == lens[items[i].idx]
  }

  lemma {:induction false} ItemsOfContains(s: Split, i: nat, x: Item)
    requires i < |s| && x in s[i].items
    ensures x in ItemsOf(s)
  {
    if i > 0 { ItemsOfContains(s[1..], i - 1, x); }
  }

  lemma ListedFaithfully(s: Split, lens: seq<nat>, i: nat)
    requires ItemsOf(s) == multiset(Indexed(lens)) && i < |s|
    ensures Faithful(lens, s[i].items)
  {
    forall j | 0 <= j < |s[i].items|
      ensures s[i].items[j].idx < |lens| && s[i].items[j].val == lens[s[i].items[j].idx]
    {
      var x := s[i].items[j];
      ItemsOfContains(s, i, x);
      assert x in Indexed(lens);
    }
  }

  lemma FinalFaithful(lens: seq<nat>, k: nat, equalSize: bool, i: nat)
    requires k >= 1 && |lens| >= 1 && (equalSize ==> |lens| % k == 0) && i < k
    ensures var s := FinalState(lens, k, equalSize);
      |s| == k && Faithful(lens, s[i].items)
  {
    InitialOk(lens, k, equalSize);
    FinalItems(lens, k, equalSize);
    ListedFaithfully(FinalState(lens, k, equalSize), lens, i);
  }

  lemma {:induction false} LoadIsSum(lens: seq<nat>, items: seq<Item>)
    requires Faithful(lens, items)
    ensures InRange(Indices(items), |lens|) && Load(lens, Indices(items)) == SumVals(items)
  {
    if items != [] {
      LoadIsSum(lens, items[1..]);
      assert Indices(items)[1..] == Indices(items[1..]);
    }
  }

  /** The bound the final imbalance obeys: the largest length, or in equal mode the widest group gap. */
  predicate BoundOk(lens: seq<nat>, k: nat, equalSize: bool, bound: nat)
    requires k >= 1 && (equalSize ==> |lens| % k == 0)
  {
    if equalSize then GroupGapsWithin(SortItems(Indexed(lens)), k, bound)
    else forall i :: 0 <= i < |lens| ==> lens[i] <= bound
  }

  lemma FinalSpread(lens: seq<nat>, k: nat, equalSize: bool, bound: nat)
    requires k >= 1 && |lens| >= 1 && (equalSize ==> |lens| % k == 0)
    requires BoundOk(lens, k, equalSize, bound)
    ensures FinalState(lens, k, equalSize) != [] && Spread(FinalState(lens, k, equalSize)) <= bound
  {
    var items, q := SortItems(Indexed(lens)), Initial(lens, k, equalSize);
    InitialOk(lens, k, equalSize);
    if equalSize {
      SortItemsAscending(Indexed(lens));
      GroupsSpread(items, k, bound);
    } else {
      SortItemsPermutes(Indexed(lens));
      forall x | x in items ensures x.val <= bound {
        var i :| 0 <= i < |items| && items[i] == x;
        i := PermutationFind(items, Indexed(lens), i);
      }
      SinglesSpread(items, k, bound);
    }
    RunSpread(q, k, bound);
  }

  /** No two partitions' total lengths differ by more than the bound. */
  lemma FinalLoads(lens: seq<nat>, k: nat, equalSize: bool, bound: nat, i: nat, j: nat)
    requires k >= 1 && |lens| >= 1 && (equalSize ==> |lens| % k == 0)
    requires BoundOk(lens, k, equalSize, bound) && i < k && j < k
    ensures var ps := PartitionsOf(FinalState(lens, k, equalSize));
      |ps| == k && InRange(ps[i], |lens|) && InRange(ps[j], |lens|) &&
      Load(lens, ps[i]) - Load(lens, ps[j]) <= bound
  {
    var s := FinalState(lens, k, equalSize);
    InitialOk(lens, k, equalSize);
    FinalSpread(lens, k, equalSize, bound);
    GapWithinSpread(s, k, i, j);
    FinalFaithful(lens, k, equalSize, i);
    FinalFaithful(lens, k, equalSize, j);
    LoadIsSum(lens, s[i].items);
    LoadIsSum(lens, s[j].items);
  }

  /** In unequal mode exactly the first min(k, n) sets of the final state are in use. */
  lemma FinalNonEmpty(lens: seq<nat>, k: nat, i: nat)
    requires k >= 1 && |lens| >= 1 && i < k
    ensures var ps := PartitionsOf(FinalState(lens, k, false));
      |ps| == k && (ps[i] != [] <==> i < |lens|)
  {
    var items, s := SortItems(Indexed(lens)), FinalState(lens, k, false);
    InitialOk(lens, k, false);
    SinglesUsed(items, k);
    RunFilled(Initial(lens, k, false), k);
    UnusedLast(s, k, i);
  }

  lemma QuotientIs(n: nat, k: nat, t: nat)
    requires k >= 1 && t * k == n
    ensures n / k == t
  {
    DivModUnique(n, k, t, 0);
  }

  lemma InitialTally(lens: seq<nat>, k: nat)
    requires k >= 1 && |lens| % k == 0
    ensures Tally(Initial(lens, k, true), FirstSize()) == |lens| / k
  {
    var items := SortItems(Indexed(lens));
    var t := Tally(Groups(items, k), FirstSize());
    GroupsCount(items, k);
    QuotientIs(|lens|, k, t);
  }

  /** In equal mode every partition holds n/k indices: the closing assert of `karmarkar_karp` never fires. */
  lemma FinalEqualSizes(lens: seq<nat>, k: nat, i: nat)
    requires k >= 1 && |lens| >= 1 && |lens| % k == 0 && i < k
    ensures var ps := PartitionsOf(FinalState(lens, k, true));
      |ps| == k && |ps[i]| == |lens| / k
  {
    InitialOk(lens, k, true);
    GroupsOk(SortItems(Indexed(lens)), k);
    RunEven(Initial(lens, k, true), k);
    InitialTally(lens, k);
  }

  // ---------- get_seqlen_balanced_partitions ----------

  predicate AtMost(a: nat, b: nat) { a <= b }

  /** `sorted(partition)`. */
  function SortIndices(s: seq<nat>): (r: seq<nat>)
    ensures |r| == |s|
  {
    Sort(s, AtMost)
  }

  lemma SortIndicesPermutes(s: seq<nat>)
    ensures IsPermutation(SortIndices(s), s)
  {
    SortPermutes(s, AtMost);
  }

  predicate NonDecreasing(s: seq<nat>) {
    forall i, j :: 0 <= i < j < |s| ==> s[i] <= s[j]
  }

  lemma SortIndicesSorted(s: seq<nat>)
    ensures NonDecreasing(SortIndices(s))
  {
    SortInOrder(s, AtMost);
    var r := SortIndices(s);
    forall i, j | 0 <= i < j < |r| ensures r[i] <= r[j] {
      assert AtMost(r[i], r[j]);
    }
  }

  function SortAll(ps: seq<seq<nat>>): (r: seq<seq<nat>>)
    ensures |r| == |ps|
  {
    seq(|ps|, i requires 0 <= i < |ps| => SortIndices(ps[i]))
  }

  lemma SortAllSorted(ps: seq<seq<nat>>)
    ensures forall i :: 0 <= i < |ps| ==> NonDecreasing(SortAll(ps)[i])
  {
    forall i | 0 <= i < |ps| ensures NonDecreasing(SortAll(ps)[i]) {
      SortIndicesSorted(ps[i]);
    }
  }

  lemma {:induction false} SortAllFlatten(ps: seq<seq<nat>>)
    ensures IsPermutation(Flatten(SortAll(ps)), Flatten(ps))
  {
    if ps != [] {
      SortIndicesPermutes(ps[0]);
      SortAllFlatten(ps[1..]);
      assert SortAll(ps)[1..] == SortAll(ps[1..]);
    }
  }

  lemma {:induction false} LoadAppend(lens: seq<nat>, a: seq<nat>, b: seq<nat>)
    requires InRange(a + b, |lens|)
    ensures InRange(a, |lens|) && InRange(b, |lens|)
    ensures Load(lens, a + b) == Load(lens, a) + Load(lens, b)
  {
    assert forall i :: 0 <= i < |a| ==> (a + b)[i] == a[i];
    assert forall i :: 0 <= i < |b| ==> (a + b)[|a| + i] == b[i];
    if a == [] {
      assert a + b == b;
    } else {
      assert (a + b)[1..] == a[1..] + b;
      LoadAppend(lens, a[1..], b);
    }
  }

  lemma LoadRemove(lens: seq<nat>, b: seq<nat>, i: nat)
    requires InRange(b, |lens|) && i < |b|
    ensures InRange(RemoveAt(b, i), |lens|)
    ensures Load(lens, b) == lens[b[i]] + Load(lens, RemoveAt(b, i))
  {
    assert b == b[..i] + b[i..] && b[i..][1..] == b[i + 1..];
    LoadAppend(lens, b[..i], b[i..]);
    LoadAppend(lens, b[..i], b[i + 1..]);
  }

  lemma InRangePermutation(a: seq<nat>, b: seq<nat>, n: nat)
    requires InRange(a, n) && IsPermutation(a, b)
    ensures InRange(b, n)
  {
    forall i | 0 <= i < |b| ensures b[i] < n {
      var j := PermutationFind(b, a, i);
    }
  }

  lemma {:induction false} LoadPermutation(lens: seq<nat>, a: seq<nat>, b: seq<nat>)
    requires InRange(a, |lens|) && IsPermutation(a, b)
    ensures InRange(b, |lens|) && Load(lens, a) == Load(lens, b)
  {
    InRangePermutation(a, b, |lens|);
    PermutationSize(a, b);
    if a != [] {
      var i := PermutationStep(a, b);
      LoadRemove(lens, b, i);
      LoadPermutation(lens, a[1..], RemoveAt(b, i));
    }
  }

  function Balanced(lens: seq<nat>, k: nat, equalSize: bool): seq<seq<nat>>
    requires k >= 1 && |lens| >= 1 && (equalSize ==> |lens| % k == 0)
  {
    SortAll(PartitionsOf(FinalState(lens, k, equalSize)))
  }

  /** Every index appears in exactly one partition, once. */
  lemma BalancedExactCover(lens: seq<nat>, k: nat, equalSize: bool)
    requires |lens| >= k >= 1 && (equalSize ==> |lens| % k == 0)
    ensures IsPermutation(Flatten(Balanced(lens, k, equalSize)), Range(|lens|))
  {
    FinalExactCover(lens, k, equalSize);
    SortAllFlatten(PartitionsOf(FinalState(lens, k, equalSize)));
  }

  /** k non-empty partitions, of n/k indices each in equal mode. */
  lemma BalancedShape(lens: seq<nat>, k: nat, equalSize: bool, i: nat)
    requires |lens| >= k >= 1 && (equalSize ==> |lens| % k == 0) && i < k
    ensures var ps := Balanced(lens, k, equalSize);
      |ps| == k && ps[i] != [] && (equalSize ==> |ps[i]| == |lens| / k)
  {
    if equalSize {
      FinalEqualSizes(lens, k, i);
      QuotientPositive(|lens|, k);
    } else {
      FinalNonEmpty(lens, k, i);
    }
  }

  /** The imbalance is at most the largest length (equal mode: the widest gap inside a sorted group). */
  lemma BalancedLoads(lens: seq<nat>, k: nat, equalSize: bool, bound: nat, i: nat, j: nat)
    requires |lens| >= k >= 1 && (equalSize ==> |lens| % k == 0)
    requires BoundOk(lens, k, equalSize, bound) && i < k && j < k
    ensures var ps := Balanced(lens, k, equalSize);
      |ps| == k && InRange(ps[i], |lens|) && InRange(ps[j], |lens|) &&
      Load(lens, ps[i]) - Load(lens, ps[j]) <= bound
  {
    var ps := PartitionsOf(FinalState(lens, k, equalSize));
    FinalLoads(lens, k, equalSize, bound, i, j);
    SortIndicesPermutes(ps[i]);
    SortIndicesPermutes(ps[j]);
    LoadPermutation(lens, ps[i], SortIndices(ps[i]));
    LoadPermutation(lens, ps[j], SortIndices(ps[j]));
  }
}
