/**
 `get_dynamic_pipeline_shards` of verl/model_merger/megatron_model_merger.py: a search over the size of the
 middle pipeline stages, and the closed form it amounts to.
 */
module PipelineShards {
  import opened Arithmetic
  import opened Sequences
  import opened Sorting

  datatype Error = TooFewLayers | BadPipelineSize | NoCandidate

  datatype Result = Ok(shards: seq<int>) | Err(error: Error)

  /** A split found by the search, with the distance it is ranked by. */
  datatype Candidate = Candidate(shards: seq<int>, distance: nat)

  function Abs(x: int): nat { if x < 0 then -x else x }

  function Rest(layers: int, pp: int, middle: int): int {
    layers - middle * (pp - 2)
  }

  function First(layers: int, pp: int, middle: int): int {
    Rest(layers, pp, middle) / 2
  }

  function Last(layers: int, pp: int, middle: int): int {
    Rest(layers, pp, middle) - Rest(layers, pp, middle) / 2
  }

  function Split(layers: int, pp: nat, middle: int): (s: seq<int>)
    requires pp >= 3
    ensures |s| == pp
  {
    [First(layers, pp, middle)] + seq(pp - 2, _ => middle) + [Last(layers, pp, middle)]
  }

  /** The test inside the search loop. */
  predicate Admissible(layers: int, pp: int, middle: int) {
    0 < First(layers, pp, middle) <= middle && 0 < Last(layers, pp, middle) <= middle
  }

  function CandidateOf(layers: int, pp: nat, middle: int): Candidate
    requires pp >= 3
  {
    Candidate(Split(layers, pp, middle), Abs(First(layers, pp, middle) - middle))
  }

  // ---------- sorting the candidates ----------

  predicate NotFarther(a: Candidate, b: Candidate) {
    a.distance <= b.distance
  }

  /** `sorted(cs, key=distance)`: equal distances keep their order. */
  function SortByDistance(cs: seq<Candidate>): (r: seq<Candidate>)
    ensures |r| == |cs|
  {
    Sort(cs, NotFarther)
  }

  predicate Ordered(cs: seq<Candidate>) {
    forall i, j :: 0 <= i < j < |cs| ==> cs[i].distance <= cs[j].distance
  }

  lemma OrderedSnoc(cs: seq<Candidate>, c: Candidate)
    requires Ordered(cs) && forall i :: 0 <= i < |cs| ==> cs[i].distance <= c.distance
    ensures Ordered(cs + [c])
  {
  }

  lemma SortKeepsLeastFirst(cs: seq<Candidate>)
    requires cs != [] && Ordered(cs)
    ensures SortByDistance(cs)[0] == cs[0]
  {
    SortKeepsFirst(cs, NotFarther);
  }

  // ---------- the arithmetic of the search ----------

  /** Stage sizes that the search may choose for the middle. */
  function LeastMiddle(layers: nat, pp: nat): nat
    requires pp >= 1
  {
    QuotientNonNegative(layers + pp - 1, pp);
    (layers + pp - 1) / pp
  }

  /** Layers can be spread over pp stages with no end stage larger than the middle ones. */
  predicate Splittable(layers: int, pp: int) {
    layers >= pp >= 1 && (pp >= 3 ==> LeastMiddle(layers, pp) * (pp - 2) <= layers - 2)
  }

  lemma LeastMiddleBounds(layers: nat, pp: nat)
    requires pp >= 1
    ensures var m := LeastMiddle(layers, pp);
      layers <= m * pp < layers + pp && forall n: nat :: layers <= n * pp ==> m <= n
  {
    var m := LeastMiddle(layers, pp);
    assert layers + pp - 1 == pp * m + (layers + pp - 1) % pp;
    assert m * pp == pp * m;
    forall n: nat | layers <= n * pp ensures m <= n {
      if n < m { MulMonotonic(pp, n, m - 1); }
    }
  }

  /** A middle size passes the test exactly if it is large enough and leaves two layers for the ends. */
  lemma AdmissibleIff(layers: nat, pp: nat, middle: nat)
    requires layers >= pp >= 3
    ensures Admissible(layers, pp, middle) <==> LeastMiddle(layers, pp) <= middle && middle * (pp - 2) <= layers - 2
  {
    LeastMiddleBounds(layers, pp);
    assert middle * (pp - 2) == middle * pp - 2 * middle;
    if LeastMiddle(layers, pp) <= middle {
      MulMonotonic(pp, LeastMiddle(layers, pp), middle);
      assert pp * middle == middle * pp && pp * LeastMiddle(layers, pp) == LeastMiddle(layers, pp) * pp;
    }
  }

  lemma FirstAdmissible(layers: nat, pp: nat, middle: nat)
    requires layers >= pp >= 3
    ensures Admissible(layers, pp, middle) ==> LeastMiddle(layers, pp) <= middle && Splittable(layers, pp)
    ensures Splittable(layers, pp) ==> Admissible(layers, pp, LeastMiddle(layers, pp))
  {
    AdmissibleIff(layers, pp, middle);
    AdmissibleIff(layers, pp, LeastMiddle(layers, pp));
    if Admissible(layers, pp, middle) {
      MulMonotonic(pp - 2, LeastMiddle(layers, pp), middle);
      assert (pp - 2) * middle == middle * (pp - 2);
    }
  }

  /** Larger middles are farther from their ends, so the sort prefers the smallest one. */
  lemma DistanceGrows(layers: nat, pp: nat, m: nat, n: nat)
    requires pp >= 3 && m <= n && Admissible(layers, pp, m) && Admissible(layers, pp, n)
    ensures CandidateOf(layers, pp, m).distance <= CandidateOf(layers, pp, n).distance
  {
    MulMonotonic(pp - 2, m, n);
    assert (pp - 2) * m == m * (pp - 2) && (pp - 2) * n == n * (pp - 2);
  }

  /** The candidates among the first n middle sizes, in the order the loop meets them. */
  function Found(layers: nat, pp: nat, n: nat): (cs: seq<Candidate>)
    requires pp >= 3
  {
    if n == 0 then []
    else if Admissible(layers, pp, n - 1) then Found(layers, pp, n - 1) + [CandidateOf(layers, pp, n - 1)]
    else Found(layers, pp, n - 1)
  }

  /** Whatever was found before middle size m ranks no later than m. */
  lemma {:induction false} FoundBefore(layers: nat, pp: nat, n: nat, m: nat)
    requires pp >= 3 && n <= m && Admissible(layers, pp, m)
    ensures forall i :: 0 <= i < |Found(layers, pp, n)| ==>
      Found(layers, pp, n)[i].distance <= CandidateOf(layers, pp, m).distance
  {
    if n > 0 {
      FoundBefore(layers, pp, n - 1, m);
      if Admissible(layers, pp, n - 1) { DistanceGrows(layers, pp, n - 1, m); }
    }
  }

  lemma {:induction false} FoundOrdered(layers: nat, pp: nat, n: nat)
    requires pp >= 3
    ensures Ordered(Found(layers, pp, n))
  {
    if n > 0 {
      FoundOrdered(layers, pp, n - 1);
      if Admissible(layers, pp, n - 1) {
        FoundBefore(layers, pp, n - 1, n - 1);
        OrderedSnoc(Found(layers, pp, n - 1), CandidateOf(layers, pp, n - 1));
      }
    }
  }

  /** Up to the least admissible middle nothing is found; from there on it heads the list. */
  lemma {:induction false} FoundHead(layers: nat, pp: nat, n: nat)
    requires layers >= pp >= 3
    ensures var m := LeastMiddle(layers, pp);
      if m < n && Splittable(layers, pp)
      then Found(layers, pp, n) != [] && Found(layers, pp, n)[0] == CandidateOf(layers, pp, m)
      else Found(layers, pp, n) == []
  {
    if n > 0 {
      FoundHead(layers, pp, n - 1);
      FirstAdmissible(layers, pp, n - 1);
    }
  }

  lemma LeastMiddleInRange(layers: nat, pp: nat)
    requires layers >= pp >= 3
    ensures 1 <= LeastMiddle(layers, pp) < layers
  {
    LeastMiddleBounds(layers, pp);
    var m := LeastMiddle(layers, pp);
    if m >= layers {
      MulMonotonic(pp, layers, m);
      MulMonotonic(layers, 3, pp);
    }
  }

  /** The whole search succeeds exactly on splittable inputs, and then with the least middle. */
  lemma SearchFinds(layers: nat, pp: nat)
    requires layers >= pp >= 3
    ensures Found(layers, pp, layers) == [] <==> !Splittable(layers, pp)
    ensures Splittable(layers, pp) ==>
      SortByDistance(Found(layers, pp, layers))[0].shards == Split(layers, pp, LeastMiddle(layers, pp))
  {
    FoundHead(layers, pp, layers);
    LeastMiddleInRange(layers, pp);
    if Splittable(layers, pp) {
      FoundOrdered(layers, pp, layers);
      SortKeepsLeastFirst(Found(layers, pp, layers));
    }
  }

  /** The stages that the search settles on. */
  function Stages(layers: int, pp: int): (s: seq<int>)
    requires Splittable(layers, pp)
    ensures |s| == pp
  {
    if pp == 1 then [layers]
    else if pp == 2 then [layers / 2, layers - layers / 2]
    else Split(layers, pp, LeastMiddle(layers, pp))
  }

  /** `get_dynamic_pipeline_shards` */
  method GetDynamicPipelineShards(layers: int, pp: int) returns (r: Result)
    ensures r.Ok? <==> Splittable(layers, pp)
    ensures r.Ok? ==> r.shards == Stages(layers, pp)
    ensures r.Err? ==> r.error == if layers < pp then TooFewLayers else if pp < 1 then BadPipelineSize else NoCandidate
  {
    if layers < pp { return Err(TooFewLayers); }
    if pp < 1 { return Err(BadPipelineSize); }
    if pp == 1 { return Ok([layers]); }
    if pp == 2 { return Ok([layers / 2, layers - layers / 2]); }
    var strategy: seq<Candidate> := [];
    for middle := 0 to layers
      invariant strategy == Found(layers, pp, middle)
    {
      var rest := layers - middle * (pp - 2);
      var first := rest / 2;
      var last := rest - rest / 2;
      if 0 < first <= middle && 0 < last <= middle {
        strategy := strategy + [Candidate([first] + seq(pp - 2, _ => middle) + [last], Abs(first - middle))];
      }
    }
    SearchFinds(layers, pp);
    if strategy == [] { return Err(NoCandidate); }
    return Ok(SortByDistance(strategy)[0].shards);
  }

  // ---------- what the stages are worth ----------

  lemma {:induction false} SumConstant(n: nat, x: int)
    ensures Sum(seq(n, _ => x)) == n * x
  {
    if n > 0 {
      var s := seq(n, _ => x);
      assert s[1..] == seq(n - 1, _ => x);
      SumConstant(n - 1, x);
    }
  }

  lemma SumEnds(first: int, n: nat, middle: int, last: int)
    ensures Sum([first] + seq(n, _ => middle) + [last]) == first + n * middle + last
  {
    var middles := seq(n, _ => middle);
    SumAppend([first] + middles, [last]);
    SumAppend([first], middles);
    SumConstant(n, middle);
  }

  /** The final assert of the function: the stages add up to the layers. */
  lemma StagesSum(layers: int, pp: int)
    requires Splittable(layers, pp)
    ensures Sum(Stages(layers, pp)) == layers
  {
    if pp >= 3 {
      var m := LeastMiddle(layers, pp);
      SumEnds(First(layers, pp, m), pp - 2, m, Last(layers, pp, m));
    } else if pp == 2 {
      SumAppend([layers / 2], [layers - layers / 2]);
      assert [layers / 2] + [layers - layers / 2] == Stages(layers, pp);
    }
  }

  /** Every stage has a layer, the ends differ by at most one, and no stage is larger than the average rounded up. */
  lemma StagesShape(layers: int, pp: int, i: nat)
    requires Splittable(layers, pp) && i < pp
    ensures var s := Stages(layers, pp);
      1 <= s[i] <= LeastMiddle(layers, pp) && s[0] <= s[pp - 1] <= s[0] + 1
    ensures pp >= 3 && 0 < i < pp - 1 ==> Stages(layers, pp)[i] == LeastMiddle(layers, pp)
  {
    LeastMiddleBounds(layers, pp);
    if pp >= 3 {
      AdmissibleIff(layers, pp, LeastMiddle(layers, pp));
      LeastMiddleInRange(layers, pp);
    }
  }

  lemma {:induction false} SumAtMost(s: seq<int>, bound: int)
    requires forall i :: 0 <= i < |s| ==> s[i] <= bound
    ensures Sum(s) <= |s| * bound
  {
    if s != [] { SumAtMost(s[1..], bound); }
  }

  /** No split of the layers over as many stages has a smaller largest stage. */
  lemma StagesOptimal(layers: int, pp: int, other: seq<int>, bound: int, i: nat)
    requires Splittable(layers, pp) && i < pp
    requires |other| == pp && Sum(other) == layers && forall j :: 0 <= j < |other| ==> other[j] <= bound
    ensures Stages(layers, pp)[i] <= bound
  {
    SumAtMost(other, bound);
    StagesShape(layers, pp, i);
    LeastMiddleBounds(layers, pp);
    if bound < 0 { MulMonotonic(pp, bound, 0); }
    assert pp * bound == bound * pp;
  }

  /**
   The search fails exactly if layers are left over and more stages miss one of them than twice the number of
   full rounds.
   */
  lemma SplittableByRemainder(layers: int, pp: int)
    requires layers >= pp >= 3
    ensures Splittable(layers, pp) <==> layers % pp == 0 || pp - layers % pp <= 2 * (layers / pp)
  {
    var q, r := layers / pp, layers % pp;
    assert layers == pp * q + r;
    QuotientPositive(layers, pp);
    if r == 0 {
      DivModUnique(layers + pp - 1, pp, q, pp - 1);
      assert q * (pp - 2) == pp * q - 2 * q;
    } else {
      assert layers + pp - 1 == pp * (q + 1) + (r - 1);
      DivModUnique(layers + pp - 1, pp, q + 1, r - 1);
      assert (q + 1) * (pp - 2) == pp * q + pp - 2 * q - 2;
    }
  }

  /** Five layers on four stages pass both input checks, but the search comes back empty. */
  lemma FiveLayersOnFourStages()
    ensures !Splittable(5, 4) && Found(5, 4, 5) == []
  {
    SearchFinds(5, 4);
  }
}
