/**
 `_merge_state_dicts` of verl/model_merger/megatron_model_merger.py, as far as it renumbers layers: a rank's state
 dicts are read one after another, each continuing the numbers where the one before it seems to end.
 */
module LayerMerging {
  import opened Sequences
  import opened LayerPlacement
  import PipelineShards

  /** The local layer numbers in the keys of one state dict, in the order of its keys. */
  type Chunk = seq<nat>

  /** `layers_handled` after the keys of a chunk. */
  function Handled(chunk: Chunk): nat {
    if chunk == [] then 0
    else
      var before, last := Handled(chunk[..|chunk| - 1]), chunk[|chunk| - 1];
      if before < last then last else before
  }

  /** What has been added to `layers_cum` before chunk n. */
  function Shift(chunks: seq<Chunk>, n: nat): nat
    requires n <= |chunks|
  {
    if n == 0 then 0 else Shift(chunks, n - 1) + Handled(chunks[n - 1]) + 1
  }

  function Shifted(chunk: Chunk, amount: int): seq<int> {
    seq(|chunk|, j requires 0 <= j < |chunk| => chunk[j] + amount)
  }

  function NumbersOf(chunks: seq<Chunk>, start: int, n: nat): seq<int>
    requires n < |chunks|
  {
    Shifted(chunks[n], start + Shift(chunks, n))
  }

  function Numbers(chunks: seq<Chunk>, start: int): (r: seq<seq<int>>)
    ensures |r| == |chunks|
  {
    seq(|chunks|, n requires 0 <= n < |chunks| => NumbersOf(chunks, start, n))
  }

  lemma TakeNext<T>(s: seq<T>, n: nat)
    requires n < |s|
    ensures s[..n + 1] == s[..n] + [s[n]]
  {
  }

  lemma NumbersNext(chunks: seq<Chunk>, start: int, n: nat)
    requires n < |chunks|
    ensures Numbers(chunks, start)[..n + 1] == Numbers(chunks, start)[..n] + [NumbersOf(chunks, start, n)]
  {
    TakeNext(Numbers(chunks, start), n);
  }

  /** The loop over the keys of one state dict. */
  method RenumberChunk(chunk: Chunk, layersCum: int) returns (numbers: seq<int>, layersHandled: nat)
    ensures numbers == Shifted(chunk, layersCum) && layersHandled == Handled(chunk)
  {
    numbers, layersHandled := [], 0;
    for j := 0 to |chunk|
      invariant layersHandled == Handled(chunk[..j])
      invariant numbers == Shifted(chunk, layersCum)[..j]
    {
      assert chunk[..j + 1][..j] == chunk[..j];
      if layersHandled < chunk[j] {
        layersHandled := chunk[j];
      }
      numbers := numbers + [chunk[j] + layersCum];
    }
    assert chunk[..|chunk|] == chunk;
  }

  // ---------- when the numbers come out right ----------

  /** The chunk has keys for the layers 0 to c-1, and for no others. */
  ghost predicate HoldsLayers(chunk: Chunk, c: nat) {
    forall x: nat :: x in chunk <==> x < c
  }

  ghost predicate AllHold(chunks: seq<Chunk>, sizes: seq<nat>) {
    |chunks| == |sizes| && forall n :: 0 <= n < |chunks| ==> HoldsLayers(chunks[n], sizes[n])
  }

  /** Every key of chunk n is given the number of layers before the chunk, plus its own number. */
  predicate InOrderAt(chunks: seq<Chunk>, sizes: seq<nat>, start: int, n: nat)
    requires n < |chunks| == |sizes|
  {
    Numbers(chunks, start)[n] == Shifted(chunks[n], start + Prefix(sizes, n))
  }

  predicate NumberedInOrder(chunks: seq<Chunk>, sizes: seq<nat>, start: int)
    requires |chunks| == |sizes|
  {
    forall n: nat :: n < |chunks| ==> InOrderAt(chunks, sizes, start, n)
  }

  /** A chunk with layers comes after chunks with layers only. */
  predicate NoGapBefore(sizes: seq<nat>, n: nat)
    requires n < |sizes|
  {
    sizes[n] > 0 ==> forall m :: 0 <= m < n ==> sizes[m] > 0
  }

  lemma {:induction false} HandledIsLargest(chunk: Chunk)
    ensures forall x :: x in chunk ==> x <= Handled(chunk)
    ensures chunk != [] ==> Handled(chunk) in chunk
  {
    if chunk != [] {
      var front, last := chunk[..|chunk| - 1], chunk[|chunk| - 1];
      HandledIsLargest(front);
      assert chunk == front + [last];
    }
  }

  /** A chunk of c layers moves the numbers on by c, but a chunk without layers by one. */
  lemma HandledOfLayers(chunk: Chunk, c: nat)
    requires HoldsLayers(chunk, c)
    ensures Handled(chunk) + 1 == Max(c, 1) && (chunk == [] <==> c == 0)
  {
    HandledIsLargest(chunk);
    if c > 0 { assert c - 1 in chunk; }
    if chunk != [] { assert chunk[0] in chunk; }
  }

  /** How many of the first n chunks are without layers. */
  function Empties(sizes: seq<nat>, n: nat): nat
    requires n <= |sizes|
  {
    if n == 0 then 0 else Empties(sizes, n - 1) + if sizes[n - 1] == 0 then 1 else 0
  }

  lemma {:induction false} ShiftIs(chunks: seq<Chunk>, sizes: seq<nat>, n: nat)
    requires AllHold(chunks, sizes) && n <= |chunks|
    ensures Shift(chunks, n) == Prefix(sizes, n) + Empties(sizes, n)
  {
    if n > 0 {
      ShiftIs(chunks, sizes, n - 1);
      HandledOfLayers(chunks[n - 1], sizes[n - 1]);
    }
  }

  lemma {:induction false} NoEmpties(sizes: seq<nat>, n: nat)
    requires n <= |sizes|
    ensures Empties(sizes, n) == 0 <==> forall m :: 0 <= m < n ==> sizes[m] > 0
  {
    if n > 0 { NoEmpties(sizes, n - 1); }
  }

  lemma ShiftExact(chunks: seq<Chunk>, sizes: seq<nat>, n: nat)
    requires AllHold(chunks, sizes) && n < |chunks|
    ensures Shift(chunks, n) == Prefix(sizes, n) || sizes[n] == 0 <==> NoGapBefore(sizes, n)
  {
    ShiftIs(chunks, sizes, n);
    NoEmpties(sizes, n);
  }

  lemma SameShift(chunk: Chunk, a: int, b: int)
    ensures Shifted(chunk, a) == Shifted(chunk, b) <==> a == b || chunk == []
  {
    if a != b && chunk != [] {
      assert Shifted(chunk, a)[0] != Shifted(chunk, b)[0];
    }
  }

  lemma InOrderAtIff(chunks: seq<Chunk>, sizes: seq<nat>, start: int, n: nat)
    requires AllHold(chunks, sizes) && n < |chunks|
    ensures InOrderAt(chunks, sizes, start, n) <==> NoGapBefore(sizes, n)
  {
    ShiftExact(chunks, sizes, n);
    HandledOfLayers(chunks[n], sizes[n]);
    SameShift(chunks[n], start + Shift(chunks, n), start + Prefix(sizes, n));
  }

  /** The layers are numbered in order exactly if no chunk without layers stands before one with layers. */
  lemma NumberedInOrderIff(chunks: seq<Chunk>, sizes: seq<nat>, start: int)
    requires AllHold(chunks, sizes)
    ensures NumberedInOrder(chunks, sizes, start) <==> forall n: nat :: n < |sizes| ==> NoGapBefore(sizes, n)
  {
    forall n: nat | n < |sizes| ensures InOrderAt(chunks, sizes, start, n) <==> NoGapBefore(sizes, n) {
      InOrderAtIff(chunks, sizes, start, n);
    }
  }

  /**
   Every state dict with none without layers before it: its keys are given the start, plus the layers of the state
   dicts before it, plus their own numbers, one by one.
   */
  predicate KeyByKey(chunks: seq<Chunk>, sizes: seq<nat>, start: int, numbers: seq<seq<int>>)
    requires |chunks| == |sizes|
  {
    |numbers| == |chunks| &&
    forall n :: 0 <= n < |chunks| ==>
      |numbers[n]| == |chunks[n]| &&
      ((forall m :: 0 <= m < n ==> sizes[m] > 0) ==>
        forall j :: 0 <= j < |chunks[n]| ==> numbers[n][j] == start + Prefix(sizes, n) + chunks[n][j])
  }

  lemma NumbersKeyByKey(chunks: seq<Chunk>, sizes: seq<nat>, start: int)
    requires AllHold(chunks, sizes)
    ensures KeyByKey(chunks, sizes, start, Numbers(chunks, start))
  {
    var numbers := Numbers(chunks, start);
    forall n | 0 <= n < |chunks|
      ensures |numbers[n]| == |chunks[n]|
      ensures (forall m :: 0 <= m < n ==> sizes[m] > 0) ==>
        forall j :: 0 <= j < |chunks[n]| ==> numbers[n][j] == start + Prefix(sizes, n) + chunks[n][j]
    {
      ShiftIs(chunks, sizes, n);
      NoEmpties(sizes, n);
    }
  }

  /** The loop over the state dicts, with the running `layers_cum`. */
  method Renumber(chunks: seq<Chunk>, start: int) returns (numbers: seq<seq<int>>)
    ensures numbers == Numbers(chunks, start)
    ensures forall sizes: seq<nat> :: AllHold(chunks, sizes) ==> KeyByKey(chunks, sizes, start, numbers)
  {
    numbers := [];
    var layersCum := start;
    for n := 0 to |chunks|
      invariant layersCum == start + Shift(chunks, n)
      invariant numbers == Numbers(chunks, start)[..n]
    {
      var current, layersHandled := RenumberChunk(chunks[n], layersCum);
      NumbersNext(chunks, start, n);
      numbers := numbers + [current];
      layersCum := layersCum + layersHandled + 1;
    }
    forall sizes: seq<nat> | AllHold(chunks, sizes) ensures KeyByKey(chunks, sizes, start, numbers) {
      NumbersKeyByKey(chunks, sizes, start);
    }
  }

  /** An embedding without layers, read first, moves the layer after it from 0 to 1. */
  lemma EmptyChunkShifts()
    ensures Numbers([[], [0]], 0) == [[], [1]]
    ensures !NumberedInOrder([[], [0]], [0, 1], 0)
  {
    assert Shift([[], [0]], 1) == 1;
    assert Numbers([[], [0]], 0)[0] == [] && Numbers([[], [0]], 0)[1] == [1];
    assert Shifted([0], Prefix([0, 1], 1))[0] == 0;
    assert !InOrderAt([[], [0]], [0, 1], 0, 1);
  }

  // ---------- across the ranks ----------

  /** Rank r reads one state dict, with the layers of its stage. */
  ghost predicate RankHolds(layers: nat, pp: nat, r: nat, chunk: Chunk)
    requires PipelineShards.Splittable(layers, pp) && r < pp
  {
    PipelineShards.Stages(layers, pp)[r] >= 0 && HoldsLayers(chunk, PipelineShards.Stages(layers, pp)[r])
  }

  /** The numbers that a rank gives are those of its stage; by `StagesTileLayers` no two ranks share one. */
  lemma RankNumbers(layers: nat, pp: nat, r: nat, chunk: Chunk, x: int)
    requires PipelineShards.Splittable(layers, pp) && r < pp && RankHolds(layers, pp, r, chunk)
    ensures x in Numbers([chunk], Prefix(PipelineShards.Stages(layers, pp), r))[0]
      <==> InStage(PipelineShards.Stages(layers, pp), r, x)
  {
    var stages := PipelineShards.Stages(layers, pp);
    StagesPositive(layers, pp);
    var start := Prefix(stages, r);
    var numbers := Shifted(chunk, start);
    assert Numbers([chunk], start)[0] == Shifted(chunk, start + Shift([chunk], 0));
    if x in numbers {
      var j :| 0 <= j < |numbers| && numbers[j] == x;
      assert chunk[j] in chunk;
    }
    if InStage(stages, r, x) {
      assert x - start in chunk;
      var j :| 0 <= j < |chunk| && chunk[j] == x - start;
      assert numbers[j] == x;
    }
  }

  /** The key of local layer y on rank r is given the number of layers on the ranks before, plus y. */
  lemma RankNumberOf(layers: nat, pp: nat, r: nat, chunk: Chunk, j: nat)
    requires PipelineShards.Splittable(layers, pp) && r < pp && j < |chunk|
    ensures var stages := PipelineShards.Stages(layers, pp);
      var numbers := Numbers([chunk], Prefix(stages, r))[0];
      |numbers| == |chunk| && numbers[j] == Sum(stages[..r]) + chunk[j]
  {
    PrefixIsSum(PipelineShards.Stages(layers, pp), r);
    assert Numbers([chunk], Prefix(PipelineShards.Stages(layers, pp), r))[0]
      == Shifted(chunk, Prefix(PipelineShards.Stages(layers, pp), r) + Shift([chunk], 0));
  }

  /** Rank r gives x to one of its layers. */
  predicate GivenBy(layers: nat, pp: nat, chunks: seq<Chunk>, r: nat, x: int)
    requires PipelineShards.Splittable(layers, pp) && |chunks| == pp && r < pp
  {
    x in Numbers([chunks[r]], Prefix(PipelineShards.Stages(layers, pp), r))[0]
  }

  /** Merging gives every layer of the model its number, on one rank only. */
  lemma MergedLayers(layers: nat, pp: nat, chunks: seq<Chunk>, x: int)
    requires PipelineShards.Splittable(layers, pp) && |chunks| == pp
    requires forall r :: 0 <= r < pp ==> RankHolds(layers, pp, r, chunks[r])
    ensures 0 <= x < layers <==> exists r: nat :: r < pp && GivenBy(layers, pp, chunks, r, x)
    ensures forall q: nat, r: nat ::
      q < pp && r < pp && GivenBy(layers, pp, chunks, q, x) && GivenBy(layers, pp, chunks, r, x) ==> q == r
  {
    var stages := PipelineShards.Stages(layers, pp);
    StagesTileLayers(layers, pp);
    StagesPositive(layers, pp);
    forall r: nat | r < pp
      ensures GivenBy(layers, pp, chunks, r, x) <==> InStage(stages, r, x)
    {
      RankNumbers(layers, pp, r, chunks[r], x);
    }
    if 0 <= x < layers {
      assert InSomeStage(stages, x);
      var r: nat :| InStage(stages, r, x);
      assert GivenBy(layers, pp, chunks, r, x);
    }
  }
}
