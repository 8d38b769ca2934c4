/**
 Where transformer layers live: the layer map of verl/models/mcore/loader.py and saver.py, the offsets of
 verl/utils/megatron_utils.py, and the prefix sums by which the model merger renumbers layers and names files.
 */
module LayerPlacement {
  import opened Arithmetic
  import opened Sequences
  import PipelineShards
  import opened Wrappers

  // ---------- offsets ----------

  /** The transformer and parallel configuration that the offset depends on. */
  datatype Config = Config(layers: nat, pp: nat, first: Option<nat>, last: Option<nat>, vp: Option<nat>) {
    /** Interleaved pipelines are considered with even stages only. */
    predicate Ok() {
      pp >= 1 && (vp.Some? ==> vp.value >= 1 && first.None? && last.None?)
    }
  }

  function Given(o: Option<nat>): nat { if o.Some? then o.value else 0 }

  function Flag(o: Option<nat>): nat { if o.Some? then 1 else 0 }

  /** `get_transformer_layer_offset` */
  function LayerOffset(c: Config, rank: nat, vpRank: nat): int
    requires c.Ok()
  {
    if c.pp <= 1 then 0
    else if c.first.Some? || c.last.Some? then
      var middleStages := c.pp - Flag(c.first) - Flag(c.last);
      var middleLayers := c.layers - Given(c.first) - Given(c.last);
      var perRank := if middleStages > 0 then middleLayers / middleStages else 0;
      var middleRank := if c.first.None? then rank else rank - 1;
      if rank == 0 then 0 else middleRank * perRank + Given(c.first)
    else
      var perRank := c.layers / c.pp;
      if c.vp.Some? then vpRank * (c.layers / c.vp.value) + rank * (perRank / c.vp.value)
      else rank * perRank
  }

  // ---------- the layer map ----------

  /** A layer's home: pipeline rank, virtual pipeline rank, position there. */
  datatype Home = Home(pp: nat, vp: nat, local: nat)

  /** An even layout: n layers per model chunk. */
  datatype Layout = Layout(pp: nat, vp: nat, n: nat) {
    function Layers(): nat { n * pp * vp }

    predicate Has(h: Home) { h.pp < pp && h.vp < vp && h.local < n }

    /** The code's `layer_offset + layer_idx`. */
    function LayerOf(h: Home): int { h.vp * (n * pp) + h.pp * n + h.local }

    function HomeOf(x: nat): Home
      requires n >= 1 && pp >= 1
    {
      MulMonotonic(n, 1, pp);
      QuotientNonNegative(x, n * pp);
      QuotientNonNegative(x % (n * pp), n);
      Home(x % (n * pp) / n, x / (n * pp), x % (n * pp) % n)
    }
  }

  lemma LayerOfInRange(y: Layout, h: Home)
    requires y.Has(h)
    ensures 0 <= h.pp * y.n + h.local < y.n * y.pp
    ensures 0 <= y.LayerOf(h) < y.Layers()
  {
    MulMonotonic(y.n, h.pp + 1, y.pp);
    assert y.n * (h.pp + 1) == h.pp * y.n + y.n;
    var chunk := y.n * y.pp;
    MulMonotonic(chunk, h.vp + 1, y.vp);
    assert chunk * (h.vp + 1) == h.vp * chunk + chunk;
  }

  /** Homes and layers correspond one to one. */
  lemma HomeOfLayer(y: Layout, h: Home)
    requires y.Has(h)
    ensures 0 <= y.LayerOf(h) < y.Layers() && y.HomeOf(y.LayerOf(h)) == h
  {
    LayerOfInRange(y, h);
    var chunk, inner := y.n * y.pp, h.pp * y.n + h.local;
    assert y.LayerOf(h) == chunk * h.vp + inner;
    DivModUnique(y.LayerOf(h), chunk, h.vp, inner);
    DivModUnique(inner, y.n, h.pp, h.local);
  }

  /** Layers run on within a chunk, then to the next pipeline rank, then to the next chunk of the first rank. */
  lemma LayersRunOn(y: Layout, h: Home)
    ensures y.LayerOf(Home(0, 0, 0)) == 0
    ensures y.LayerOf(h.(local := h.local + 1)) == y.LayerOf(h) + 1
    ensures y.LayerOf(h.(pp := h.pp + 1)) == y.LayerOf(h) + y.n
    ensures y.LayerOf(h.(vp := h.vp + 1)) == y.LayerOf(h) + y.n * y.pp
  {
    assert (h.pp + 1) * y.n == h.pp * y.n + y.n;
    assert (h.vp + 1) * (y.n * y.pp) == h.vp * (y.n * y.pp) + y.n * y.pp;
  }

  lemma LayerOfHome(y: Layout, x: nat)
    requires x < y.Layers()
    ensures y.n >= 1 && y.pp >= 1 && y.Has(y.HomeOf(x)) && y.LayerOf(y.HomeOf(x)) == x
  {
    var chunk := y.n * y.pp;
    var v, inner := x / chunk, x % chunk;
    assert x == chunk * v + inner;
    if v >= y.vp { MulMonotonic(chunk, y.vp, v); }
    assert inner == y.n * (inner / y.n) + inner % y.n;
    if inner / y.n >= y.pp { MulMonotonic(y.n, y.pp, inner / y.n); }
  }

  /** The map says where every layer is, and mentions nothing else. */
  ghost predicate IsLayerMap(y: Layout, m: map<int, Home>) {
    && (forall x :: x in m <==> 0 <= x < y.Layers())
    && (forall h :: y.Has(h) ==> y.LayerOf(h) in m && m[y.LayerOf(h)] == h)
  }

  /** Homes that the three nested loops have passed when they stand at pipeline rank p, chunk v, position l. */
  predicate Passed(h: Home, p: nat, v: nat, l: nat) {
    h.pp < p || (h.pp == p && (h.vp < v || (h.vp == v && h.local < l)))
  }

  ghost predicate FilledTo(y: Layout, m: map<int, Home>, p: nat, v: nat, l: nat) {
    && (forall x :: x in m ==> y.Has(m[x]) && y.LayerOf(m[x]) == x && Passed(m[x], p, v, l))
    && (forall h :: y.Has(h) && Passed(h, p, v, l) ==> y.LayerOf(h) in m)
  }

  lemma FillOne(y: Layout, m: map<int, Home>, p: nat, v: nat, l: nat)
    requires y.Has(Home(p, v, l)) && FilledTo(y, m, p, v, l)
    ensures FilledTo(y, m[y.LayerOf(Home(p, v, l)) := Home(p, v, l)], p, v, l + 1)
  {
    var h0 := Home(p, v, l);
    forall h | y.Has(h) && Passed(h, p, v, l + 1)
      ensures y.LayerOf(h) in m[y.LayerOf(h0) := h0]
    {
      assert h == h0 || Passed(h, p, v, l);
    }
  }

  lemma FilledAll(y: Layout, m: map<int, Home>)
    requires FilledTo(y, m, y.pp, 0, 0)
    ensures IsLayerMap(y, m)
  {
    forall h | y.Has(h) ensures y.LayerOf(h) in m && m[y.LayerOf(h)] == h {
      assert Passed(h, y.pp, 0, 0);
      HomeOfLayer(y, h);
      HomeOfLayer(y, m[y.LayerOf(h)]);
    }
    forall x ensures x in m <==> 0 <= x < y.Layers() {
      if x in m { HomeOfLayer(y, m[x]); }
      if 0 <= x < y.Layers() { LayerOfHome(y, x); }
    }
  }

  lemma EvenIff(layers: nat, pp: nat, vp: nat)
    requires pp >= 1 && vp >= 1
    ensures pp * vp >= 1 && (layers / pp / vp * pp * vp == layers <==> layers % (pp * vp) == 0)
  {
    MulMonotonic(pp, 1, vp);
    var n := layers / pp / vp;
    if layers % (pp * vp) == 0 {
      var k := layers / (pp * vp);
      assert layers == pp * vp * k;
      assert layers == pp * (vp * k);
      DivModUnique(layers, pp, vp * k, 0);
      DivModUnique(vp * k, vp, k, 0);
      assert n * pp * vp == pp * vp * n;
    }
    if n * pp * vp == layers {
      assert layers == pp * vp * n;
      DivModUnique(layers, pp * vp, n, 0);
    }
  }

  lemma EvenChunks(y: Layout)
    requires y.pp >= 1 && y.vp >= 1
    ensures y.Layers() / y.vp == y.n * y.pp
    ensures y.Layers() / y.pp == y.n * y.vp && y.n * y.vp / y.vp == y.n
  {
    DivModUnique(y.Layers(), y.vp, y.n * y.pp, 0);
    assert y.Layers() == y.pp * (y.n * y.vp);
    DivModUnique(y.Layers(), y.pp, y.n * y.vp, 0);
    DivModUnique(y.n * y.vp, y.vp, y.n, 0);
  }

  /** `_megatron_calc_layer_map`; None stands for the failing assert. */
  method CalcLayerMap(layers: nat, pp: nat, vp: nat) returns (r: Option<map<int, Home>>)
    requires pp >= 1 && vp >= 1
    ensures r.Some? <==> layers % (pp * vp) == 0
    ensures r.Some? ==> exists n: nat :: layers == n * pp * vp && IsLayerMap(Layout(pp, vp, n), r.value)
  {
    QuotientNonNegative(layers, pp);
    QuotientNonNegative(layers / pp, vp);
    var n := layers / pp / vp;
    EvenIff(layers, pp, vp);
    if n * pp * vp != layers { return None; }
    var y := Layout(pp, vp, n);
    EvenChunks(y);
    var layerMap: map<int, Home> := map[];
    for p := 0 to pp
      invariant FilledTo(y, layerMap, p, 0, 0)
    {
      for v := 0 to vp
        invariant FilledTo(y, layerMap, p, v, 0)
      {
        var offset := v * (layers / vp) + p * n;
        for l := 0 to n
          invariant FilledTo(y, layerMap, p, v, l)
        {
          FillOne(y, layerMap, p, v, l);
          layerMap := layerMap[offset + l := Home(p, v, l)];
        }
        assert FilledTo(y, layerMap, p, v + 1, 0) by {
          assert forall h :: y.Has(h) ==> (Passed(h, p, v + 1, 0) <==> Passed(h, p, v, n));
        }
      }
      assert FilledTo(y, layerMap, p + 1, 0, 0) by {
        assert forall h :: y.Has(h) ==> (Passed(h, p + 1, 0, 0) <==> Passed(h, p, vp, 0));
      }
    }
    FilledAll(y, layerMap);
    return Some(layerMap);
  }

  /** The configuration that an even layout gives rise to; one chunk per rank means no virtual pipeline. */
  function EvenConfig(y: Layout): Config {
    Config(y.Layers(), y.pp, None, None, if y.vp == 1 then None else Some(y.vp))
  }

  ghost predicate OffsetsAgree(y: Layout)
    requires y.pp >= 1 && y.vp >= 1
  {
    forall h :: y.Has(h) ==> y.LayerOf(h) == LayerOffset(EvenConfig(y), h.pp, h.vp) + h.local
  }

  /**
   The layer map and the offset function place every layer alike, unless a virtual pipeline is asked for on a
   single stage: there the offset ignores the chunk.
   */
  lemma OffsetsAgreeIff(y: Layout)
    requires y.pp >= 1 && y.vp >= 1
    ensures OffsetsAgree(y) <==> y.pp > 1 || y.vp == 1 || y.n == 0
  {
    EvenChunks(y);
    if y.pp > 1 || y.vp == 1 || y.n == 0 {
      forall h | y.Has(h) ensures y.LayerOf(h) == LayerOffset(EvenConfig(y), h.pp, h.vp) + h.local {
        if y.vp == 1 { assert h.vp == 0; }
      }
    } else {
      var h := Home(0, 1, 0);
      assert y.Has(h) && LayerOffset(EvenConfig(y), 0, 1) == 0 && y.LayerOf(h) == y.n;
    }
  }

  /** Two chunks on a single stage: the map puts layer 1 into the second chunk, the offset calls it layer 0. */
  lemma TwoChunksOnOneStage()
    ensures Layout(1, 2, 1).HomeOf(1) == Home(0, 1, 0)
    ensures LayerOffset(EvenConfig(Layout(1, 2, 1)), 0, 1) == 0
    ensures !OffsetsAgree(Layout(1, 2, 1))
  {
    OffsetsAgreeIff(Layout(1, 2, 1));
  }

  // ---------- stages of uneven size ----------

  /** The sum of the first r sizes: what `np.cumsum` gives at r - 1. */
  function Prefix(sizes: seq<int>, r: nat): int
    requires r <= |sizes|
  {
    if r == 0 then 0 else Prefix(sizes, r - 1) + sizes[r - 1]
  }

  predicate AllPositive(sizes: seq<int>) {
    forall i :: 0 <= i < |sizes| ==> sizes[i] >= 1
  }

  lemma {:induction false} PrefixMonotonic(sizes: seq<int>, q: nat, r: nat)
    requires AllPositive(sizes) && q <= r <= |sizes|
    ensures 0 <= Prefix(sizes, q) <= Prefix(sizes, r)
  {
    if q < r { PrefixMonotonic(sizes, q, r - 1); } else if 0 < q { PrefixMonotonic(sizes, 0, q - 1); }
  }

  predicate InStage(sizes: seq<int>, r: nat, x: int) {
    r < |sizes| && Prefix(sizes, r) <= x < Prefix(sizes, r) + sizes[r]
  }

  ghost predicate InSomeStage(sizes: seq<int>, x: int) {
    exists r: nat :: InStage(sizes, r, x)
  }

  lemma {:induction false} StageExists(sizes: seq<int>, n: nat, x: int) returns (r: nat)
    requires n <= |sizes| && 0 <= x < Prefix(sizes, n)
    ensures InStage(sizes, r, x)
  {
    if x >= Prefix(sizes, n - 1) { r := n - 1; } else { r := StageExists(sizes, n - 1, x); }
  }

  lemma StageUnique(sizes: seq<int>, q: nat, r: nat, x: int)
    requires AllPositive(sizes) && InStage(sizes, q, x) && InStage(sizes, r, x)
    ensures q == r
  {
    if q < r { PrefixMonotonic(sizes, q + 1, r); }
    if r < q { PrefixMonotonic(sizes, r + 1, q); }
  }

  /** Consecutive stretches of these sizes cover 0..total, each number exactly once. */
  ghost predicate Tiles(sizes: seq<int>, total: int) {
    && (forall x :: 0 <= x < total ==> InSomeStage(sizes, x))
    && (forall x: int, r: nat :: InStage(sizes, r, x) ==> 0 <= x < total)
    && (forall x: int, q: nat, r: nat :: InStage(sizes, q, x) && InStage(sizes, r, x) ==> q == r)
  }

  lemma PositiveTiles(sizes: seq<int>)
    requires AllPositive(sizes)
    ensures Tiles(sizes, Prefix(sizes, |sizes|))
  {
    forall x | 0 <= x < Prefix(sizes, |sizes|) ensures InSomeStage(sizes, x) {
      var r := StageExists(sizes, |sizes|, x);
    }
    forall x: int, r: nat | InStage(sizes, r, x) ensures 0 <= x < Prefix(sizes, |sizes|) {
      PrefixMonotonic(sizes, 0, r);
      PrefixMonotonic(sizes, r + 1, |sizes|);
    }
    forall x: int, q: nat, r: nat | InStage(sizes, q, x) && InStage(sizes, r, x) ensures q == r {
      StageUnique(sizes, q, r, x);
    }
  }

  lemma {:induction false} PrefixIsSum(sizes: seq<int>, r: nat)
    requires r <= |sizes|
    ensures Prefix(sizes, r) == Sum(sizes[..r])
  {
    if r > 0 {
      PrefixIsSum(sizes, r - 1);
      assert sizes[..r] == sizes[..r - 1] + [sizes[r - 1]];
      SumAppend(sizes[..r - 1], [sizes[r - 1]]);
    }
  }

  lemma StagesPositive(layers: nat, pp: nat)
    requires PipelineShards.Splittable(layers, pp)
    ensures AllPositive(PipelineShards.Stages(layers, pp))
    ensures Prefix(PipelineShards.Stages(layers, pp), pp) == layers
  {
    var s := PipelineShards.Stages(layers, pp);
    forall i | 0 <= i < pp ensures s[i] >= 1 { PipelineShards.StagesShape(layers, pp, i); }
    PrefixIsSum(s, pp);
    TakeAll(s, pp);
    PipelineShards.StagesSum(layers, pp);
  }

  /** The merger's configuration for the stages that the shard search found. */
  function MergerConfig(layers: nat, pp: nat): Config
    requires PipelineShards.Splittable(layers, pp)
  {
    var s := PipelineShards.Stages(layers, pp);
    StagesPositive(layers, pp);
    Config(layers, pp, if pp > 1 then Some(s[0]) else None, if pp > 2 then Some(s[pp - 1]) else None, None)
  }

  lemma {:induction false} MiddlePrefix(layers: nat, pp: nat, r: nat)
    requires pp >= 3 && PipelineShards.Splittable(layers, pp) && 1 <= r < pp
    ensures var s := PipelineShards.Stages(layers, pp);
      Prefix(s, r) == (r - 1) * PipelineShards.LeastMiddle(layers, pp) + s[0]
  {
    var s, m := PipelineShards.Stages(layers, pp), PipelineShards.LeastMiddle(layers, pp);
    if r > 1 {
      MiddlePrefix(layers, pp, r - 1);
      PipelineShards.StagesShape(layers, pp, r - 1);
      assert (r - 1) * m == (r - 2) * m + m;
    } else {
      assert Prefix(s, 1) == Prefix(s, 0) + s[0];
    }
  }

  /** The offset at which a stage builds its layers is the prefix sum at which the merger renumbers them. */
  lemma OffsetIsPrefix(layers: nat, pp: nat, rank: nat)
    requires PipelineShards.Splittable(layers, pp) && rank < pp
    ensures LayerOffset(MergerConfig(layers, pp), rank, 0) == Prefix(PipelineShards.Stages(layers, pp), rank)
  {
    var s := PipelineShards.Stages(layers, pp);
    if pp >= 3 {
      var m := PipelineShards.LeastMiddle(layers, pp);
      assert layers - s[0] - s[pp - 1] == (pp - 2) * m;
      DivModUnique((pp - 2) * m, pp - 2, m, 0);
      if rank > 0 { MiddlePrefix(layers, pp, rank); }
    } else if pp == 2 && rank == 1 {
      assert Prefix(s, 1) == Prefix(s, 0) + s[0];
    }
  }

  /** So the stages that the merger reads cover the model's layers, each exactly once. */
  lemma StagesTileLayers(layers: nat, pp: nat)
    requires PipelineShards.Splittable(layers, pp)
    ensures Tiles(PipelineShards.Stages(layers, pp), layers)
  {
    StagesPositive(layers, pp);
    PositiveTiles(PipelineShards.Stages(layers, pp));
  }

  // ---------- saved files ----------

  function SavesPerLayer(layers: nat): nat { if layers < 30 then 1 else 2 }

  function Scaled(sizes: seq<int>, k: int): (s: seq<int>)
    ensures |s| == |sizes| && forall i :: 0 <= i < |s| ==> s[i] == sizes[i] * k
  {
    seq(|sizes|, i requires 0 <= i < |sizes| => sizes[i] * k)
  }

  lemma {:induction false} ScaledPrefix(sizes: seq<int>, k: int, r: nat)
    requires r <= |sizes|
    ensures Prefix(Scaled(sizes, k), r) == Prefix(sizes, r) * k
  {
    if r > 0 { ScaledPrefix(sizes, k, r - 1); }
  }

  /** File i of a rank is numbered `layer_start * saves_per_layer + i`. */
  function FileIndex(layers: nat, pp: nat, rank: nat, i: nat): int
    requires PipelineShards.Splittable(layers, pp) && rank < pp
  {
    Prefix(PipelineShards.Stages(layers, pp), rank) * SavesPerLayer(layers) + i
  }

  predicate WritesFile(layers: nat, pp: nat, rank: nat, i: nat)
    requires PipelineShards.Splittable(layers, pp)
  {
    rank < pp && i < PipelineShards.Stages(layers, pp)[rank] * SavesPerLayer(layers)
  }

  /** One file for each of up to 29 layers, two for each of more. */
  function Files(layers: nat): (n: nat)
    ensures layers < 30 ==> n == layers
    ensures layers >= 30 ==> n == layers + layers
  {
    SavesPerLayer(layers) * layers
  }

  /** Across the ranks every one of the `saves_total` file numbers is written, and by one chunk only. */
  lemma FilesTile(layers: nat, pp: nat, x: int)
    requires PipelineShards.Splittable(layers, pp)
    ensures 0 <= x < Files(layers) <==>
      exists rank: nat, i: nat :: WritesFile(layers, pp, rank, i) && FileIndex(layers, pp, rank, i) == x
    ensures forall q: nat, i: nat, r: nat, j: nat :: (
      WritesFile(layers, pp, q, i) && WritesFile(layers, pp, r, j) &&
      FileIndex(layers, pp, q, i) == FileIndex(layers, pp, r, j)) ==> q == r && i == j
  {
    var s, k := PipelineShards.Stages(layers, pp), SavesPerLayer(layers);
    var files := Scaled(s, k);
    StagesPositive(layers, pp);
    ScaledPrefix(s, k, pp);
    PositiveTiles(files);
    if 0 <= x < k * layers {
      var r := StageExists(files, pp, x);
      ScaledPrefix(s, k, r);
      var i := x - Prefix(files, r);
      assert WritesFile(layers, pp, r, i) && FileIndex(layers, pp, r, i) == x;
    }
    forall q: nat, i: nat | WritesFile(layers, pp, q, i)
      ensures InStage(files, q, FileIndex(layers, pp, q, i))
    {
      ScaledPrefix(s, k, q);
    }
  }

  /** The numbers run on: through the chunks of a rank, then to the first chunk of the next rank. */
  lemma FilesInOrder(layers: nat, pp: nat, rank: nat, i: nat)
    requires PipelineShards.Splittable(layers, pp) && WritesFile(layers, pp, rank, i)
    ensures rank == 0 && i == 0 ==> FileIndex(layers, pp, rank, i) == 0
    ensures WritesFile(layers, pp, rank, i + 1) ==>
      FileIndex(layers, pp, rank, i + 1) == FileIndex(layers, pp, rank, i) + 1
    ensures !WritesFile(layers, pp, rank, i + 1) ==>
      FileIndex(layers, pp, rank, i) + 1 == if rank + 1 < pp then FileIndex(layers, pp, rank + 1, 0) else Files(layers)
  {
    var s, k := PipelineShards.Stages(layers, pp), SavesPerLayer(layers);
    StagesPositive(layers, pp);
    var next := Prefix(s, rank + 1);
    assert next == Prefix(s, rank) + s[rank];
    assert next * k == Prefix(s, rank) * k + s[rank] * k;
  }

  // ---------- global ranks ----------

  datatype Grid = Grid(tp: nat, cp: nat, dp: nat, pp: nat) {
    function Size(): nat { tp * dp * pp * cp }
  }

  datatype Rank = Rank(tp: nat, cp: nat, dp: nat, pp: nat) {
    predicate In(g: Grid) { tp < g.tp && cp < g.cp && dp < g.dp && pp < g.pp }
  }

  /** `_megatron_calc_global_rank` */
  function GlobalRank(g: Grid, r: Rank): int {
    ((r.pp * g.dp + r.dp) * g.cp + r.cp) * g.tp + r.tp
  }

  /** Neighbouring tensor ranks are one apart, and each further kind of rank a whole block of the kinds before it. */
  lemma NeighboursApart(g: Grid, r: Rank)
    ensures GlobalRank(g, r.(tp := r.tp + 1)) == GlobalRank(g, r) + 1
    ensures GlobalRank(g, r.(cp := r.cp + 1)) == GlobalRank(g, r) + g.tp
    ensures GlobalRank(g, r.(dp := r.dp + 1)) == GlobalRank(g, r) + g.tp * g.cp
    ensures GlobalRank(g, r.(pp := r.pp + 1)) == GlobalRank(g, r) + g.tp * g.cp * g.dp
    ensures GlobalRank(g, Rank(0, 0, 0, 0)) == 0
  {
    var a := r.pp * g.dp + r.dp;
    var b := a * g.cp + r.cp;
    assert (b + 1) * g.tp == b * g.tp + g.tp;
    assert (a + 1) * g.cp == a * g.cp + g.cp;
    assert (b + g.cp) * g.tp == b * g.tp + g.tp * g.cp;
    assert (a + g.dp) * g.cp == a * g.cp + g.cp * g.dp;
    assert (b + g.cp * g.dp) * g.tp == b * g.tp + g.tp * g.cp * g.dp;
    assert (r.pp + 1) * g.dp == r.pp * g.dp + g.dp;
  }

  lemma Nest(outer: int, bound: int, inner: int, width: int)
    requires 0 <= outer < bound && 0 <= inner < width
    ensures 0 <= outer * width + inner < bound * width
    ensures (outer * width + inner) / width == outer && (outer * width + inner) % width == inner
  {
    MulMonotonic(width, outer + 1, bound);
    assert width * (outer + 1) == outer * width + width && width * bound == bound * width;
    assert outer * width + inner == width * outer + inner;
    DivModUnique(outer * width + inner, width, outer, inner);
  }

  lemma Unnest(x: int, bound: int, width: int)
    requires 0 <= x < bound * width && width >= 1
    ensures 0 <= x / width < bound && 0 <= x % width < width && x / width * width + x % width == x
  {
    assert x == width * (x / width) + x % width;
    if x / width >= bound { MulMonotonic(width, bound, x / width); }
    assert width * bound == bound * width;
    QuotientNonNegative(x, width);
  }

  function RankAt(g: Grid, x: int): Rank
    requires g.tp >= 1 && g.cp >= 1 && g.dp >= 1 && x >= 0
  {
    QuotientNonNegative(x, g.tp);
    QuotientNonNegative(x / g.tp, g.cp);
    QuotientNonNegative(x / g.tp / g.cp, g.dp);
    Rank(x % g.tp, x / g.tp % g.cp, x / g.tp / g.cp % g.dp, x / g.tp / g.cp / g.dp)
  }

  /** Coordinates and world ranks correspond one to one. */
  lemma GlobalRankInverse(g: Grid, r: Rank)
    requires r.In(g)
    ensures 0 <= GlobalRank(g, r) < g.Size() && RankAt(g, GlobalRank(g, r)) == r
  {
    var a := r.pp * g.dp + r.dp;
    var b := a * g.cp + r.cp;
    Nest(r.pp, g.pp, r.dp, g.dp);
    Nest(a, g.pp * g.dp, r.cp, g.cp);
    Nest(b, g.pp * g.dp * g.cp, r.tp, g.tp);
    assert g.pp * g.dp * g.cp * g.tp == g.Size();
  }

  lemma SizeAsProduct(g: Grid)
    ensures g.Size() == g.pp * g.dp * g.cp * g.tp
  {
  }

  lemma UnnestOne(x: int, bound: int, width: int) returns (outer: nat)
    requires 0 <= x < bound * width && width >= 1
    ensures outer == x / width && outer < bound
    ensures 0 <= x % width < width && outer * width + x % width == x
  {
    Unnest(x, bound, width);
    outer := x / width;
  }

  lemma RankAtInverse(g: Grid, x: int)
    requires g.tp >= 1 && g.cp >= 1 && g.dp >= 1 && 0 <= x < g.Size()
    ensures RankAt(g, x).In(g) && GlobalRank(g, RankAt(g, x)) == x
  {
    SizeAsProduct(g);
    var b := UnnestOne(x, g.pp * g.dp * g.cp, g.tp);
    var a := UnnestOne(b, g.pp * g.dp, g.cp);
    var p := UnnestOne(a, g.pp, g.dp);
  }
}
