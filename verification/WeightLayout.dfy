/**
 Fused attention and MLP weights: how verl/models/mcore/loader.py lays query, key and value rows out for each
 tensor-parallel rank, and how the saver, the weight converters and the two mergers take them apart again.
 */
module WeightLayout {
  import opened Arithmetic
  import opened Sequences
  import opened Blocks
  import opened Wrappers

  /** Rows of a query group: its query heads, and its key (or value) head. */
  datatype Dims = Dims(bq: nat, bk: nat) {
    function Size(): nat { bq + 2 * bk }
  }

  /** Rows of the three projections. */
  datatype Qkv<T> = Qkv(q: seq<T>, k: seq<T>, v: seq<T>) {
    /** n query groups with these row counts each. */
    predicate Fits(d: Dims, n: nat) {
      |q| == n * d.bq && |k| == n * d.bk && |v| == n * d.bk
    }
  }

  // ---------- the interleaved layout ----------

  function Triple<T>(w: Qkv<T>, d: Dims, n: nat, j: nat): (r: seq<T>)
    requires w.Fits(d, n) && j < n
    ensures |r| == d.Size()
  {
    Block(w.q, d.bq, n, j) + Block(w.k, d.bk, n, j) + Block(w.v, d.bk, n, j)
  }

  function Triples<T>(w: Qkv<T>, d: Dims, n: nat): (r: seq<seq<T>>)
    requires w.Fits(d, n)
    ensures |r| == n && AllOfSize(r, d.Size()) && forall j :: 0 <= j < n ==> r[j] == Triple(w, d, n, j)
  {
    seq(n, j requires 0 <= j < n => Triple(w, d, n, j))
  }

  /** Group after group: its query rows, its key rows, its value rows. */
  function Interleaved<T>(w: Qkv<T>, d: Dims, n: nat): seq<T>
    requires w.Fits(d, n)
  {
    Flatten(Triples(w, d, n))
  }

  lemma TripleParts<T>(w: Qkv<T>, u: Qkv<T>, d: Dims, n: nat, j: nat)
    requires w.Fits(d, n) && u.Fits(d, n) && j < n && Triple(w, d, n, j) == Triple(u, d, n, j)
    ensures Block(w.q, d.bq, n, j) == Block(u.q, d.bq, n, j)
    ensures Block(w.k, d.bk, n, j) == Block(u.k, d.bk, n, j)
    ensures Block(w.v, d.bk, n, j) == Block(u.v, d.bk, n, j)
  {
    var s, t := Triple(w, d, n, j), Triple(u, d, n, j);
    assert Block(w.q, d.bq, n, j) == s[..d.bq] && Block(u.q, d.bq, n, j) == t[..d.bq];
    assert Block(w.k, d.bk, n, j) == s[d.bq..d.bq + d.bk] && Block(u.k, d.bk, n, j) == t[d.bq..d.bq + d.bk];
    assert Block(w.v, d.bk, n, j) == s[d.bq + d.bk..] && Block(u.v, d.bk, n, j) == t[d.bq + d.bk..];
  }

  lemma SameBlocks<T>(s: seq<T>, t: seq<T>, b: nat, n: nat)
    requires |s| == |t| == n * b && forall j :: 0 <= j < n ==> Block(s, b, n, j) == Block(t, b, n, j)
    ensures s == t
  {
    FlattenOfCut(s, b, n);
    FlattenOfCut(t, b, n);
    assert Cut(s, b, n) == Cut(t, b, n);
  }

  /** The layout loses nothing: different projections are laid out differently. */
  lemma InterleavedInjective<T>(w: Qkv<T>, u: Qkv<T>, d: Dims, n: nat)
    requires w.Fits(d, n) && u.Fits(d, n) && Interleaved(w, d, n) == Interleaved(u, d, n)
    ensures w == u
  {
    CutOfFlatten(Triples(w, d, n), d.Size());
    CutOfFlatten(Triples(u, d, n), d.Size());
    forall j | 0 <= j < n
      ensures Block(w.q, d.bq, n, j) == Block(u.q, d.bq, n, j)
      ensures Block(w.k, d.bk, n, j) == Block(u.k, d.bk, n, j)
      ensures Block(w.v, d.bk, n, j) == Block(u.v, d.bk, n, j)
    {
      assert Triples(w, d, n)[j] == Triples(u, d, n)[j];
      TripleParts(w, u, d, n, j);
    }
    SameBlocks(w.q, u.q, d.bq, n);
    SameBlocks(w.k, u.k, d.bk, n);
    SameBlocks(w.v, u.v, d.bk, n);
  }

  // ---------- one rank's part ----------

  lemma PartFits(d: Dims, n: nat, tp: nat)
    ensures tp * n * d.bq == tp * (n * d.bq) && tp * n * d.bk == tp * (n * d.bk)
  {
  }

  /** The heads of rank i. */
  function RankPart<T>(w: Qkv<T>, d: Dims, n: nat, tp: nat, i: nat): (p: Qkv<T>)
    requires w.Fits(d, tp * n) && i < tp
    ensures p.Fits(d, n)
  {
    PartFits(d, n, tp);
    Qkv(Block(w.q, n * d.bq, tp, i), Block(w.k, n * d.bk, tp, i), Block(w.v, n * d.bk, tp, i))
  }

  /** What rank i holds: the layout of its own heads. */
  function Shards<T>(w: Qkv<T>, d: Dims, n: nat, tp: nat): (r: seq<seq<T>>)
    requires w.Fits(d, tp * n)
    ensures |r| == tp && forall i :: 0 <= i < tp ==> r[i] == Interleaved(RankPart(w, d, n, tp, i), d, n)
  {
    seq(tp, i requires 0 <= i < tp => Interleaved(RankPart(w, d, n, tp, i), d, n))
  }

  lemma TripleOfPart<T>(w: Qkv<T>, d: Dims, n: nat, tp: nat, i: nat, j: nat)
    requires w.Fits(d, tp * n) && i < tp && j < n
    ensures 0 <= i * n + j < tp * n
    ensures Triple(RankPart(w, d, n, tp, i), d, n, j) == Triple(w, d, tp * n, i * n + j)
  {
    PartFits(d, n, tp);
    SlotInRange(n, i, tp);
    BlockInBlock(w.q, d.bq, n, tp, i, j);
    BlockInBlock(w.k, d.bk, n, tp, i, j);
    BlockInBlock(w.v, d.bk, n, tp, i, j);
  }

  lemma FlattenMore<T>(all: seq<seq<T>>, from: nat, more: seq<seq<T>>)
    requires from + |more| <= |all| && forall j :: 0 <= j < |more| ==> more[j] == all[from + j]
    ensures Flatten(all[..from + |more|]) == Flatten(all[..from]) + Flatten(more)
  {
    assert all[..from + |more|] == all[..from] + more;
    FlattenAppend(all[..from], more);
  }

  /** Rank r's shard continues the layout of the ranks before it. */
  lemma ShardContinues<T>(w: Qkv<T>, d: Dims, n: nat, tp: nat, r: nat)
    requires w.Fits(d, tp * n) && r < tp
    ensures 0 <= r * n && r * n + n <= tp * n
    ensures Flatten(Triples(w, d, tp * n)[..r * n + n])
         == Flatten(Triples(w, d, tp * n)[..r * n]) + Interleaved(RankPart(w, d, n, tp, r), d, n)
  {
    SlotInRange(n, r, tp);
    var triples, mine := Triples(w, d, tp * n), Triples(RankPart(w, d, n, tp, r), d, n);
    forall j | 0 <= j < n ensures mine[j] == triples[r * n + j] {
      TripleOfPart(w, d, n, tp, r, j);
    }
    FlattenMore(triples, r * n, mine);
  }

  /** The first r shards make up the layout of the first r ranks' groups. */
  predicate JoinedTo<T(==)>(w: Qkv<T>, d: Dims, n: nat, tp: nat, r: nat)
    requires w.Fits(d, tp * n) && r <= tp
  {
    0 <= r * n <= tp * n && Flatten(Shards(w, d, n, tp)[..r]) == Flatten(Triples(w, d, tp * n)[..r * n])
  }

  lemma JoinedNext<T>(w: Qkv<T>, d: Dims, n: nat, tp: nat, r: nat)
    requires w.Fits(d, tp * n) && r < tp && JoinedTo(w, d, n, tp, r)
    ensures JoinedTo(w, d, n, tp, r + 1)
  {
    SlotInRange(n, r, tp);
    FlattenTake(Shards(w, d, n, tp), r + 1);
    ShardContinues(w, d, n, tp, r);
  }

  lemma ShardsJoinTo<T>(w: Qkv<T>, d: Dims, n: nat, tp: nat)
    requires w.Fits(d, tp * n)
    ensures JoinedTo(w, d, n, tp, tp)
  {
    SlotInRange(tp * n, 0, 1);
    for r := 0 to tp
      invariant JoinedTo(w, d, n, tp, r)
    {
      JoinedNext(w, d, n, tp, r);
    }
  }

  /** The ranks' shards, joined, are the same layout whatever the tensor-parallel size. */
  lemma ShardsJoin<T>(w: Qkv<T>, d: Dims, n: nat, tp: nat)
    requires w.Fits(d, tp * n)
    ensures Flatten(Shards(w, d, n, tp)) == Interleaved(w, d, tp * n)
  {
    ShardsJoinTo(w, d, n, tp);
    TakeAll(Shards(w, d, n, tp), tp);
    TakeAll(Triples(w, d, tp * n), tp * n);
  }

  // ---------- which row stands where ----------

  lemma BlockRow<T>(s: seq<T>, b: nat, n: nat, j: nat, x: nat)
    requires |s| == n * b && j < n && x < b
    ensures 0 <= j * b + x < |s| && Block(s, b, n, j)[x] == s[j * b + x]
  {
    SlotInRange(b, j, n);
  }

  /** Row x of the j-th of n groups is a query row, then a key row, then a value row of that group. */
  predicate RowOfGroup<T(==)>(w: Qkv<T>, d: Dims, n: nat, j: nat, x: nat, row: T)
    requires w.Fits(d, n)
  {
    if x < d.bq then 0 <= j * d.bq + x < |w.q| && row == w.q[j * d.bq + x]
    else if x < d.bq + d.bk then 0 <= j * d.bk + (x - d.bq) < |w.k| && row == w.k[j * d.bk + (x - d.bq)]
    else 0 <= j * d.bk + (x - d.bq - d.bk) < |w.v| && row == w.v[j * d.bk + (x - d.bq - d.bk)]
  }

  lemma TripleRow<T>(w: Qkv<T>, d: Dims, n: nat, j: nat, x: nat)
    requires w.Fits(d, n) && j < n && x < d.Size()
    ensures RowOfGroup(w, d, n, j, x, Triple(w, d, n, j)[x])
  {
    if x < d.bq {
      BlockRow(w.q, d.bq, n, j, x);
    } else if x < d.bq + d.bk {
      BlockRow(w.k, d.bk, n, j, x - d.bq);
    } else {
      BlockRow(w.v, d.bk, n, j, x - d.bq - d.bk);
    }
  }

  /** The j-th group of rank i is the model's group i * n + j; its rows stand in the shard one after the other. */
  lemma ShardRow<T>(w: Qkv<T>, d: Dims, n: nat, tp: nat, i: nat, j: nat, x: nat)
    requires w.Fits(d, tp * n) && i < tp && j < n && x < d.Size()
    ensures 0 <= j * d.Size() + x < |Shards(w, d, n, tp)[i]| && 0 <= i * n + j
    ensures RowOfGroup(w, d, tp * n, i * n + j, x, Shards(w, d, n, tp)[i][j * d.Size() + x])
  {
    var part := RankPart(w, d, n, tp, i);
    BlockOfFlatten(Triples(part, d, n), d.Size(), j);
    BlockRow(Interleaved(part, d, n), d.Size(), n, j, x);
    TripleOfPart(w, d, n, tp, i, j);
    TripleRow(w, d, tp * n, i * n + j, x);
  }

  // ---------- the sizes that the code computes ----------

  /** `head_dim`, `num_attention_heads`, `num_key_value_heads` and `num_query_groups` of a model. */
  datatype Config = Config(headDim: nat, heads: nat, kvHeads: nat, groups: nat) {
    /** Key-value heads divide evenly among the ranks, query heads among them, and are the query groups. */
    predicate Regular(tp: nat) {
      && headDim >= 1 && tp >= 1 && heads >= 1 && kvHeads >= 1
      && kvHeads % tp == 0 && heads % kvHeads == 0 && groups == kvHeads
    }

    /** The same, or there are fewer key-value heads than ranks. */
    predicate Allowed(tp: nat) {
      && headDim >= 1 && tp >= 1 && heads >= 1 && kvHeads >= 1
      && (kvHeads % tp == 0 || kvHeads < tp) && heads % kvHeads == 0 && groups == kvHeads
    }

    /** `num_query_groups_per_partition` */
    function PerPartition(tp: nat): nat
      requires tp >= 1
    {
      QuotientNonNegative(groups, tp);
      groups / tp
    }

    /** `q_size_tp` */
    function QSize(tp: nat): nat
      requires tp >= 1
    {
      QuotientNonNegative(headDim * heads, tp);
      headDim * heads / tp
    }

    /** `kv_size_tp`, in either branch of the converters */
    function KvSize(tp: nat): nat
      requires tp >= 1
    {
      QuotientNonNegative(headDim * kvHeads, tp);
      if kvHeads >= tp then headDim * kvHeads / tp else headDim
    }

    /** A rank's rows divide into its query groups, if it has any. */
    predicate Cuts(tp: nat) {
      && tp >= 1 && kvHeads >= 1
      && (groups >= tp ==>
           PerPartition(tp) >= 1 && QSize(tp) % PerPartition(tp) == 0 && KvSize(tp) % PerPartition(tp) == 0 &&
           CutDims(tp).bq >= 1)
    }

    /** `q_size_chunk` and `kv_size_chunk` */
    function CutDims(tp: nat): Dims
      requires tp >= 1 && PerPartition(tp) >= 1
    {
      QuotientNonNegative(QSize(tp), PerPartition(tp));
      QuotientNonNegative(KvSize(tp), PerPartition(tp));
      Dims(QSize(tp) / PerPartition(tp), KvSize(tp) / PerPartition(tp))
    }

    /** With fewer key-value heads than ranks, rank i's are kept once for every head. */
    predicate Keeps(tp: nat, i: nat)
      requires tp >= 1
    {
      i * kvHeads % tp == 0
    }

    function Queries(): nat
      requires kvHeads >= 1
    {
      QuotientNonNegative(heads, kvHeads);
      heads / kvHeads
    }

    function GroupsPerRank(tp: nat): nat
      requires tp >= 1
    {
      QuotientNonNegative(kvHeads, tp);
      kvHeads / tp
    }

    function GroupDims(): Dims
      requires kvHeads >= 1
    {
      Dims(headDim * Queries(), headDim)
    }
  }

  lemma MoveFactor(a: int, b: int, c: int)
    ensures a * (b * c) == b * (a * c)
  {
    assert a * (b * c) == a * b * c == b * a * c;
  }

  lemma CountsExact(c: Config, tp: nat)
    requires c.Regular(tp)
    ensures var n, g := c.GroupsPerRank(tp), c.Queries();
      n >= 1 && g >= 1 && c.kvHeads == tp * n && c.heads == c.kvHeads * g && c.heads == tp * (n * g)
    ensures c.GroupDims().bq >= 1
  {
    var n, g := c.GroupsPerRank(tp), c.Queries();
    ExactDivision(c.kvHeads, tp);
    ExactDivision(c.heads, c.kvHeads);
    assert c.kvHeads == tp * n && c.heads == c.kvHeads * g;
    assert tp * n * g == tp * (n * g);
    if n <= 0 { MulMonotonic(tp, n, 0); }
    if g <= 0 { MulMonotonic(c.kvHeads, g, 0); }
    MulMonotonic(c.headDim, 1, g);
  }

  /** `q_size_tp`, `kv_size_tp` and what they are divided into, in rows of query groups. */
  lemma SizesExact(c: Config, tp: nat)
    requires c.Regular(tp)
    ensures var n, d := c.GroupsPerRank(tp), c.GroupDims();
      c.headDim * c.heads / tp == n * d.bq && c.headDim * c.kvHeads / tp == n * d.bk &&
      n * d.bq + 2 * (n * d.bk) == n * d.Size()
    ensures var n, d := c.GroupsPerRank(tp), c.GroupDims();
      n >= 1 && n * d.Size() / n == d.Size() && n * d.bq / n == d.bq && n * d.bk / n == d.bk
  {
    CountsExact(c, tp);
    var n, g, d := c.GroupsPerRank(tp), c.Queries(), c.GroupDims();
    MoveFactor(c.headDim, tp, n * g);
    MoveFactor(c.headDim, n, g);
    DivModUnique(c.headDim * c.heads, tp, n * d.bq, 0);
    MoveFactor(c.headDim, tp, n);
    assert c.headDim * n == n * d.bk;
    DivModUnique(c.headDim * c.kvHeads, tp, n * d.bk, 0);
    DivModUnique(n * d.Size(), n, d.Size(), 0);
    DivModUnique(n * d.bq, n, d.bq, 0);
    DivModUnique(n * d.bk, n, d.bk, 0);
  }

  // ---------- loader: laying the rows out ----------

  /** Copies one more group behind the j groups laid out so far. */
  method CopyGroup<T>(weight: array<T>, at: nat, group: seq<T>, ghost before: seq<T>, ghost groups: seq<seq<T>>,
      ghost j: nat)
    requires at + |group| <= weight.Length && j < |groups| && group == groups[j]
    requires weight[..at] == before + Flatten(groups[..j])
    modifies weight
    ensures weight[..at + |group|] == before + Flatten(groups[..j + 1])
  {
    FlattenTake(groups, j + 1);
    CopySlice(weight, at, group);
  }

  /** Rank-local part of the loader's nest: groups of one rank, copied one after the other. */
  method LoadPartition<T>(weight: array<T>, at: nat, part: Qkv<T>, d: Dims, n: nat, perHead: nat)
    requires n >= 1 && d.bq >= 1 && d.bk >= 1 && perHead == d.Size() && part.Fits(d, n)
    requires at + n * perHead <= weight.Length
    modifies weight
    ensures weight[..at + n * perHead] == old(weight[..at]) + Interleaved(part, d, n)
  {
    ChunkEven(part.q, d.bq, n);
    ChunkEven(part.k, d.bk, n);
    ChunkEven(part.v, d.bk, n);
    var qHeads, kHeads, vHeads := TorchChunk(part.q, n), TorchChunk(part.k, n), TorchChunk(part.v, n);
    ghost var triples := Triples(part, d, n);
    for j := 0 to n
      invariant 0 <= j * perHead <= n * perHead
      invariant weight[..at + j * perHead] == old(weight[..at]) + Flatten(triples[..j])
    {
      SlotInRange(perHead, j, n);
      CopyGroup(weight, at + j * perHead, qHeads[j] + kHeads[j] + vHeads[j], old(weight[..at]), triples, j);
    }
    TakeAll(triples, n);
  }

  lemma ShardSizes<T>(w: Qkv<T>, d: Dims, n: nat, tp: nat)
    requires w.Fits(d, tp * n)
    ensures AllOfSize(Shards(w, d, n, tp), n * d.Size())
  {
    forall i | 0 <= i < tp ensures |Shards(w, d, n, tp)[i]| == n * d.Size() {
      FlattenSize(Triples(RankPart(w, d, n, tp, i), d, n), d.Size());
    }
  }

  lemma ShardsCut<T>(w: Qkv<T>, d: Dims, n: nat, tp: nat, total: nat)
    requires n >= 1 && tp >= 1 && d.bq >= 1 && w.Fits(d, tp * n) && total == n * d.Size()
    ensures var all := Flatten(Shards(w, d, n, tp));
      all != [] && TorchChunk(all, tp) == Shards(w, d, n, tp)
  {
    ShardSizes(w, d, n, tp);
    CutOfFlatten(Shards(w, d, n, tp), total);
    MulMonotonic(d.Size(), 1, n);
    ChunkEven(Flatten(Shards(w, d, n, tp)), total, tp);
  }

  /** `q_part`, `k_part` and `v_part` of rank i. */
  method SliceRank<T>(w: Qkv<T>, d: Dims, n: nat, tp: nat, i: nat, qSize: nat, kvSize: nat) returns (part: Qkv<T>)
    requires i < tp && w.Fits(d, tp * n) && qSize == n * d.bq && kvSize == n * d.bk
    ensures part == RankPart(w, d, n, tp, i)
  {
    PartFits(d, n, tp);
    SlotInRange(qSize, i, tp);
    SlotInRange(kvSize, i, tp);
    part := Qkv(w.q[i * qSize..(i + 1) * qSize], w.k[i * kvSize..(i + 1) * kvSize],
                w.v[i * kvSize..(i + 1) * kvSize]);
  }

  /** The loader's outer loop, once the sizes are known. */
  method LoadRanks<T(0)>(w: Qkv<T>, d: Dims, n: nat, tp: nat, qSize: nat, kvSize: nat, total: nat)
    returns (shards: seq<seq<T>>)
    requires n >= 1 && tp >= 1 && d.bq >= 1 && d.bk >= 1 && w.Fits(d, tp * n)
    requires qSize == n * d.bq && kvSize == n * d.bk && total == n * d.Size()
    ensures shards == Shards(w, d, n, tp)
  {
    PartFits(d, n, tp);
    ghost var parts := Shards(w, d, n, tp);
    SlotInRange(total, 0, tp);
    var weight := new T[tp * total];
    for i := 0 to tp
      invariant 0 <= i * total <= tp * total
      invariant weight[..i * total] == Flatten(parts[..i])
    {
      SlotInRange(total, i, tp);
      var part := SliceRank(w, d, n, tp, i, qSize, kvSize);
      LoadPartition(weight, i * total, part, d, n, d.Size());
      FlattenTake(parts, i + 1);
    }
    TakeAll(parts, tp);
    assert weight[..] == weight[..tp * total];
    ShardsCut(w, d, n, tp, total);
    return TorchChunk(weight[..], tp);
  }

  /** `_broadcast_tp_shard_tensor_qkv` of the loader, up to the broadcast: the shard of every rank. */
  method LoadQkv<T(0)>(c: Config, tp: nat, w: Qkv<T>) returns (shards: seq<seq<T>>)
    requires c.Regular(tp) && w.Fits(c.GroupDims(), c.kvHeads)
    ensures c.kvHeads == tp * c.GroupsPerRank(tp)
    ensures shards == Shards(w, c.GroupDims(), c.GroupsPerRank(tp), tp)
  {
    CountsExact(c, tp);
    SizesExact(c, tp);
    var qSize, kvSize := c.headDim * c.heads / tp, c.headDim * c.kvHeads / tp;
    var total := qSize + 2 * kvSize;
    var perPartition := c.groups / tp;
    shards := LoadRanks(w, Dims(qSize / perPartition, kvSize / perPartition), perPartition, tp, qSize, kvSize, total);
  }

  // ---------- taking fused rows apart ----------

  /** The three lists that the un-fusing loops fill. */
  datatype Lists<T> = Lists(qs: seq<seq<T>>, ks: seq<seq<T>>, vs: seq<seq<T>>) {
    /** Entry j of the three lists makes up block j. */
    ghost predicate Split(d: Dims, blocks: seq<seq<T>>) {
      && |qs| == |ks| == |vs| == |blocks|
      && AllOfSize(qs, d.bq) && AllOfSize(ks, d.bk) && AllOfSize(vs, d.bk)
      && forall j {:trigger blocks[j]} :: 0 <= j < |blocks| ==> qs[j] + ks[j] + vs[j] == blocks[j]
    }

    /** The final `torch.cat`s. */
    function Joined(): Qkv<T> {
      Qkv(Flatten(qs), Flatten(ks), Flatten(vs))
    }
  }

  lemma SplitTriple<T>(l: Lists<T>, d: Dims, blocks: seq<seq<T>>, j: nat)
    requires l.Split(d, blocks) && j < |blocks|
    ensures l.Joined().Fits(d, |blocks|) && Triple(l.Joined(), d, |blocks|, j) == blocks[j]
  {
    BlockOfFlatten(l.qs, d.bq, j);
    BlockOfFlatten(l.ks, d.bk, j);
    BlockOfFlatten(l.vs, d.bk, j);
  }

  /** Lists that split the blocks of a tensor join to projections that are laid out as that tensor. */
  lemma SplitJoins<T>(l: Lists<T>, d: Dims, blocks: seq<seq<T>>)
    requires l.Split(d, blocks)
    ensures l.Joined().Fits(d, |blocks|) && Interleaved(l.Joined(), d, |blocks|) == Flatten(blocks)
  {
    FlattenSize(l.qs, d.bq);
    FlattenSize(l.ks, d.bk);
    FlattenSize(l.vs, d.bk);
    var triples := Triples(l.Joined(), d, |blocks|);
    forall j | 0 <= j < |blocks| ensures triples[j] == blocks[j] {
      SplitTriple(l, d, blocks, j);
    }
    assert triples == blocks;
  }

  /** The inner loop: one rank's tensor is chunked by query groups and each chunk cut in three. */
  method SplitPartition<T>(l: Lists<T>, part: seq<T>, n: nat, qSize: nat, kvSize: nat, ghost d: Dims,
      ghost blocks: seq<seq<T>>)
    returns (r: Lists<T>)
    requires n >= 1 && d.bq >= 1 && qSize == d.bq && kvSize == d.bk && |part| == n * d.Size()
    requires l.Split(d, blocks)
    ensures r.Split(d, blocks + Cut(part, d.Size(), n))
  {
    ChunkEven(part, d.Size(), n);
    var chunks := TorchChunk(part, n);
    r := l;
    for j := 0 to n
      invariant r.Split(d, blocks + chunks[..j])
    {
      var chunk := chunks[j];
      var q, k, v := chunk[..qSize], chunk[qSize..qSize + kvSize], chunk[qSize + kvSize..];
      r := Lists(r.qs + [q], r.ks + [k], r.vs + [v]);
      assert q + k + v == chunk;
      assert blocks + chunks[..j + 1] == blocks + chunks[..j] + [chunk];
    }
    TakeAll(chunks, n);
  }

  lemma BlocksGrow<T>(blocks: seq<seq<T>>, parts: seq<seq<T>>, i: nat, b: nat, n: nat)
    requires i < |parts| && |parts[i]| == n * b && Flatten(blocks) == Flatten(parts[..i])
    ensures Flatten(blocks + Cut(parts[i], b, n)) == Flatten(parts[..i + 1])
  {
    FlattenAppend(blocks, Cut(parts[i], b, n));
    FlattenOfCut(parts[i], b, n);
    FlattenTake(parts, i + 1);
  }

  /** The un-fusing nest over a joined tensor, cut rank by rank. */
  method SplitFull<T>(full: seq<T>, tp: nat, total: nat, n: nat, qSize: nat, kvSize: nat, ghost d: Dims)
    returns (w: Qkv<T>)
    requires n >= 1 && d.bq >= 1 && qSize == d.bq && kvSize == d.bk && total == n * d.Size() && |full| == tp * total
    ensures w.Fits(d, tp * n) && Interleaved(w, d, tp * n) == full
  {
    var l: Lists<T> := Lists([], [], []);
    ghost var blocks: seq<seq<T>> := [];
    ghost var parts := Cut(full, total, tp);
    for i := 0 to tp
      invariant |blocks| == i * n && l.Split(d, blocks) && Flatten(blocks) == Flatten(parts[..i])
    {
      SlotInRange(total, i, tp);
      var part := full[i * total..(i + 1) * total];
      assert part == parts[i];
      l := SplitPartition(l, part, n, qSize, kvSize, d, blocks);
      BlocksGrow(blocks, parts, i, d.Size(), n);
      blocks := blocks + Cut(part, d.Size(), n);
      assert (i + 1) * n == i * n + n;
    }
    TakeAll(parts, tp);
    FlattenOfCut(full, total, tp);
    SplitJoins(l, d, blocks);
    return l.Joined();
  }

  /** The un-fusing nest over the ranks' tensors. */
  method SplitParts<T>(parts: seq<seq<T>>, n: nat, qSize: nat, kvSize: nat, ghost d: Dims) returns (w: Qkv<T>)
    requires n >= 1 && d.bq >= 1 && qSize == d.bq && kvSize == d.bk && AllOfSize(parts, n * d.Size())
    ensures w.Fits(d, |parts| * n) && Interleaved(w, d, |parts| * n) == Flatten(parts)
  {
    var l: Lists<T> := Lists([], [], []);
    ghost var blocks: seq<seq<T>> := [];
    for i := 0 to |parts|
      invariant |blocks| == i * n && l.Split(d, blocks) && Flatten(blocks) == Flatten(parts[..i])
    {
      l := SplitPartition(l, parts[i], n, qSize, kvSize, d, blocks);
      BlocksGrow(blocks, parts, i, d.Size(), n);
      blocks := blocks + Cut(parts[i], d.Size(), n);
      assert (i + 1) * n == i * n + n;
    }
    TakeAll(parts, |parts|);
    SplitJoins(l, d, blocks);
    return l.Joined();
  }

  // ---------- fewer key-value heads than ranks ----------

  /** The pieces of a rank's tensor. */
  function Trisected<T>(part: seq<T>, d: Dims, n: nat): (l: Lists<T>)
    requires |part| == n * d.Size()
  {
    Lists(seq(n, j requires 0 <= j < n => Block(part, d.Size(), n, j)[..d.bq]),
          seq(n, j requires 0 <= j < n => Block(part, d.Size(), n, j)[d.bq..d.bq + d.bk]),
          seq(n, j requires 0 <= j < n => Block(part, d.Size(), n, j)[d.bq + d.bk..]))
  }

  lemma TrisectedSplit<T>(part: seq<T>, d: Dims, n: nat)
    requires |part| == n * d.Size()
    ensures Trisected(part, d, n).Split(d, Cut(part, d.Size(), n))
  {
    var l, blocks := Trisected(part, d, n), Cut(part, d.Size(), n);
    forall j | 0 <= j < n ensures l.qs[j] + l.ks[j] + l.vs[j] == blocks[j] {
    }
  }

  /** The projections that are laid out as a rank's tensor. */
  function Taken<T>(part: seq<T>, d: Dims, n: nat): (w: Qkv<T>)
    requires |part| == n * d.Size()
    ensures w.Fits(d, n) && Interleaved(w, d, n) == part
  {
    TrisectedSplit(part, d, n);
    SplitJoins(Trisected(part, d, n), d, Cut(part, d.Size(), n));
    FlattenOfCut(part, d.Size(), n);
    Trisected(part, d, n).Joined()
  }

  /** Rows of the ranks before i, of those ranks only whose key-value heads are kept. */
  function JoinKept<T>(c: Config, tp: nat, rows: seq<seq<T>>, i: nat): seq<T>
    requires tp >= 1 && i <= |rows|
  {
    if i == 0 then [] else JoinKept(c, tp, rows, i - 1) + if c.Keeps(tp, i - 1) then rows[i - 1] else []
  }

  function QRows<T>(parts: seq<Qkv<T>>): (r: seq<seq<T>>)
    ensures |r| == |parts|
  {
    seq(|parts|, i requires 0 <= i < |parts| => parts[i].q)
  }

  function KRows<T>(parts: seq<Qkv<T>>): (r: seq<seq<T>>)
    ensures |r| == |parts|
  {
    seq(|parts|, i requires 0 <= i < |parts| => parts[i].k)
  }

  function VRows<T>(parts: seq<Qkv<T>>): (r: seq<seq<T>>)
    ensures |r| == |parts|
  {
    seq(|parts|, i requires 0 <= i < |parts| => parts[i].v)
  }

  /** Query rows of all ranks, and key and value rows of those kept. */
  function KeptOnce<T>(c: Config, tp: nat, parts: seq<Qkv<T>>): Qkv<T>
    requires tp >= 1
  {
    Qkv(Flatten(QRows(parts)), JoinKept(c, tp, KRows(parts), |parts|), JoinKept(c, tp, VRows(parts), |parts|))
  }

  /** The projections of every rank, taken from the joined tensor. */
  function TakenAll<T>(full: seq<T>, d: Dims, n: nat, tp: nat): (parts: seq<Qkv<T>>)
    requires |full| == tp * (n * d.Size())
    ensures |parts| == tp
    ensures forall i :: 0 <= i < tp ==>
      parts[i].Fits(d, n) && Interleaved(parts[i], d, n) == Block(full, n * d.Size(), tp, i)
  {
    seq(tp, i requires 0 <= i < tp => Taken(Block(full, n * d.Size(), tp, i), d, n))
  }

  /** The inner loop of the second branch: query pieces are always listed, key and value pieces if `keep`. */
  method SplitPartitionKept<T>(l: Lists<T>, part: seq<T>, n: nat, qSize: nat, kvSize: nat, keep: bool, ghost d: Dims)
    returns (r: Lists<T>)
    requires n >= 1 && d.bq >= 1 && qSize == d.bq && kvSize == d.bk && |part| == n * d.Size()
    ensures var w := Taken(part, d, n);
      && Flatten(r.qs) == Flatten(l.qs) + w.q
      && Flatten(r.ks) == Flatten(l.ks) + (if keep then w.k else [])
      && Flatten(r.vs) == Flatten(l.vs) + (if keep then w.v else [])
  {
    ChunkEven(part, d.Size(), n);
    var chunks := TorchChunk(part, n);
    ghost var all := Trisected(part, d, n);
    r := l;
    for j := 0 to n
      invariant r.qs == l.qs + all.qs[..j]
      invariant r.ks == l.ks + (if keep then all.ks[..j] else [])
      invariant r.vs == l.vs + (if keep then all.vs[..j] else [])
    {
      var chunk := chunks[j];
      r := r.(qs := r.qs + [chunk[..qSize]]);
      if keep {
        r := r.(ks := r.ks + [chunk[qSize..qSize + kvSize]], vs := r.vs + [chunk[qSize + kvSize..]]);
      }
    }
    TakeAll(all.qs, n);
    TakeAll(all.ks, n);
    TakeAll(all.vs, n);
    FlattenAppend(l.qs, all.qs);
    FlattenAppend(l.ks, if keep then all.ks else []);
    FlattenAppend(l.vs, if keep then all.vs else []);
  }

  /** The second branch of the un-fusing nest. */
  method SplitFullKept<T>(c: Config, full: seq<T>, tp: nat, total: nat, n: nat, qSize: nat, kvSize: nat, ghost d: Dims)
    returns (w: Qkv<T>)
    requires tp >= 1 && n >= 1 && d.bq >= 1 && qSize == d.bq && kvSize == d.bk && total == n * d.Size()
    requires |full| == tp * total
    ensures w == KeptOnce(c, tp, TakenAll(full, d, n, tp))
  {
    var l: Lists<T> := Lists([], [], []);
    ghost var parts := TakenAll(full, d, n, tp);
    for i := 0 to tp
      invariant Flatten(l.qs) == Flatten(QRows(parts)[..i])
      invariant Flatten(l.ks) == JoinKept(c, tp, KRows(parts), i)
      invariant Flatten(l.vs) == JoinKept(c, tp, VRows(parts), i)
    {
      SlotInRange(total, i, tp);
      l := SplitPartitionKept(l, full[i * total..(i + 1) * total], n, qSize, kvSize, i * c.kvHeads % tp == 0, d);
      FlattenTake(QRows(parts), i + 1);
    }
    TakeAll(QRows(parts), tp);
    return l.Joined();
  }

  // ---------- whether the heads kept are all of them ----------

  lemma HeadOfRank(c: Config, tp: nat, i: nat)
    requires 0 < c.kvHeads < tp && i < tp
    ensures 0 <= i * c.kvHeads / tp < c.kvHeads
  {
    var h := i * c.kvHeads / tp;
    QuotientNonNegative(i * c.kvHeads, tp);
    assert i * c.kvHeads == tp * h + i * c.kvHeads % tp;
    if h >= c.kvHeads {
      MulMonotonic(tp, c.kvHeads, h);
      MulMonotonic(c.kvHeads, i + 1, tp);
    }
  }

  /** Key (or value) rows of the head that rank i shares with other ranks: b rows for each of the heads. */
  function SharedHeads<T>(c: Config, tp: nat, k: seq<T>, b: nat): (rows: seq<seq<T>>)
    requires 0 < c.kvHeads < tp && |k| == c.kvHeads * b
    ensures |rows| == tp && AllOfSize(rows, b)
  {
    seq(tp, i requires 0 <= i < tp => HeadOfRank(c, tp, i); Block(k, b, c.kvHeads, i * c.kvHeads / tp))
  }

  /** If the heads divide the ranks, rank i is kept exactly if it is the first of the g ranks that share its head. */
  lemma KeepsFirst(c: Config, tp: nat, g: nat, i: nat)
    requires 0 < c.kvHeads && tp == c.kvHeads * g && g >= 1 && i < tp
    ensures c.Keeps(tp, i) <==> i % g == 0
    ensures i * c.kvHeads / tp == i / g
  {
    var q, r := i / g, i % g;
    assert i == g * q + r;
    assert i * c.kvHeads == tp * q + r * c.kvHeads;
    MulMonotonic(c.kvHeads, r + 1, g);
    MulMonotonic(c.kvHeads, 0, r);
    DivModUnique(i * c.kvHeads, tp, q, r * c.kvHeads);
    if r >= 1 { MulMonotonic(c.kvHeads, 1, r); }
  }

  lemma NextGroup(i: nat, g: nat)
    requires g >= 1 && i >= 1
    ensures i / g == (i - 1) / g + if i % g == 0 then 1 else 0
  {
    var q, r := (i - 1) / g, (i - 1) % g;
    assert i - 1 == g * q + r;
    if r == g - 1 {
      DivModUnique(i, g, q + 1, 0);
    } else {
      DivModUnique(i, g, q, r + 1);
    }
  }

  /** Heads kept so far, from the first i ranks. */
  lemma {:induction false} KeptSoFar<T>(c: Config, tp: nat, k: seq<T>, b: nat, g: nat, i: nat)
    requires 0 < c.kvHeads < tp == c.kvHeads * g && |k| == c.kvHeads * b && 1 <= i <= tp && g >= 1
    ensures 0 <= (i - 1) / g < c.kvHeads
    ensures JoinKept(c, tp, SharedHeads(c, tp, k, b), i) == Flatten(Cut(k, b, c.kvHeads)[..(i - 1) / g + 1])
  {
    var rows, heads := SharedHeads(c, tp, k, b), Cut(k, b, c.kvHeads);
    HeadOfRank(c, tp, i - 1);
    KeepsFirst(c, tp, g, i - 1);
    if i == 1 {
      DivModUnique(0, g, 0, 0);
      FlattenTake(heads, 1);
      assert heads[..0] == [];
      assert JoinKept(c, tp, rows, 1) == [] + rows[0];
    } else {
      KeptSoFar(c, tp, k, b, g, i - 1);
      NextGroup(i - 1, g);
      FlattenTake(heads, (i - 1) / g + 1);
    }
  }

  /** A later rank that is kept starts at a head beyond the first. */
  lemma LaterHead(c: Config, tp: nat, i: nat, count: nat)
    requires 2 <= c.kvHeads < tp && tp % c.kvHeads != 0 && 1 <= i < tp && c.Keeps(tp, i)
    requires count == 1 || count * tp <= (i - 1) * c.kvHeads
    ensures (count + 1) * tp <= i * c.kvHeads
  {
    var m := i * c.kvHeads / tp;
    assert i * c.kvHeads == tp * m;
    assert (i - 1) * c.kvHeads == tp * m - c.kvHeads;
    MulMonotonic(c.kvHeads, 1, i);
    if m <= 0 { MulMonotonic(tp, m, 0); }
    if m == 1 { DivModUnique(tp, c.kvHeads, i, 0); }
    if count >= m { MulMonotonic(tp, m, count); }
    MulMonotonic(tp, count + 1, m);
  }

  lemma {:induction false} KeptSize<T>(c: Config, tp: nat, rows: seq<seq<T>>, b: nat, i: nat) returns (count: nat)
    requires 2 <= c.kvHeads < tp && tp % c.kvHeads != 0 && |rows| == tp && AllOfSize(rows, b) && 1 <= i <= tp
    ensures |JoinKept(c, tp, rows, i)| == count * b
    ensures count == 1 || count * tp <= (i - 1) * c.kvHeads
  {
    if i == 1 {
      count := 1;
      DivModUnique(0, tp, 0, 0);
    } else {
      count := KeptSize(c, tp, rows, b, i - 1);
      assert (i - 1) * c.kvHeads == (i - 2) * c.kvHeads + c.kvHeads;
      if c.Keeps(tp, i - 1) {
        LaterHead(c, tp, i - 1, count);
        assert (count + 1) * b == count * b + b;
        count := count + 1;
      }
    }
  }

  lemma LastGroup(kvHeads: nat, g: nat)
    requires kvHeads >= 1 && g >= 1
    ensures (kvHeads * g - 1) / g == kvHeads - 1
  {
    assert kvHeads * g - 1 == g * (kvHeads - 1) + (g - 1);
    DivModUnique(kvHeads * g - 1, g, kvHeads - 1, g - 1);
  }

  lemma AllKept<T>(c: Config, tp: nat, k: seq<T>, b: nat)
    requires 0 < c.kvHeads < tp && |k| == c.kvHeads * b && tp % c.kvHeads == 0
    ensures JoinKept(c, tp, SharedHeads(c, tp, k, b), tp) == k
  {
    var g := tp / c.kvHeads;
    assert tp == c.kvHeads * g;
    QuotientPositive(tp, c.kvHeads);
    KeptSoFar(c, tp, k, b, g, tp);
    LastGroup(c.kvHeads, g);
    TakeAll(Cut(k, b, c.kvHeads), c.kvHeads);
    FlattenOfCut(k, b, c.kvHeads);
  }

  lemma FewerKept(count: nat, kvHeads: nat, tp: nat, b: nat)
    requires 2 <= kvHeads < tp && (count == 1 || count * tp <= (tp - 1) * kvHeads) && b >= 1
    ensures count * b < kvHeads * b
  {
    assert (tp - 1) * kvHeads == tp * kvHeads - kvHeads;
    if count >= kvHeads { MulMonotonic(tp, kvHeads, count); }
    MulMonotonic(b, count + 1, kvHeads);
  }

  lemma SeveralHeads(kvHeads: nat, tp: nat)
    requires 0 < kvHeads && tp % kvHeads != 0
    ensures kvHeads >= 2
  {
    if kvHeads == 1 { DivModUnique(tp, 1, tp, 0); }
  }

  lemma SomeLost<T>(c: Config, tp: nat, k: seq<T>, b: nat)
    requires 0 < c.kvHeads < tp && |k| == c.kvHeads * b && b >= 1 && tp % c.kvHeads != 0
    ensures |JoinKept(c, tp, SharedHeads(c, tp, k, b), tp)| < |k|
  {
    SeveralHeads(c.kvHeads, tp);
    var count := KeptSize(c, tp, SharedHeads(c, tp, k, b), b, tp);
    FewerKept(count, c.kvHeads, tp, b);
  }

  /** Sharing heads among ranks and keeping them once gives the heads back exactly if they divide the ranks. */
  lemma KeptOnceIff<T>(c: Config, tp: nat, k: seq<T>, b: nat)
    requires 0 < c.kvHeads < tp && |k| == c.kvHeads * b && b >= 1
    ensures JoinKept(c, tp, SharedHeads(c, tp, k, b), tp) == k <==> tp % c.kvHeads == 0
  {
    if tp % c.kvHeads == 0 { AllKept(c, tp, k, b); } else { SomeLost(c, tp, k, b); }
  }

  /** Every rank with its own query rows and the head that it shares. */
  function SharedParts<T>(c: Config, tp: nat, w: Qkv<T>, d: Dims, n: nat): (parts: seq<Qkv<T>>)
    requires 0 < c.kvHeads < tp && |w.q| == tp * (n * d.bq) && |w.k| == |w.v| == c.kvHeads * (n * d.bk)
    ensures |parts| == tp && forall i :: 0 <= i < tp ==> parts[i].Fits(d, n)
  {
    seq(tp, i requires 0 <= i < tp =>
      Qkv(Block(w.q, n * d.bq, tp, i), SharedHeads(c, tp, w.k, n * d.bk)[i], SharedHeads(c, tp, w.v, n * d.bk)[i]))
  }

  /** The ranks' tensors. */
  function LaidOut<T>(parts: seq<Qkv<T>>, d: Dims, n: nat): (shards: seq<seq<T>>)
    requires forall i :: 0 <= i < |parts| ==> parts[i].Fits(d, n)
    ensures |shards| == |parts|
  {
    seq(|parts|, i requires 0 <= i < |parts| => Interleaved(parts[i], d, n))
  }

  /** Taking the joined tensors apart gives every rank's projections back. */
  lemma TakenBack<T>(parts: seq<Qkv<T>>, d: Dims, n: nat)
    requires forall i :: 0 <= i < |parts| ==> parts[i].Fits(d, n)
    ensures |Flatten(LaidOut(parts, d, n))| == |parts| * (n * d.Size())
    ensures TakenAll(Flatten(LaidOut(parts, d, n)), d, n, |parts|) == parts
  {
    var shards := LaidOut(parts, d, n);
    forall i | 0 <= i < |parts| ensures |shards[i]| == n * d.Size() {
      FlattenSize(Triples(parts[i], d, n), d.Size());
    }
    FlattenSize(shards, n * d.Size());
    var taken := TakenAll(Flatten(shards), d, n, |parts|);
    forall i | 0 <= i < |parts| ensures taken[i] == parts[i] {
      BlockOfFlatten(shards, n * d.Size(), i);
      InterleavedInjective(taken[i], parts[i], d, n);
    }
  }

  /** The second branch gives q, k and v back exactly if the key-value heads divide the ranks. */
  lemma SharedRestoredIff<T>(c: Config, tp: nat, w: Qkv<T>, d: Dims, n: nat)
    requires 0 < c.kvHeads < tp && |w.q| == tp * (n * d.bq) && |w.k| == |w.v| == c.kvHeads * (n * d.bk)
    requires n * d.bk >= 1
    ensures var full := Flatten(LaidOut(SharedParts(c, tp, w, d, n), d, n));
      |full| == tp * (n * d.Size()) &&
      (KeptOnce(c, tp, TakenAll(full, d, n, tp)) == w <==> tp % c.kvHeads == 0)
  {
    var parts := SharedParts(c, tp, w, d, n);
    TakenBack(parts, d, n);
    assert QRows(parts) == Cut(w.q, n * d.bq, tp);
    FlattenOfCut(w.q, n * d.bq, tp);
    assert KRows(parts) == SharedHeads(c, tp, w.k, n * d.bk);
    assert VRows(parts) == SharedHeads(c, tp, w.v, n * d.bk);
    KeptOnceIff(c, tp, w.k, n * d.bk);
    KeptOnceIff(c, tp, w.v, n * d.bk);
  }

  // ---------- the converters ----------

  lemma PartitionCut(c: Config, tp: nat)
    requires c.Cuts(tp) && c.groups >= tp
    ensures var n, d := c.PerPartition(tp), c.CutDims(tp);
      n >= 1 && c.QSize(tp) + 2 * c.KvSize(tp) == n * d.Size()
  {
    ExactDivision(c.QSize(tp), c.PerPartition(tp));
    ExactDivision(c.KvSize(tp), c.PerPartition(tp));
  }

  lemma NoGroups(c: Config, tp: nat)
    requires tp >= 1
    ensures c.PerPartition(tp) >= 1 <==> c.groups >= tp
  {
    if c.groups < tp { DivModUnique(c.groups, tp, 0, c.groups); } else { QuotientPositive(c.groups, tp); }
  }

  /**
   `convert_qkv_shard` of megatron_utils.py, and the same nest in saver.py. Where no query group is left for a rank
   the code divides by zero: None. Otherwise, whatever tensor comes in, the projections that come out are the ones
   that are laid out as it, or, with fewer key-value heads than ranks, as the tensors of the ranks kept.
   */
  method ConvertQkvShard<T>(c: Config, tp: nat, full: seq<T>) returns (r: Option<Qkv<T>>)
    requires c.Cuts(tp) && (c.groups >= tp ==> |full| == tp * (c.QSize(tp) + 2 * c.KvSize(tp)))
    ensures r.Some? <==> c.groups >= tp
    ensures r.Some? ==> c.PerPartition(tp) >= 1 && |full| == tp * (c.PerPartition(tp) * c.CutDims(tp).Size())
    ensures r.Some? && c.kvHeads >= tp ==>
      var d, groups := c.CutDims(tp), tp * c.PerPartition(tp);
      r.value.Fits(d, groups) && Interleaved(r.value, d, groups) == full
    ensures r.Some? && c.kvHeads < tp ==>
      r.value == KeptOnce(c, tp, TakenAll(full, c.CutDims(tp), c.PerPartition(tp), tp))
  {
    var perPartition := c.groups / tp;
    NoGroups(c, tp);
    if perPartition == 0 { return None; }
    PartitionCut(c, tp);
    ghost var d := c.CutDims(tp);
    if c.kvHeads >= tp {
      var qSize, kvSize := c.headDim * c.heads / tp, c.headDim * c.kvHeads / tp;
      var w := SplitFull(full, tp, qSize + 2 * kvSize, perPartition, qSize / perPartition, kvSize / perPartition, d);
      return Some(w);
    } else {
      var qSize, kvSize := c.headDim * c.heads / tp, c.headDim;
      var w := SplitFullKept(c, full, tp, qSize + 2 * kvSize, perPartition, qSize / perPartition,
                             kvSize / perPartition, d);
      return Some(w);
    }
  }

  /** One key-value head, so one query group, on two ranks: the divisor is zero. */
  lemma OneHeadTwoRanks()
    ensures var c := Config(1, 2, 1, 1); c.Cuts(2) && c.PerPartition(2) == 0
  {
  }

  lemma RegularCuts(c: Config, tp: nat)
    requires c.Regular(tp)
    ensures c.Cuts(tp) && c.groups >= tp && c.kvHeads >= tp
    ensures c.PerPartition(tp) == c.GroupsPerRank(tp) && c.CutDims(tp) == c.GroupDims()
    ensures c.kvHeads == tp * c.GroupsPerRank(tp)
    ensures c.kvHeads * c.GroupDims().Size() == tp * (c.QSize(tp) + 2 * c.KvSize(tp))
  {
    CountsExact(c, tp);
    SizesExact(c, tp);
    var n, d := c.GroupsPerRank(tp), c.GroupDims();
    MulMonotonic(tp, 1, n);
    DivModUnique(n * d.bq, n, d.bq, 0);
    DivModUnique(n * d.bk, n, d.bk, 0);
    assert tp * n * d.Size() == tp * (n * d.Size());
  }

  /** The sizes that the merging functions derive from the shape of the first shard. */
  lemma ShapeSizes(c: Config, tp: nat, rows: nat)
    requires c.Regular(tp) && rows == c.GroupsPerRank(tp) * c.GroupDims().Size()
    ensures var n, g, d := c.GroupsPerRank(tp), c.Queries(), c.GroupDims();
      rows % (g + 2) == 0 && rows / (g + 2) == n * d.bk &&
      n >= 1 && n * d.bk * g / n == d.bq && n * d.bk / n == d.bk
  {
    CountsExact(c, tp);
    SizesExact(c, tp);
    var n, g, d := c.GroupsPerRank(tp), c.Queries(), c.GroupDims();
    assert rows == (g + 2) * (n * d.bk) by {
      assert d.Size() == (g + 2) * d.bk;
      MoveFactor(n, g + 2, d.bk);
    }
    DivModUnique(rows, g + 2, n * d.bk, 0);
    assert n * d.bk * g == n * d.bq by { assert n * d.bk * g == n * (d.bk * g); }
    DivModUnique(n * d.bq, n, d.bq, 0);
  }

  /**
   The query-key-value branch of `default_tp_concat_fn` and of `_merge_across_tp`; `_split_tensors` is the
   case of a single rank. None stands for a failing assert, or for a chunking into no pieces.
   */
  method ConcatAcrossTp<T>(c: Config, tp: nat, params: seq<seq<T>>) returns (r: Option<Qkv<T>>)
    requires c.Allowed(tp) && |params| == tp
    requires c.kvHeads >= tp ==> AllOfSize(params, c.GroupsPerRank(tp) * c.GroupDims().Size())
    ensures r.Some? <==> c.kvHeads >= tp
    ensures r.Some? ==>
      r.value.Fits(c.GroupDims(), c.kvHeads) && Interleaved(r.value, c.GroupDims(), c.kvHeads) == Flatten(params)
  {
    if c.heads % c.kvHeads != 0 { return None; }
    var queries := c.heads / c.kvHeads;
    if c.kvHeads < tp { DivModUnique(c.kvHeads, tp, 0, c.kvHeads); } else { ShapeSizes(c, tp, |params[0]|); }
    assert queries >= 0 by { QuotientNonNegative(c.heads, c.kvHeads); }
    if |params[0]| % (queries + 2) != 0 { return None; }
    var kvSize := |params[0]| / (queries + 2);
    var perPartition := c.kvHeads / tp;
    if perPartition == 0 { return None; }
    CountsExact(c, tp);
    var w := SplitParts(params, perPartition, kvSize * queries / perPartition, kvSize / perPartition, c.GroupDims());
    return Some(w);
  }

  /**
   Loading a model on one tensor-parallel size restores it when it is merged on the same, or converted on any
   other that leaves every rank a key-value head.
   */
  method LoadThenSave<T(0)>(c: Config, tp: nat, tp2: nat, w: Qkv<T>) returns (saved: Option<Qkv<T>>, merged: Qkv<T>)
    requires c.Regular(tp) && c.Allowed(tp2) && w.Fits(c.GroupDims(), c.kvHeads)
    ensures saved == (if c.kvHeads >= tp2 then Some(w) else None) && merged == w
  {
    var shards := LoadQkv(c, tp, w);
    ghost var d, n := c.GroupDims(), c.GroupsPerRank(tp);
    CountsExact(c, tp);
    ShardsJoin(w, d, n, tp);
    ShardSizes(w, d, n, tp);
    FlattenSize(Triples(w, d, c.kvHeads), d.Size());
    if c.kvHeads >= tp2 { RegularCuts(c, tp2); }
    saved := ConvertQkvShard(c, tp2, Flatten(shards));
    if saved.Some? { InterleavedInjective(saved.value, w, d, c.kvHeads); }
    MulMonotonic(tp, 1, n);
    var r := ConcatAcrossTp(c, tp, shards);
    InterleavedInjective(r.value, w, d, c.kvHeads);
    merged := r.value;
  }

  // ---------- gate and up projections ----------

  datatype GateUp<T> = GateUp(gate: seq<T>, up: seq<T>) {
    predicate Fits(m: nat, tp: nat) { |gate| == tp * m && |up| == tp * m }
  }

  /** Rank i holds its gate rows and then its up rows. */
  function GateUpShards<T>(w: GateUp<T>, m: nat, tp: nat): (r: seq<seq<T>>)
    requires w.Fits(m, tp)
    ensures |r| == tp && AllOfSize(r, 2 * m)
    ensures forall i :: 0 <= i < tp ==> r[i] == Block(w.gate, m, tp, i) + Block(w.up, m, tp, i)
  {
    seq(tp, i requires 0 <= i < tp => Block(w.gate, m, tp, i) + Block(w.up, m, tp, i))
  }

  /** Row by row: m rows of the gate from the i * m-th on, then the same rows of the up projection. */
  lemma GateUpRow<T>(w: GateUp<T>, m: nat, tp: nat, i: nat, x: nat)
    requires w.Fits(m, tp) && i < tp && x < m
    ensures 0 <= i * m + x < tp * m && |GateUpShards(w, m, tp)[i]| == 2 * m
    ensures GateUpShards(w, m, tp)[i][x] == w.gate[i * m + x]
    ensures GateUpShards(w, m, tp)[i][m + x] == w.up[i * m + x]
  {
    BlockRow(w.gate, m, tp, i, x);
    BlockRow(w.up, m, tp, i, x);
  }

  /** Different projections are sharded differently. */
  lemma GateUpInjective<T>(w: GateUp<T>, u: GateUp<T>, m: nat, tp: nat)
    requires w.Fits(m, tp) && u.Fits(m, tp) && GateUpShards(w, m, tp) == GateUpShards(u, m, tp)
    ensures w == u
  {
    forall i | 0 <= i < tp
      ensures Block(w.gate, m, tp, i) == Block(u.gate, m, tp, i) && Block(w.up, m, tp, i) == Block(u.up, m, tp, i)
    {
      var s, t := GateUpShards(w, m, tp)[i], GateUpShards(u, m, tp)[i];
      assert s == t;
      assert Block(w.gate, m, tp, i) == s[..m] && Block(u.gate, m, tp, i) == t[..m];
      assert Block(w.up, m, tp, i) == s[m..] && Block(u.up, m, tp, i) == t[m..];
    }
    SameBlocks(w.gate, u.gate, m, tp);
    SameBlocks(w.up, u.up, m, tp);
  }

  /** Rank i's gate and up rows. */
  function RankRows<T>(w: GateUp<T>, m: nat, tp: nat, i: nat): (r: seq<T>)
    requires w.Fits(m, tp) && i < tp
    ensures r == GateUpShards(w, m, tp)[i]
  {
    SlotInRange(m, i, tp);
    w.gate[i * m..(i + 1) * m] + w.up[i * m..(i + 1) * m]
  }

  /** The loop over the ranks; `size` is a shard's row count. */
  method LoadGateUpRanks<T(0)>(w: GateUp<T>, m: nat, tp: nat, size: nat) returns (shards: seq<seq<T>>)
    requires tp >= 1 && m >= 1 && size == 2 * m && w.Fits(m, tp)
    ensures shards == GateUpShards(w, m, tp)
  {
    ghost var parts := GateUpShards(w, m, tp);
    SlotInRange(size, 0, tp);
    var weight := new T[tp * size];
    for i := 0 to tp
      invariant 0 <= i * size <= tp * size
      invariant weight[..i * size] == [] + Flatten(parts[..i])
    {
      SlotInRange(size, i, tp);
      CopyGroup(weight, i * size, RankRows(w, m, tp, i), [], parts, i);
    }
    TakeAll(parts, tp);
    assert weight[..] == weight[..tp * size] == Flatten(parts);
    CutOfFlatten(parts, size);
    ChunkEven(weight[..], size, tp);
    return TorchChunk(weight[..], tp);
  }

  /** `_broadcast_tp_shard_tensor_gate_up` of the loader, up to the broadcast. */
  method LoadGateUp<T(0)>(intermediate: nat, tp: nat, w: GateUp<T>) returns (shards: seq<seq<T>>)
    requires tp >= 1 && intermediate >= 1 && intermediate % tp == 0
    requires |w.gate| == intermediate && |w.up| == intermediate
    ensures w.Fits(intermediate / tp, tp) && shards == GateUpShards(w, intermediate / tp, tp)
  {
    ExactDivision(intermediate, tp);
    QuotientNonNegative(intermediate, tp);
    var m := intermediate / tp;
    shards := LoadGateUpRanks(w, m, tp, m * 2);
  }

  /** The lists of gate and up pieces that the taking-apart loops fill. */
  ghost predicate Halved<T>(gates: seq<seq<T>>, ups: seq<seq<T>>, m: nat, parts: seq<seq<T>>) {
    && |gates| == |ups| == |parts| && AllOfSize(gates, m) && AllOfSize(ups, m)
    && forall j {:trigger parts[j]} :: 0 <= j < |parts| ==> gates[j] + ups[j] == parts[j]
  }

  lemma HalvedJoins<T>(gates: seq<seq<T>>, ups: seq<seq<T>>, m: nat, parts: seq<seq<T>>)
    requires Halved(gates, ups, m, parts)
    ensures GateUp(Flatten(gates), Flatten(ups)).Fits(m, |parts|)
    ensures GateUpShards(GateUp(Flatten(gates), Flatten(ups)), m, |parts|) == parts
  {
    FlattenSize(gates, m);
    FlattenSize(ups, m);
    var w := GateUp(Flatten(gates), Flatten(ups));
    forall j | 0 <= j < |parts| ensures GateUpShards(w, m, |parts|)[j] == parts[j] {
      BlockOfFlatten(gates, m, j);
      BlockOfFlatten(ups, m, j);
    }
  }

  /** The loop that cuts every rank's rows in two. */
  method HalveParts<T>(full: seq<T>, m: nat, tp: nat, size: nat) returns (w: GateUp<T>)
    requires size == 2 * m && |full| == tp * size
    ensures w.Fits(m, tp) && Flatten(GateUpShards(w, m, tp)) == full
  {
    ghost var parts := Cut(full, size, tp);
    var gates: seq<seq<T>>, ups: seq<seq<T>> := [], [];
    for i := 0 to tp
      invariant Halved(gates, ups, m, parts[..i])
    {
      SlotInRange(size, i, tp);
      var both := full[i * size..(i + 1) * size];
      gates, ups := gates + [both[..m]], ups + [both[m..]];
      assert both[..m] + both[m..] == both == parts[i];
      assert parts[..i + 1] == parts[..i] + [parts[i]];
    }
    TakeAll(parts, tp);
    HalvedJoins(gates, ups, m, parts);
    FlattenOfCut(full, size, tp);
    return GateUp(Flatten(gates), Flatten(ups));
  }

  /** `convert_gate_up_shard` of megatron_utils.py, and the same loop in saver.py. */
  method ConvertGateUpShard<T>(intermediate: nat, tp: nat, full: seq<T>) returns (w: GateUp<T>)
    requires tp >= 1 && intermediate % tp == 0 && |full| == 2 * intermediate
    ensures w.Fits(intermediate / tp, tp) && Flatten(GateUpShards(w, intermediate / tp, tp)) == full
  {
    ExactDivision(intermediate, tp);
    QuotientNonNegative(intermediate, tp);
    var m := intermediate / tp;
    assert |full| == tp * (2 * m) by { assert 2 * (m * tp) == tp * (2 * m); }
    w := HalveParts(full, m, tp, m * 2);
  }

  /** The gate-up branch of `default_tp_concat_fn` and `_merge_across_tp`; `_split_tensors` has one shard. */
  method ConcatGateUp<T>(params: seq<seq<T>>, ghost m: nat) returns (w: GateUp<T>)
    requires m >= 1 && AllOfSize(params, 2 * m)
    ensures w.Fits(m, |params|) && GateUpShards(w, m, |params|) == params
  {
    var gates: seq<seq<T>>, ups: seq<seq<T>> := [], [];
    for i := 0 to |params|
      invariant Halved(gates, ups, m, params[..i])
    {
      ChunkEven(params[i], m, 2);
      var halves := TorchChunk(params[i], 2);
      gates, ups := gates + [halves[0]], ups + [halves[1]];
      assert halves[0] + halves[1] == params[i];
      assert params[..i + 1] == params[..i] + [params[i]];
    }
    TakeAll(params, |params|);
    HalvedJoins(gates, ups, m, params);
    return GateUp(Flatten(gates), Flatten(ups));
  }

  /** Loading gate and up rows and saving or merging them on the same ranks restores them. */
  method LoadThenSaveGateUp<T(0)>(intermediate: nat, tp: nat, w: GateUp<T>)
    returns (saved: GateUp<T>, merged: GateUp<T>)
    requires tp >= 1 && intermediate >= 1 && intermediate % tp == 0
    requires |w.gate| == intermediate && |w.up| == intermediate
    ensures saved == w && merged == w
  {
    var shards := LoadGateUp(intermediate, tp, w);
    ExactDivision(intermediate, tp);
    ghost var m := intermediate / tp;
    FlattenSize(shards, 2 * m);
    assert tp * (2 * m) == 2 * (m * tp);
    saved := ConvertGateUpShard(intermediate, tp, Flatten(shards));
    CutOfFlatten(GateUpShards(saved, m, tp), 2 * m);
    CutOfFlatten(shards, 2 * m);
    GateUpInjective(saved, w, m, tp);
    if m <= 0 { MulMonotonic(tp, m, 0); }
    merged := ConcatGateUp(shards, m);
    GateUpInjective(merged, w, m, tp);
  }

  /** Unlike the attention layout, the joined gate-up rows depend on the number of ranks. */
  lemma GateUpDependsOnRanks<T>(a: T, b: T, c: T, d: T)
    requires b != c
    ensures var w := GateUp([a, b], [c, d]);
      w.Fits(2, 1) && w.Fits(1, 2) && Flatten(GateUpShards(w, 2, 1)) != Flatten(GateUpShards(w, 1, 2))
  {
    var w := GateUp([a, b], [c, d]);
    BlockOfFlatten(GateUpShards(w, 2, 1), 4, 0);
    BlockOfFlatten(GateUpShards(w, 1, 2), 2, 0);
    var one, two := Flatten(GateUpShards(w, 2, 1)), Flatten(GateUpShards(w, 1, 2));
    assert one == GateUpShards(w, 2, 1)[0];
    assert one[1] == b;
    assert two[..2] == GateUpShards(w, 1, 2)[0];
    assert two[1] == two[..2][1] == c;
  }
}
