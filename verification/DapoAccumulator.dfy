/**
 The generate-filter-accumulate-truncate part of `RayDAPOTrainer.fit` in recipe/dapo/dapo_ray_trainer.py, with
 group filtering enabled: the fields that its loop carries from round to round.
 */
module DapoAccumulator {
  import opened Sequences
  import opened Blocks
  import opened GroupFilter
  import opened Wrappers

  /** A round either trains on a batch, asks for another round, or gives up. */
  datatype Outcome<D> = Train(batch: seq<Row<D>>) | KeepGenerating | TooManyRounds

  datatype Config = Config(trainBatchSize: nat, n: nat, maxNumGenBatches: int)

  /** One generation round: a fresh uid per prompt, and n metric values and samples per prompt, prompt by prompt. */
  datatype Round<D> = Round(uids: seq<Uid>, metrics: seq<real>, samples: seq<D>) {
    ghost predicate Ok(n: nat) {
      && n >= 1 && |metrics| == |samples| == |uids| * n
      && forall i, j :: 0 <= i < j < |uids| ==> uids[i] != uids[j]
    }
  }

  /** `repeat(repeat_times=n, interleave=True)` */
  function RepeatInterleave<T>(xs: seq<T>, n: nat): (r: seq<T>)
    ensures |r| == |xs| * n
  {
    if xs == [] then []
    else
      assert |xs| * n == (|xs| - 1) * n + n;
      RepeatInterleave(xs[..|xs| - 1], n) + seq(n, _ => xs[|xs| - 1])
  }

  /** `union`: the repeated prompts side by side with what was generated for them. */
  function Union<D>(uids: seq<Uid>, metrics: seq<real>, samples: seq<D>): (rows: seq<Row<D>>)
    requires |uids| == |metrics| == |samples|
    ensures |rows| == |uids|
    ensures forall i :: 0 <= i < |rows| ==> rows[i] == Row(uids[i], metrics[i], samples[i])
  {
    seq(|uids|, i requires 0 <= i < |uids| => Row(uids[i], metrics[i], samples[i]))
  }

  lemma {:induction false} RepeatedAt<T>(xs: seq<T>, n: nat, g: nat, i: nat)
    requires g < |xs| && i < n
    ensures 0 <= g * n + i < |xs| * n && RepeatInterleave(xs, n)[g * n + i] == xs[g]
  {
    SlotInRange(n, g, |xs|);
    if g < |xs| - 1 {
      RepeatedAt(xs[..|xs| - 1], n, g, i);
      SlotInRange(n, g, |xs| - 1);
    }
  }

  /** The rows that a round adds: whole groups, one per prompt. */
  function NewRows<D>(r: Round<D>, n: nat): (rows: seq<Row<D>>)
    requires r.Ok(n)
    ensures |rows| == |r.uids| * n
  {
    Union(RepeatInterleave(r.uids, n), r.metrics, r.samples)
  }

  function NewGroups<D>(r: Round<D>, n: nat): (groups: seq<seq<Row<D>>>)
    requires r.Ok(n)
    ensures |groups| == |r.uids| && AllOfSize(groups, n)
  {
    Cut(NewRows(r, n), n, |r.uids|)
  }

  lemma NewGroupOwner<D>(r: Round<D>, n: nat, g: nat, i: nat)
    requires r.Ok(n) && g < |r.uids| && i < n
    ensures NewGroups(r, n)[g][i].uid == r.uids[g]
  {
    SlotInRange(n, g, |r.uids|);
    RepeatedAt(r.uids, n, g, i);
    var rows := NewRows(r, n);
    assert NewGroups(r, n)[g] == rows[g * n..(g + 1) * n];
  }

  lemma NewGroupsGrouped<D>(r: Round<D>, n: nat)
    requires r.Ok(n)
    ensures Grouped(NewGroups(r, n), n) && Flatten(NewGroups(r, n)) == NewRows(r, n)
    ensures forall g :: 0 <= g < |r.uids| ==> NewGroups(r, n)[g][0].uid == r.uids[g]
  {
    forall g, i | 0 <= g < |r.uids| && 0 <= i < n ensures NewGroups(r, n)[g][i].uid == r.uids[g] {
      NewGroupOwner(r, n, g, i);
    }
    FlattenOfCut(NewRows(r, n), n, |r.uids|);
  }

  /** A round's uids have not been used by the rows accumulated so far. */
  ghost predicate Fresh<D>(r: Round<D>, groups: seq<seq<Row<D>>>) {
    forall g, u :: 0 <= g < |groups| && 0 <= u < |r.uids| && groups[g] != [] ==> groups[g][0].uid != r.uids[u]
  }

  /** What a round contributes. */
  function Added<D>(r: Round<D>, n: nat): (groups: seq<seq<Row<D>>>)
    requires r.Ok(n)
  {
    KeptGroups(NewGroups(r, n))
  }

  lemma JoinGrouped<D>(a: seq<seq<Row<D>>>, r: Round<D>, n: nat)
    requires r.Ok(n) && Grouped(a, n) && AllInformative(a) && Fresh(r, a)
    ensures Grouped(a + Added(r, n), n) && AllInformative(a + Added(r, n))
  {
    NewGroupsGrouped(r, n);
    var b: seq<seq<Row<D>>> := KeptGroups(NewGroups(r, n));
    KeptAreGrouped(NewGroups(r, n), n);
    forall g, h | 0 <= g < |a| && 0 <= h < |b| ensures a[g][0].uid != b[h][0].uid {
      var k :| 0 <= k < |r.uids| && b[h] == NewGroups(r, n)[k];
    }
  }

  // ---------- the loops of the filter ----------

  /** The dictionary of metric values, its keys in insertion order. */
  method CollectMetrics<D>(rows: seq<Row<D>>) returns (vals: map<Uid, seq<real>>, keys: seq<Uid>)
    ensures keys == FirstSeen(rows)
    ensures forall u :: u in vals <==> u in keys
    ensures forall u :: u in vals ==> vals[u] == MetricsOf(rows, u)
  {
    vals, keys := map[], [];
    for i := 0 to |rows|
      invariant keys == FirstSeen(rows[..i])
      invariant forall u :: u in vals <==> u in keys
      invariant forall u :: u in vals ==> vals[u] == MetricsOf(rows[..i], u)
    {
      var uid := rows[i].uid;
      assert rows[..i + 1][..i] == rows[..i];
      SeenHasMetrics(rows[..i], uid);
      if uid !in vals {
        vals, keys := vals[uid := []], keys + [uid];
      }
      vals := vals[uid := vals[uid] + [rows[i].metric]];
    }
    assert rows[..|rows|] == rows;
  }

  /** `kept_prompt_uids` */
  method SelectUids<D>(vals: map<Uid, seq<real>>, keys: seq<Uid>, ghost rows: seq<Row<D>>) returns (kept: seq<Uid>)
    requires forall u :: u in keys ==> u in vals && vals[u] == MetricsOf(rows, u) && vals[u] != []
    ensures kept == KeptUids(keys, rows)
  {
    kept := [];
    for i := 0 to |keys|
      invariant kept == KeptUids(keys[..i], rows)
    {
      assert keys[..i + 1][..i] == keys[..i];
      if Variance(vals[keys[i]]) > 0.0 || |vals[keys[i]]| == 1 { kept := kept + [keys[i]]; }
    }
    assert keys[..|keys|] == keys;
  }

  /** `kept_traj_idxs`, and the rows selected by them. */
  method SelectRows<D>(rows: seq<Row<D>>, kept: seq<Uid>) returns (selected: seq<Row<D>>)
    ensures selected == RowsOf(rows, kept)
  {
    selected := [];
    for i := 0 to |rows|
      invariant selected == RowsOf(rows[..i], kept)
    {
      assert rows[..i + 1][..i] == rows[..i];
      if rows[i].uid in kept { selected := selected + [rows[i]]; }
    }
    assert rows[..|rows|] == rows;
  }

  /** The filter as a whole. */
  method Filter<D>(r: Round<D>, n: nat) returns (selected: seq<Row<D>>, prompts: nat)
    requires r.Ok(n)
    ensures selected == Flatten(Added(r, n)) && prompts == |Added(r, n)|
  {
    var rows := NewRows(r, n);
    NewGroupsGrouped(r, n);
    FilterKeepsGroups(NewGroups(r, n), n);
    var vals, keys := CollectMetrics(rows);
    var kept := SelectUids(vals, keys, rows);
    prompts := |kept|;
    selected := SelectRows(rows, kept);
  }

  // ---------- the carried state ----------

  /** `batch[:traj_bsz]` is as many whole groups as fit. */
  method Truncate<D>(rows: seq<Row<D>>, size: nat, ghost groups: seq<seq<Row<D>>>, ghost n: nat, ghost k: nat)
    returns (r: seq<Row<D>>)
    requires AllOfSize(groups, n) && k <= |groups| && rows == Flatten(groups) && size == k * n
    ensures r == Flatten(groups[..k])
  {
    FlattenPrefix(groups, k);
    OffsetOfUniform(groups, n, k);
    r := rows[..Min(size, |rows|)];
  }

  class RayDAPOTrainer<D> {
    const config: Config
    var batch: Option<seq<Row<D>>>
    var numPromptInBatch: nat
    var numGenBatches: nat
    ghost var groups: seq<seq<Row<D>>>

    /** What has been accumulated is `numPromptInBatch` whole, informative groups of different prompts. */
    ghost predicate Valid()
      reads this
    {
      && config.n >= 1 && config.trainBatchSize >= 1
      && Grouped(groups, config.n) && AllInformative(groups)
      && |groups| == numPromptInBatch
      && (match batch case None => groups == [] case Some(rows) => rows == Flatten(groups))
      && (groups != [] ==> numPromptInBatch < config.trainBatchSize)
    }

    constructor (config: Config)
      requires config.n >= 1 && config.trainBatchSize >= 1
      ensures Valid() && this.config == config && groups == [] && numGenBatches == 0
    {
      this.config := config;
      batch, numPromptInBatch, numGenBatches, groups := None, 0, 0, [];
    }

    /** Filters a round's rows and appends them to the batch. */
    method Accumulate(r: Round<D>)
      requires Valid() && r.Ok(config.n) && Fresh(r, groups)
      modifies this
      ensures groups == old(groups) + Added(r, config.n) && Grouped(groups, config.n) && AllInformative(groups)
      ensures numPromptInBatch == |groups| && batch == Some(Flatten(groups))
      ensures numGenBatches == old(numGenBatches) + 1
    {
      numGenBatches := numGenBatches + 1;
      var selected, prompts := Filter(r, config.n);
      numPromptInBatch := numPromptInBatch + prompts;
      batch := Some(if batch.None? then selected else batch.value + selected);
      JoinGrouped(groups, r, config.n);
      FlattenAppend(groups, Added(r, config.n));
      assert groups == [] ==> groups + Added(r, config.n) == Added(r, config.n);
      groups := groups + Added(r, config.n);
    }

    /** One generation round of the training loop. */
    method GenerationRound(r: Round<D>) returns (outcome: Outcome<D>)
      requires Valid() && r.Ok(config.n) && Fresh(r, groups)
      modifies this
      ensures Grouped(old(groups) + Added(r, config.n), config.n)
      ensures AllInformative(old(groups) + Added(r, config.n))
      ensures var all := old(groups) + Added(r, config.n);
        match outcome
        case Train(rows) =>
          |all| >= config.trainBatchSize && rows == Flatten(all[..config.trainBatchSize]) &&
          groups == [] && numGenBatches == 0
        case KeepGenerating =>
          |all| < config.trainBatchSize && groups == all && numGenBatches == old(numGenBatches) + 1 &&
          (config.maxNumGenBatches <= 0 || numGenBatches < config.maxNumGenBatches)
        case TooManyRounds =>
          |all| < config.trainBatchSize && 0 < config.maxNumGenBatches <= old(numGenBatches) + 1
      ensures !outcome.TooManyRounds? ==> Valid()
    {
      Accumulate(r);
      if numPromptInBatch < config.trainBatchSize {
        if config.maxNumGenBatches <= 0 || numGenBatches < config.maxNumGenBatches { return KeepGenerating; }
        return TooManyRounds;
      }
      var rows := Truncate(batch.value, config.trainBatchSize * config.n, groups, config.n, config.trainBatchSize);
      batch, numPromptInBatch, numGenBatches, groups := None, 0, 0, [];
      return Train(rows);
    }
  }

  /** The batch that is trained on has exactly n rows for each of train_batch_size prompts. */
  lemma TrainedBatch<D>(all: seq<seq<Row<D>>>, size: nat, n: nat)
    requires Grouped(all, n) && AllInformative(all) && size <= |all|
    ensures |Flatten(all[..size])| == size * n
    ensures Grouped(all[..size], n) && AllInformative(all[..size])
    ensures Cut(Flatten(all[..size]), n, size) == all[..size]
  {
    CutOfFlatten(all[..size], n);
  }
}
