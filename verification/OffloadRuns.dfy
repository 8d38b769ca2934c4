/**
 Whole training runs of the offload handler. A `Journal` records what the caller did: the commits, every
 tensor saved in the current cycle, and which of them were taken back. `Expected` computes the handler's
 entire state from the journal; OffloadSafety shows which legal calls succeed, and that these keep the
 handler in that state.
 */
module OffloadRuns {
  import opened Sequences
  import opened OffloadWindow
  import opened OffloadHandler
  import opened Wrappers

  datatype Saved = Saved(tag: Tag, tensor: Tensor)

  datatype Journal = Journal(
    backward: bool,        // the backward half of a cycle has begun
    current: nat,
    count: nat,
    log: seq<Saved>,       // everything saved in this cycle, in order
    popped: set<Tag>       // tags taken back
  )

  const START := Journal(false, 0, 0, [], {})

  // ---------- what the copies hold ----------

  /** The group's first saved tensor for each key. */
  function FirstOf(log: seq<Saved>, g: nat): map<Key, Tensor> {
    if log == [] then map[]
    else
      var last := log[|log| - 1];
      var before := FirstOf(log[..|log| - 1], g);
      if last.tag.group == g && last.tensor.key !in before
      then before[last.tensor.key := last.tensor]
      else before
  }

  lemma {:induction false} FirstOfHasKey(log: seq<Saved>, i: nat)
    requires i < |log|
    ensures log[i].tensor.key in FirstOf(log, log[i].tag.group)
  {
    if i < |log| - 1 { FirstOfHasKey(log[..|log| - 1], i); }
  }

  /** The copy under a key is one of the group's tensors with that key. */
  lemma {:induction false} FirstOfSource(log: seq<Saved>, g: nat, key: Key) returns (i: nat)
    requires key in FirstOf(log, g)
    ensures i < |log| && log[i].tag.group == g && log[i].tensor.key == key && FirstOf(log, g)[key] == log[i].tensor
    ensures forall j :: 0 <= j < i && log[j].tag.group == g ==> log[j].tensor.key != key
  {
    var n := |log| - 1;
    if key in FirstOf(log[..n], g) {
      i := FirstOfSource(log[..n], g, key);
    } else {
      i := n;
      forall j | 0 <= j < n && log[j].tag.group == g ensures log[j].tensor.key != key {
        FirstOfHasKey(log[..n], j);
      }
    }
  }

  /** What a pop hands back: for an offloaded group, the copy of the first tensor with the same key, reshaped. */
  function Delivered(p: Plan, log: seq<Saved>, s: Saved): Tensor
    requires p.Ok()
  {
    if Offloadable(p, s.tag.group) && s.tensor.key in FirstOf(log, s.tag.group)
    then Tensor(s.tensor.key, s.tensor.shape, FirstOf(log, s.tag.group)[s.tensor.key].elems)
    else s.tensor
  }

  // ---------- the handler's state, computed from the journal ----------

  /** Whether a group's tensors are currently represented by (key, shape) pairs. */
  predicate Away(p: Plan, j: Journal, g: nat)
    requires p.Ok()
  {
    Offloadable(p, g) && if j.backward then Window(p, g) < j.current else CopyTime(p, g) < j.current
  }

  function EntryFor(p: Plan, j: Journal, s: Saved): Entry
    requires p.Ok()
  {
    if Away(p, j, s.tag.group) then Moved(s.tensor.key, s.tensor.shape)
    else OnDevice(if j.backward then Delivered(p, j.log, s) else s.tensor)
  }

  /** One slot for every tensor of `items` that is still to be taken back. */
  function SlotsFor(p: Plan, j: Journal, items: seq<Saved>): seq<Slot>
    requires p.Ok()
  {
    if items == [] then []
    else
      var n := |items| - 1;
      SlotsFor(p, j, items[..n]) +
      if items[n].tag in j.popped then [] else [Slot(items[n].tag, EntryFor(p, j, items[n]))]
  }

  /** Whether the handler has let go of the device tensors of group g. */
  predicate Released(p: Plan, j: Journal, g: nat)
    requires p.Ok()
  {
    j.backward || Window(p, g) < j.current
  }

  function BufFor(p: Plan, j: Journal, items: seq<Saved>): map<Tag, Option<Tensor>>
    requires p.Ok()
  {
    if items == [] then map[]
    else
      var n := |items| - 1;
      var before := BufFor(p, j, items[..n]);
      var s := items[n];
      if s.tag.group < p.groups && s.tag !in j.popped
      then before[s.tag := if Released(p, j, s.tag.group) then None else Some(s.tensor)]
      else before
  }

  /** Groups whose copies the handler holds. */
  predicate HasCopies(p: Plan, j: Journal, g: nat)
    requires p.Ok()
  {
    g < p.groups && if j.backward then Window(p, g) < j.current else CopyTime(p, g) < j.current
  }

  function CopiesFor(p: Plan, j: Journal, g: nat): map<Key, Tensor>
    requires p.Ok()
  {
    if Offloadable(p, g) then FirstOf(j.log, g) else map[]
  }

  function DoneFor(p: Plan, j: Journal): int
    requires p.Ok()
  {
    if !j.backward then Closed(p, j.current)
    else if j.current == 0 then 0
    else Max(1, Closed(p, j.current))
  }

  /** The copies held, as they stand in the predicted state. */
  function BackupsFor(p: Plan, j: Journal): map<nat, map<Key, Tensor>>
    requires p.Ok()
  {
    map g | 0 <= g < p.groups && HasCopies(p, j, g) :: CopiesFor(p, j, g)
  }

  /** The handler's whole state after the calls in the journal. */
  function Expected(p: Plan, j: Journal): Handler
    requires p.Ok()
  {
    Handler(j.current, j.count, SlotsFor(p, j, j.log), BufFor(p, j, j.log), DoneFor(p, j), BackupsFor(p, j))
  }

  // ---------- legal use ----------

  predicate UniqueTags(log: seq<Saved>) {
    forall i, k {:trigger log[i].tag, log[k].tag} :: 0 <= i < k < |log| ==> log[i].tag != log[k].tag
  }

  predicate SameKey(a: Saved, b: Saved) {
    a.tag.group == b.tag.group && a.tensor.key == b.tensor.key
  }

  /** Tensors of group g sharing a key have equally many elements, so the copy of one can be reshaped to any. */
  predicate SizesAgree(log: seq<Saved>, g: nat) {
    forall i, k :: 0 <= i < |log| && 0 <= k < |log| && log[i].tag.group == g && SameKey(log[i], log[k])
                   ==> |log[i].tensor.elems| == |log[k].tensor.elems|
  }

  /** The group that the next backward commit brings back, if any, can be brought back. */
  predicate Returnable(p: Plan, r: Journal)
    requires p.Ok()
  {
    forall g {:trigger SizesAgree(r.log, g)} :: 0 <= g < p.groups && Offloadable(p, g) && Window(p, g) == r.current - 1
      ==> SizesAgree(r.log, g)
  }

  /** What holds of every journal that legal calls lead to. */
  predicate Coherent(p: Plan, j: Journal)
  {
    && p.Ok() && j.current <= p.layers
    && UniqueTags(j.log)
    && (forall i :: 0 <= i < |j.log| ==>
         Sound(j.log[i].tensor) && j.log[i].tag.group <= p.layers &&
         (!j.backward ==>
           j.log[i].tag.group <= j.current && (j.log[i].tag.group == j.current ==> j.log[i].tag.index < j.count)))
    && (forall t :: t in j.popped ==> t.group >= j.current)
    && (forall t :: t in j.popped ==> !j.backward ==> t.group == j.current == p.layers)
  }

  predicate AllPopped(j: Journal) {
    forall i :: 0 <= i < |j.log| ==> j.log[i].tag in j.popped
  }

  datatype Event = EPush(tensor: Tensor) | EPop(tag: Tag) | EForward | EBackward

  /** A finished cycle reads as the start of the next one. */
  function Renew(j: Journal): Journal {
    if j.backward && j.current == 0 && AllPopped(j) then Journal(false, 0, j.count, [], {}) else j
  }

  function Append(j: Journal, t: Tensor): Journal {
    j.(count := j.count + 1, log := j.log + [Saved(Tag(j.current, j.count), t)])
  }

  /**
   Legal calls: pushes and forward commits in the forward half, at most L of the latter; then backward
   commits, each tensor being taken back at most once, when the commits have come back to its group. The next
   cycle begins when all are taken back; OffloadLeftovers is about cycles that begin with some left over.
   */
  predicate Legal(p: Plan, j: Journal, e: Event) {
    var r := Renew(j);
    match e
    case EPush(t) => !r.backward && r.popped == {} && Sound(t)
    case EForward => !r.backward && r.current < p.layers
    case EPop(tag) =>
      && (exists i :: 0 <= i < |r.log| && r.log[i].tag == tag) && tag !in r.popped
      && tag.group >= r.current && (r.backward || r.current == p.layers)
    case EBackward => r.current > 0 && (r.backward || r.current == p.layers)
  }

  function Next(j: Journal, e: Event): Journal {
    var r := Renew(j);
    match e
    case EPush(t) => Append(r, t)
    case EForward => r.(current := r.current + 1, count := 0)
    case EPop(tag) => r.(popped := r.popped + {tag})
    case EBackward => if r.current == 0 then r else r.(backward := true, current := r.current - 1)
  }

  /** The handler's answer to an event: its next state, and the tensor a pop returns. */
  function Perform(p: Plan, h: Handler, e: Event): Option<(Handler, Option<Tensor>)>
    requires p.Ok()
  {
    match e
    case EPush(t) => var r := Push(p, h, t); if r.None? then None else Some((r.value, None))
    case EPop(tag) => var r := Pop(h, tag); if r.None? then None else Some((r.value.0, Some(r.value.1)))
    case EForward => var r := CommitForward(p, WindowMap(p), h); if r.None? then None else Some((r.value, None))
    case EBackward => var r := CommitBackward(p, WindowMap(p), h); if r.None? then None else Some((r.value, None))
  }

  // ---------- slots ----------

  lemma {:induction false} SlotsAgree(p: Plan, j: Journal, k: Journal, items: seq<Saved>)
    requires p.Ok() && j.popped == k.popped
    requires forall i :: 0 <= i < |items| && items[i].tag !in j.popped ==>
      EntryFor(p, j, items[i]) == EntryFor(p, k, items[i])
    ensures SlotsFor(p, j, items) == SlotsFor(p, k, items)
  {
    if items != [] {
      var n := |items| - 1;
      assert forall i :: 0 <= i < n ==> items[..n][i] == items[i];
      SlotsAgree(p, j, k, items[..n]);
    }
  }

  /** Every slot stands for a tensor still to be taken back. */
  lemma {:induction false} SlotSource(p: Plan, j: Journal, items: seq<Saved>, m: nat) returns (i: nat)
    requires p.Ok() && m < |SlotsFor(p, j, items)|
    ensures i < |items| && items[i].tag !in j.popped
    ensures SlotsFor(p, j, items)[m] == Slot(items[i].tag, EntryFor(p, j, items[i]))
  {
    var n := |items| - 1;
    var before := SlotsFor(p, j, items[..n]);
    if m < |before| {
      i := SlotSource(p, j, items[..n], m);
    } else {
      i := n;
    }
  }

  lemma {:induction false} SlotTarget(p: Plan, j: Journal, items: seq<Saved>, i: nat) returns (m: nat)
    requires p.Ok() && i < |items| && items[i].tag !in j.popped
    ensures m < |SlotsFor(p, j, items)|
    ensures SlotsFor(p, j, items)[m] == Slot(items[i].tag, EntryFor(p, j, items[i]))
  {
    var n := |items| - 1;
    if i < n {
      m := SlotTarget(p, j, items[..n], i);
    } else {
      m := |SlotsFor(p, j, items[..n])|;
    }
  }

  /** A slot-wise change of representation carries over to the whole list. */
  lemma {:induction false} SlotsMoved(p: Plan, j: Journal, k: Journal, items: seq<Saved>, g: nat)
    requires p.Ok() && j.popped == k.popped
    requires forall i :: 0 <= i < |items| && items[i].tag !in j.popped ==>
      MoveSlot(Slot(items[i].tag, EntryFor(p, j, items[i])), g) == Slot(items[i].tag, EntryFor(p, k, items[i]))
    ensures MoveGroup(SlotsFor(p, j, items), g) == SlotsFor(p, k, items)
  {
    if items != [] {
      var n := |items| - 1;
      assert forall i :: 0 <= i < n ==> items[..n][i] == items[i];
      SlotsMoved(p, j, k, items[..n], g);
    }
  }

  lemma {:induction false} SlotsReloaded(p: Plan, j: Journal, k: Journal, items: seq<Saved>, g: nat,
      copies: map<Key, Tensor>)
    requires p.Ok() && j.popped == k.popped && AllReloadable(SlotsFor(p, j, items), g, copies)
    requires forall i :: 0 <= i < |items| && items[i].tag !in j.popped ==>
      var s := Slot(items[i].tag, EntryFor(p, j, items[i]));
      Reloadable(s, g, copies) && ReloadSlot(s, g, copies) == Slot(items[i].tag, EntryFor(p, k, items[i]))
    ensures ReloadGroup(SlotsFor(p, j, items), g, copies) == SlotsFor(p, k, items)
  {
    if items != [] {
      var n := |items| - 1;
      var before := SlotsFor(p, j, items[..n]);
      assert forall i :: 0 <= i < n ==> items[..n][i] == items[i];
      assert forall m :: 0 <= m < |before| ==> SlotsFor(p, j, items)[m] == before[m];
      SlotsReloaded(p, j, k, items[..n], g, copies);
    }
  }
}
