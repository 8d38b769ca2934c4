/**
 `AsyncDoubleBufferGroupOffloadHandler` of verl/utils/activation_offload.py: what each of its calls
 does to the handler's fields, as functions on a snapshot. The class itself is in OffloadObject.dfy.
 */
module OffloadHandler {
  import opened OffloadWindow
  import opened Wrappers

  // ---------- tensors ----------

  /** `_get_unique_tensor_key`: an address and an element type. */
  datatype Key = Key(address: int, dtype: nat)

  /** Contents in row-major order. */
  datatype Tensor = Tensor(key: Key, shape: seq<nat>, elems: seq<int>)

  function Numel(shape: seq<nat>): nat {
    if shape == [] then 1 else shape[0] * Numel(shape[1..])
  }

  predicate Sound(t: Tensor) {
    |t.elems| == Numel(t.shape)
  }

  /** `backup.view(shape)`, refused when the element counts differ. */
  function View(backup: Tensor, shape: seq<nat>): Option<Tensor> {
    if |backup.elems| == Numel(shape) then Some(Tensor(backup.key, shape, backup.elems)) else None
  }

  // ---------- the handler's fields ----------

  datatype Tag = Tag(group: nat, index: nat)

  /** A saved tensor still on the device, or the (key, shape) pair that replaces it. */
  datatype Entry = OnDevice(tensor: Tensor) | Moved(key: Key, shape: seq<nat>)

  /** One item of `tensor_tag_to_state`, which keeps its insertion order. */
  datatype Slot = Slot(tag: Tag, entry: Entry)

  datatype Handler = Handler(
    current: nat,                              // current_group
    count: nat,                                // tensor_count_current_group
    slots: seq<Slot>,                          // tensor_tag_to_state
    buf: map<Tag, Option<Tensor>>,             // tensor_tag_to_buf
    done: int,                                 // offloaded_group_count
    backups: map<nat, map<Key, Tensor>>        // group_offload_mapping
  )

  predicate HasTag(slots: seq<Slot>, tag: Tag) {
    exists i :: 0 <= i < |slots| && slots[i].tag == tag
  }

  // ---------- tensor_push, tensor_pop ----------

  function Push(p: Plan, h: Handler, t: Tensor): Option<Handler> {
    var tag := Tag(h.current, h.count);
    if HasTag(h.slots, tag) then None
    else Some(h.(
      count := h.count + 1,
      slots := h.slots + [Slot(tag, OnDevice(t))],
      buf := if h.current < p.groups then h.buf[tag := Some(t)] else h.buf))
  }

  function RemoveTag(slots: seq<Slot>, tag: Tag): seq<Slot> {
    if slots == [] then []
    else if slots[0].tag == tag then slots[1..]
    else [slots[0]] + RemoveTag(slots[1..], tag)
  }

  function Lookup(slots: seq<Slot>, tag: Tag): (e: Entry)
    requires HasTag(slots, tag)
    ensures exists i :: 0 <= i < |slots| && slots[i] == Slot(tag, e)
  {
    if slots[0].tag == tag then
      assert slots[0] == Slot(tag, slots[0].entry);
      slots[0].entry
    else
      assert HasTag(slots[1..], tag) by {
        var i :| 0 <= i < |slots| && slots[i].tag == tag;
        assert slots[1..][i - 1].tag == tag;
      }
      var e := Lookup(slots[1..], tag);
      assert exists i :: 0 <= i < |slots| && slots[i] == Slot(tag, e) by {
        var i :| 0 <= i < |slots[1..]| && slots[1..][i] == Slot(tag, e);
        assert slots[i + 1] == Slot(tag, e);
      }
      e
  }

  /** The tensor handed back; refused for an unknown tag and for one whose contents are off the device. */
  function Pop(h: Handler, tag: Tag): Option<(Handler, Tensor)> {
    if !HasTag(h.slots, tag) || Lookup(h.slots, tag).Moved? then None
    else Some((h.(slots := RemoveTag(h.slots, tag), buf := h.buf - {tag}), Lookup(h.slots, tag).tensor))
  }

  // ---------- bulk_offload_group ----------

  /** No slot of the group has been moved yet. */
  predicate AllOnDevice(slots: seq<Slot>, g: nat) {
    forall i :: 0 <= i < |slots| && slots[i].tag.group == g ==> slots[i].entry.OnDevice?
  }

  /** One copy per key: the first tensor of the group that has it. */
  function CopiesOf(slots: seq<Slot>, g: nat): map<Key, Tensor>
    requires AllOnDevice(slots, g)
  {
    if slots == [] then map[]
    else
      var last := slots[|slots| - 1];
      var before := CopiesOf(slots[..|slots| - 1], g);
      if last.tag.group == g && last.entry.tensor.key !in before
      then before[last.entry.tensor.key := last.entry.tensor]
      else before
  }

  function MoveSlot(s: Slot, g: nat): Slot {
    if s.tag.group == g && s.entry.OnDevice?
    then Slot(s.tag, Moved(s.entry.tensor.key, s.entry.tensor.shape))
    else s
  }

  function MoveGroup(slots: seq<Slot>, g: nat): (r: seq<Slot>)
    ensures |r| == |slots|
  {
    seq(|slots|, i requires 0 <= i < |slots| => MoveSlot(slots[i], g))
  }

  function BulkOffload(h: Handler, g: nat): Option<Handler> {
    if !AllOnDevice(h.slots, g) then None
    else Some(h.(slots := MoveGroup(h.slots, g), backups := h.backups[g := CopiesOf(h.slots, g)]))
  }

  // ---------- bulk_reload_group ----------

  /** The slot can be given its contents back from these copies. */
  predicate Reloadable(s: Slot, g: nat, copies: map<Key, Tensor>) {
    s.tag.group == g && s.entry.Moved? ==>
      s.entry.key in copies && View(copies[s.entry.key], s.entry.shape).Some?
  }

  function ReloadSlot(s: Slot, g: nat, copies: map<Key, Tensor>): Slot
    requires Reloadable(s, g, copies)
  {
    if s.tag.group == g && s.entry.Moved?
    then Slot(s.tag, OnDevice(View(copies[s.entry.key], s.entry.shape).value))
    else s
  }

  predicate AllReloadable(slots: seq<Slot>, g: nat, copies: map<Key, Tensor>) {
    forall i :: 0 <= i < |slots| ==> Reloadable(slots[i], g, copies)
  }

  function ReloadGroup(slots: seq<Slot>, g: nat, copies: map<Key, Tensor>): (r: seq<Slot>)
    requires AllReloadable(slots, g, copies)
    ensures |r| == |slots|
  {
    seq(|slots|, i requires 0 <= i < |slots| => ReloadSlot(slots[i], g, copies))
  }

  function BulkReload(p: Plan, h: Handler, g: nat): Option<Handler> {
    if g >= p.groups || g !in h.backups || !AllReloadable(h.slots, g, h.backups[g]) then None
    else Some(h.(slots := ReloadGroup(h.slots, g, h.backups[g]), backups := h.backups - {g}))
  }

  // ---------- the commits ----------

  /** Lets go of the device tensors kept for a group. */
  function Release(buf: map<Tag, Option<Tensor>>, g: int): map<Tag, Option<Tensor>> {
    map t | t in buf :: if t.group == g then None else buf[t]
  }

  /** `on_group_commit_forward`; `window` is `layer_window_map`, and a missing key is an error. */
  function CommitForward(p: Plan, window: map<int, int>, h: Handler): Option<Handler> {
    var first := if h.current == 0 then BulkOffload(h, 0) else Some(h);
    if first.None? || first.value.done !in window then None
    else
      var a := first.value;
      var second :=
        if window[a.done] != a.current then Some(a)
        else
          var b := a.(buf := Release(a.buf, a.done));
          var c := if 0 <= b.done < p.groups - 1 then BulkOffload(b, b.done + 1) else Some(b);
          if c.None? then None else Some(c.value.(done := c.value.done + 1));
      if second.None? then None
      else Some(second.value.(current := second.value.current + 1, count := 0))
  }

  /** `on_group_commit_backward` */
  function CommitBackward(p: Plan, window: map<int, int>, h: Handler): Option<Handler> {
    if h.current == 0 || h.done - 1 !in window then None
    else
      var a := h.(current := h.current - 1);
      var b :=
        if window[a.done - 1] != a.current then Some(a)
        else
          var r := if a.done >= 1 then BulkReload(p, a, a.done - 1) else None;
          if r.None? then None
          else Some(r.value.(done := if r.value.done > 1 then r.value.done - 1 else r.value.done));
      if b.None? then None
      else Some(if b.value.current == 0 then b.value.(done := 0) else b.value)
  }

  const INITIAL := Handler(0, 0, [], map[], 0, map[])
}
