/**
 The handler as an object whose calls update its fields. Each method is proved against the function of
 the same name in module OffloadHandler; OffloadSafety proves what follows over whole runs.
 */
module OffloadObject {
  import opened OffloadWindow
  import opened OffloadHandler
  import opened Wrappers

  /** What `tensor_push` gives the caller: a tag, or the tensor itself when it is not to be managed. */
  datatype Handle = Tagged(tag: Tag) | Direct(tensor: Tensor)

  class AsyncDoubleBufferGroupOffloadHandler {
    const plan: Plan
    var currentGroup: nat
    var tensorCountCurrentGroup: nat
    var tensorTagToState: seq<Slot>
    var tensorTagToBuf: map<Tag, Option<Tensor>>
    var offloadedGroupCount: int
    var layerWindowMap: map<int, int>
    var groupOffloadMapping: map<nat, map<Key, Tensor>>

    function Value(): Handler
      reads this
    {
      Handler(currentGroup, tensorCountCurrentGroup, tensorTagToState, tensorTagToBuf, offloadedGroupCount,
              groupOffloadMapping)
    }

    predicate Valid()
      reads this
    {
      plan.Ok() && layerWindowMap == WindowMap(plan)
    }

    constructor (plan: Plan)
      requires plan.Ok()
      ensures this.plan == plan && Valid() && Value() == INITIAL
    {
      this.plan := plan;
      currentGroup, tensorCountCurrentGroup := 0, 0;
      tensorTagToState, tensorTagToBuf := [], map[];
      offloadedGroupCount := 0;
      groupOffloadMapping := map[];
      layerWindowMap := map[];
      new;
      layerWindowMap := BuildWindowMap(plan);
    }

    /** `managed` says that the tensor is a real one and passes the offloading filter. */
    method TensorPush(tensor: Tensor, managed: bool) returns (ok: bool, handle: Handle)
      requires Valid()
      modifies this
      ensures Valid()
      ensures !managed ==> ok && handle == Direct(tensor) && Value() == old(Value())
      ensures managed ==> (ok <==> Push(plan, old(Value()), tensor).Some?)
      ensures managed && ok ==>
        Some(Value()) == Push(plan, old(Value()), tensor) &&
        handle == Tagged(Tag(old(currentGroup), old(tensorCountCurrentGroup)))
    {
      if !managed {
        return true, Direct(tensor);
      }
      var tag := Tag(currentGroup, tensorCountCurrentGroup);
      handle := Tagged(tag);
      tensorCountCurrentGroup := tensorCountCurrentGroup + 1;
      if HasTag(tensorTagToState, tag) {
        return false, handle;
      }
      tensorTagToState := tensorTagToState + [Slot(tag, OnDevice(tensor))];
      if currentGroup < plan.groups {
        tensorTagToBuf := tensorTagToBuf[tag := Some(tensor)];
      }
      return true, handle;
    }

    method TensorPop(handle: Handle) returns (r: Option<Tensor>)
      requires Valid()
      modifies this
      ensures Valid()
      ensures handle.Direct? ==> r == Some(handle.tensor) && Value() == old(Value())
      ensures handle.Tagged? ==> (r.Some? <==> Pop(old(Value()), handle.tag).Some?)
      ensures handle.Tagged? && r.Some? ==> Some((Value(), r.value)) == Pop(old(Value()), handle.tag)
    {
      if handle.Direct? {
        return Some(handle.tensor);
      }
      if !HasTag(tensorTagToState, handle.tag) {
        return None;
      }
      var entry := Lookup(tensorTagToState, handle.tag);
      tensorTagToState := RemoveTag(tensorTagToState, handle.tag);
      tensorTagToBuf := tensorTagToBuf - {handle.tag};
      if entry.Moved? {
        return None;
      }
      return Some(entry.tensor);
    }

    method BulkOffloadGroup(g: nat) returns (ok: bool)
      modifies this`tensorTagToState, this`groupOffloadMapping
      ensures ok <==> BulkOffload(old(Value()), g).Some?
      ensures ok ==> Some(Value()) == BulkOffload(old(Value()), g)
    {
      var mapping: map<Key, Tensor> := map[];
      var slots := tensorTagToState;
      for i := 0 to |slots|
        invariant |tensorTagToState| == |slots| && AllOnDevice(slots[..i], g)
        invariant forall m :: 0 <= m < i ==> tensorTagToState[m] == MoveSlot(slots[m], g)
        invariant forall m :: i <= m < |slots| ==> tensorTagToState[m] == slots[m]
        invariant mapping == CopiesOf(slots[..i], g)
        invariant groupOffloadMapping == old(groupOffloadMapping)
      {
        var s := tensorTagToState[i];
        assert slots[..i + 1][..i] == slots[..i];
        if s.tag.group == g {
          if s.entry.Moved? {
            assert !AllOnDevice(slots, g);
            return false;
          }
          var key := s.entry.tensor.key;
          if key !in mapping {
            mapping := mapping[key := s.entry.tensor];
          }
          tensorTagToState := tensorTagToState[i := Slot(s.tag, Moved(key, s.entry.tensor.shape))];
        }
      }
      assert slots[..|slots|] == slots;
      assert tensorTagToState == MoveGroup(slots, g);
      // copying each tensor to the host leaves its contents and shape as they are
      groupOffloadMapping := groupOffloadMapping[g := mapping];
      return true;
    }

    method BulkReloadGroup(g: nat) returns (ok: bool)
      modifies this`tensorTagToState, this`groupOffloadMapping
      ensures ok <==> BulkReload(plan, old(Value()), g).Some?
      ensures ok ==> Some(Value()) == BulkReload(plan, old(Value()), g)
    {
      if g >= plan.groups || g !in groupOffloadMapping {
        return false;
      }
      var mapping := groupOffloadMapping[g];
      groupOffloadMapping := groupOffloadMapping - {g};
      var slots := tensorTagToState;
      for i := 0 to |slots|
        invariant |tensorTagToState| == |slots| && AllReloadable(slots[..i], g, mapping)
        invariant forall m :: 0 <= m < i ==>
          Reloadable(slots[m], g, mapping) && tensorTagToState[m] == ReloadSlot(slots[m], g, mapping)
        invariant forall m :: i <= m < |slots| ==> tensorTagToState[m] == slots[m]
        invariant groupOffloadMapping == old(groupOffloadMapping) - {g}
      {
        var s := tensorTagToState[i];
        if s.tag.group == g && s.entry.Moved? {
          if s.entry.key !in mapping || View(mapping[s.entry.key], s.entry.shape).None? {
            assert !Reloadable(slots[i], g, mapping);
            return false;
          }
          var recovered := View(mapping[s.entry.key], s.entry.shape).value;
          tensorTagToState := tensorTagToState[i := Slot(s.tag, OnDevice(recovered))];
        }
      }
      assert slots[..|slots|] == slots;
      assert tensorTagToState == ReloadGroup(slots, g, mapping);
      return true;
    }

    method OnGroupCommitForward() returns (ok: bool)
      requires Valid()
      modifies this
      ensures Valid()
      ensures ok <==> CommitForward(plan, layerWindowMap, old(Value())).Some?
      ensures ok ==> Some(Value()) == CommitForward(plan, layerWindowMap, old(Value()))
    {
      if currentGroup == 0 {
        ok := BulkOffloadGroup(0);
        if !ok { return; }
      }
      if offloadedGroupCount !in layerWindowMap {
        return false;
      }
      if layerWindowMap[offloadedGroupCount] == currentGroup {
        tensorTagToBuf := Release(tensorTagToBuf, offloadedGroupCount);
        if 0 <= offloadedGroupCount < plan.groups - 1 {
          ok := BulkOffloadGroup(offloadedGroupCount + 1);
          if !ok { return; }
        }
        offloadedGroupCount := offloadedGroupCount + 1;
      }
      currentGroup := currentGroup + 1;
      tensorCountCurrentGroup := 0;
      return true;
    }

    method OnGroupCommitBackward() returns (ok: bool)
      requires Valid()
      modifies this
      ensures Valid()
      ensures ok <==> CommitBackward(plan, layerWindowMap, old(Value())).Some?
      ensures ok ==> Some(Value()) == CommitBackward(plan, layerWindowMap, old(Value()))
    {
      if currentGroup == 0 {
        return false;
      }
      currentGroup := currentGroup - 1;
      if offloadedGroupCount - 1 !in layerWindowMap {
        return false;
      }
      if layerWindowMap[offloadedGroupCount - 1] == currentGroup {
        if offloadedGroupCount < 1 {
          return false;
        }
        ok := BulkReloadGroup(offloadedGroupCount - 1);
        if !ok { return; }
        offloadedGroupCount := if offloadedGroupCount > 1 then offloadedGroupCount - 1 else offloadedGroupCount;
      }
      if currentGroup == 0 {
        offloadedGroupCount := 0;
      }
      return true;
    }
  }
}
