/**
 A legal call of the offload handler succeeds exactly if it is feasible, and then keeps the handler in the
 state its journal predicts; runs follow.
 */
module OffloadSafety {
  import opened Arithmetic
  import opened Sequences
  import opened OffloadWindow
  import opened OffloadHandler
  import opened OffloadRuns
  import opened Wrappers

  // ---------- the device-side buffers ----------

  lemma {:induction false} BufAgree(p: Plan, j: Journal, k: Journal, items: seq<Saved>)
    requires p.Ok() && j.popped == k.popped
    requires forall g :: 0 <= g < p.groups ==> Released(p, j, g) == Released(p, k, g)
    ensures BufFor(p, j, items) == BufFor(p, k, items)
  {
    if items != [] { BufAgree(p, j, k, items[..|items| - 1]); }
  }

  lemma {:induction false} BufReleased(p: Plan, j: Journal, k: Journal, items: seq<Saved>, g: nat)
    requires p.Ok() && j.popped == k.popped
    requires forall x :: 0 <= x < p.groups ==> (Released(p, k, x) <==> Released(p, j, x) || x == g)
    ensures Release(BufFor(p, j, items), g) == BufFor(p, k, items)
  {
    if items != [] { BufReleased(p, j, k, items[..|items| - 1], g); }
  }

  lemma {:induction false} BufWithout(p: Plan, j: Journal, items: seq<Saved>, tag: Tag)
    requires p.Ok()
    ensures BufFor(p, j.(popped := j.popped + {tag}), items) == BufFor(p, j, items) - {tag}
  {
    if items != [] { BufWithout(p, j, items[..|items| - 1], tag); }
  }

  // ---------- the copies ----------

  /** While the group is wholly on the device, copying its slots copies the logged tensors. */
  lemma {:induction false} CopiesFromLog(p: Plan, j: Journal, items: seq<Saved>, g: nat)
    requires p.Ok() && !j.backward && !Away(p, j, g)
    requires forall i :: 0 <= i < |items| && items[i].tag.group == g ==> items[i].tag !in j.popped
    ensures AllOnDevice(SlotsFor(p, j, items), g)
    ensures CopiesOf(SlotsFor(p, j, items), g) == FirstOf(items, g)
  {
    if items != [] {
      var n := |items| - 1;
      var before := SlotsFor(p, j, items[..n]);
      assert forall i :: 0 <= i < n ==> items[..n][i] == items[i];
      CopiesFromLog(p, j, items[..n], g);
      if items[n].tag !in j.popped {
        assert SlotsFor(p, j, items)[..|before|] == before;
      } else {
        assert SlotsFor(p, j, items) == before;
      }
    }
  }

  lemma {:induction false} CopiesUnaffected(slots: seq<Slot>, g: nat, other: nat)
    requires g != other && AllOnDevice(slots, other)
    ensures AllOnDevice(MoveGroup(slots, g), other)
    ensures CopiesOf(MoveGroup(slots, g), other) == CopiesOf(slots, other)
  {
    if slots != [] {
      var n := |slots| - 1;
      assert MoveGroup(slots, g)[..n] == MoveGroup(slots[..n], g);
      CopiesUnaffected(slots[..n], g, other);
    }
  }

  lemma {:induction false} FirstOfOthers(log: seq<Saved>, g: nat)
    requires forall i :: 0 <= i < |log| ==> log[i].tag.group != g
    ensures FirstOf(log, g) == map[]
  {
    if log != [] { FirstOfOthers(log[..|log| - 1], g); }
  }

  /** What copying a group at its copy time stores is what the journal predicts. */
  lemma CopiesStored(p: Plan, j: Journal, g: nat)
    requires Coherent(p, j) && !j.backward && j.current < p.layers
    requires g < p.groups && CopyTime(p, g) == j.current
    ensures AllOnDevice(SlotsFor(p, j, j.log), g)
    ensures CopiesOf(SlotsFor(p, j, j.log), g) == CopiesFor(p, j, g)
  {
    CopiesFromLog(p, j, j.log, g);
    if !Offloadable(p, g) { FirstOfOthers(j.log, g); }
  }

  /** The groups copied by the commit after c others: group 0 first, then one per window closed. */
  lemma CopyTimeIs(p: Plan, c: nat, g: nat)
    requires p.Ok() && g < p.groups
    ensures CopyTime(p, g) == c <==>
      (g == 0 && c == 0) || (g == Closed(p, c) + 1 && Window(p, Closed(p, c)) == c)
  {
    var n := Closed(p, c);
    if g > 0 && Window(p, g - 1) == c {
      ClosedIff(p, c, g - 1);
      ClosedIff(p, c + 1, g - 1);
    }
  }

  // ---------- a new cycle ----------

  lemma {:induction false} AllTakenBack(p: Plan, j: Journal, items: seq<Saved>)
    requires p.Ok() && forall i :: 0 <= i < |items| ==> items[i].tag in j.popped
    ensures SlotsFor(p, j, items) == [] && BufFor(p, j, items) == map[]
  {
    if items != [] { AllTakenBack(p, j, items[..|items| - 1]); }
  }

  /** A finished cycle has brought the handler back to its initial state, but for the running tag index. */
  lemma CycleCloses(p: Plan, j: Journal)
    requires Coherent(p, j) && j.backward && j.current == 0 && AllPopped(j)
    ensures Expected(p, j) == INITIAL.(count := j.count)
  {
    AllTakenBack(p, j, j.log);
    forall g | 0 <= g < p.groups ensures !HasCopies(p, j, g) { WindowAtLeast(p, g); }
  }

  lemma RenewSame(p: Plan, j: Journal)
    requires Coherent(p, j)
    ensures Coherent(p, Renew(j)) && Expected(p, Renew(j)) == Expected(p, j)
  {
    var r := Renew(j);
    if r != j {
      CycleCloses(p, j);
      forall g | 0 <= g < p.groups ensures !HasCopies(p, r, g) {
        if g > 0 { WindowAtLeast(p, g - 1); }
      }
    }
  }

  // ---------- one lemma per kind of call ----------

  lemma FreshTag(p: Plan, r: Journal)
    requires Coherent(p, r) && !r.backward
    ensures !HasTag(SlotsFor(p, r, r.log), Tag(r.current, r.count))
  {
    var slots := SlotsFor(p, r, r.log);
    forall m | 0 <= m < |slots| ensures slots[m].tag != Tag(r.current, r.count) {
      var i := SlotSource(p, r, r.log, m);
    }
  }

  lemma PushCoherent(p: Plan, r: Journal, t: Tensor)
    requires Coherent(p, r) && !r.backward && r.popped == {} && Sound(t)
    ensures Coherent(p, Append(r, t))
  {
  }

  lemma PushSlots(p: Plan, r: Journal, t: Tensor)
    requires Coherent(p, r) && !r.backward && r.popped == {}
    ensures SlotsFor(p, Append(r, t), Append(r, t).log)
         == SlotsFor(p, r, r.log) + [Slot(Tag(r.current, r.count), OnDevice(t))]
  {
    assert Append(r, t).log[..|r.log|] == r.log;
    SlotsAgree(p, r, Append(r, t), r.log);
  }

  lemma PushBuf(p: Plan, r: Journal, t: Tensor)
    requires Coherent(p, r) && !r.backward && r.popped == {}
    ensures var tag := Tag(r.current, r.count);
      BufFor(p, Append(r, t), Append(r, t).log)
        == if r.current < p.groups then BufFor(p, r, r.log)[tag := Some(t)] else BufFor(p, r, r.log)
  {
    assert Append(r, t).log[..|r.log|] == r.log;
    BufAgree(p, r, Append(r, t), r.log);
    WindowAtLeast(p, r.current);
  }

  /** Copies already made stay as they are: the groups they belong to have stopped saving. */
  lemma PushCopies(p: Plan, r: Journal, t: Tensor, g: nat)
    requires Coherent(p, r) && !r.backward && HasCopies(p, r, g)
    ensures CopiesFor(p, Append(r, t), g) == CopiesFor(p, r, g)
  {
    assert Append(r, t).log[..|r.log|] == r.log;
  }

  lemma PushKeeps(p: Plan, r: Journal, t: Tensor)
    requires Coherent(p, r) && !r.backward && r.popped == {}
    ensures Push(p, Expected(p, r), t) == Some(Expected(p, Append(r, t)))
  {
    FreshTag(p, r);
    PushSlots(p, r, t);
    PushBuf(p, r, t);
    forall g | 0 <= g < p.groups && HasCopies(p, r, g)
      ensures CopiesFor(p, Append(r, t), g) == CopiesFor(p, r, g)
    {
      PushCopies(p, r, t, g);
    }
    assert Expected(p, r).backups == Expected(p, Append(r, t)).backups;
  }

  // ---------- forward commits ----------

  function AfterForward(r: Journal): Journal {
    r.(current := r.current + 1, count := 0)
  }

  /** The commit copies group g. */
  predicate CopiedNow(p: Plan, r: Journal, g: nat)
    requires p.Ok()
  {
    g < p.groups && CopyTime(p, g) == r.current
  }

  /** Group x's slots after moving group g out, when g is copied by this commit and `moved` tells who else was. */
  lemma ForwardEntry(p: Plan, r: Journal, i: nat)
    requires Coherent(p, r) && !r.backward && i < |r.log|
    ensures var s := r.log[i]; var slot := Slot(s.tag, EntryFor(p, r, s));
      Slot(s.tag, EntryFor(p, AfterForward(r), s))
        == if CopiedNow(p, r, s.tag.group) then MoveSlot(slot, s.tag.group) else slot
  {
    if r.log[i].tag.group < p.groups { OffloadableIff(p, r.log[i].tag.group); }
  }

  lemma ForwardCoherent(p: Plan, r: Journal)
    requires Coherent(p, r) && !r.backward && r.current < p.layers
    ensures Coherent(p, AfterForward(r))
  {
  }

  lemma ForwardBuf(p: Plan, r: Journal)
    requires Coherent(p, r) && !r.backward && r.current < p.layers
    ensures var n := Closed(p, r.current);
      BufFor(p, AfterForward(r), r.log)
        == if Window(p, n) == r.current then Release(BufFor(p, r, r.log), n) else BufFor(p, r, r.log)
  {
    var n := Closed(p, r.current);
    ClosedAtEnd(p, r.current);
    forall g | 0 <= g < p.groups
      ensures Released(p, AfterForward(r), g) <==> Released(p, r, g) || (g == n && Window(p, n) == r.current)
    {
      ClosesNext(p, r.current, g);
    }
    if Window(p, n) == r.current {
      BufReleased(p, r, AfterForward(r), r.log, n);
    } else {
      BufAgree(p, r, AfterForward(r), r.log);
    }
  }

  lemma MoveNothing(slots: seq<Slot>, g: nat)
    requires forall i :: 0 <= i < |slots| ==> slots[i].tag.group != g
    ensures MoveGroup(slots, g) == slots
  {
  }

  lemma SlotGroups(p: Plan, j: Journal, bound: nat)
    requires p.Ok() && forall i :: 0 <= i < |j.log| ==> j.log[i].tag.group <= bound
    ensures forall m :: 0 <= m < |SlotsFor(p, j, j.log)| ==> SlotsFor(p, j, j.log)[m].tag.group <= bound
  {
    forall m | 0 <= m < |SlotsFor(p, j, j.log)| ensures SlotsFor(p, j, j.log)[m].tag.group <= bound {
      var i := SlotSource(p, j, j.log, m);
    }
  }

  /** The slots after a forward commit: the group copied now, if any, is moved out. */
  lemma ForwardSlots(p: Plan, r: Journal, g: nat)
    requires Coherent(p, r) && !r.backward
    requires forall x :: 0 <= x <= r.current ==> (CopiedNow(p, r, x) <==> x == g && g < p.groups)
    ensures g < p.groups ==> MoveGroup(SlotsFor(p, r, r.log), g) == SlotsFor(p, AfterForward(r), r.log)
    ensures g >= p.groups ==> SlotsFor(p, r, r.log) == SlotsFor(p, AfterForward(r), r.log)
  {
    forall i | 0 <= i < |r.log| && r.log[i].tag !in r.popped
      ensures var s := r.log[i]; var slot := Slot(s.tag, EntryFor(p, r, s));
        Slot(s.tag, EntryFor(p, AfterForward(r), s)) == if g < p.groups then MoveSlot(slot, g) else slot
    {
      ForwardEntry(p, r, i);
    }
    if g < p.groups {
      SlotsMoved(p, r, AfterForward(r), r.log, g);
    } else {
      SlotsAgree(p, r, AfterForward(r), r.log);
    }
  }

  lemma ForwardBackups(p: Plan, r: Journal, g: nat)
    requires Coherent(p, r) && !r.backward
    ensures g in BackupsFor(p, AfterForward(r)) <==> g in BackupsFor(p, r) || CopiedNow(p, r, g)
    ensures g in BackupsFor(p, AfterForward(r)) ==> BackupsFor(p, AfterForward(r))[g] == CopiesFor(p, r, g)
  {
  }

  lemma ForwardFirstBackups(p: Plan, r: Journal)
    requires Coherent(p, r) && !r.backward && r.current == 0
    ensures var copied := BackupsFor(p, r)[0 := CopiesFor(p, r, 0)];
      BackupsFor(p, AfterForward(r))
        == if Window(p, 0) == 0 && p.groups > 1 then copied[1 := CopiesFor(p, r, 1)] else copied
  {
    var copied := BackupsFor(p, r)[0 := CopiesFor(p, r, 0)];
    copied := if Window(p, 0) == 0 && p.groups > 1 then copied[1 := CopiesFor(p, r, 1)] else copied;
    forall g: nat
      ensures g in copied <==> g in BackupsFor(p, AfterForward(r))
      ensures g in copied ==> copied[g] == BackupsFor(p, AfterForward(r))[g]
    {
      ForwardBackups(p, r, g);
      if g < p.groups { CopyTimeIs(p, 0, g); }
    }
  }

  /** Copying two groups in a row, as the first commit does when every layer is its own group. */
  lemma ForwardFirstSlots(p: Plan, r: Journal)
    requires Coherent(p, r) && !r.backward && r.current == 0
    ensures var slots := SlotsFor(p, r, r.log); var moved := MoveGroup(slots, 0);
      && AllOnDevice(slots, 0) && CopiesOf(slots, 0) == CopiesFor(p, r, 0)
      && moved == SlotsFor(p, AfterForward(r), r.log)
      && (Window(p, 0) == 0 && p.groups > 1 ==>
           AllOnDevice(moved, 1) && CopiesOf(moved, 1) == CopiesFor(p, r, 1) && MoveGroup(moved, 1) == moved)
  {
    var slots := SlotsFor(p, r, r.log);
    CopyTimeIs(p, 0, 0);
    CopiesStored(p, r, 0);
    ForwardSlots(p, r, 0);
    SlotGroups(p, AfterForward(r), 0);
    if Window(p, 0) == 0 && p.groups > 1 {
      CopyTimeIs(p, 0, 1);
      CopiesStored(p, r, 1);
      CopiesUnaffected(slots, 0, 1);
      MoveNothing(MoveGroup(slots, 0), 1);
    }
  }

  /** The first commit of a cycle copies group 0, and group 1 too when each layer is its own group. */
  lemma ForwardFirst(p: Plan, r: Journal)
    requires Coherent(p, r) && !r.backward && r.current == 0
    ensures CommitForward(p, WindowMap(p), Expected(p, r)) == Some(Expected(p, AfterForward(r)))
  {
    var h, k := Expected(p, r), Expected(p, AfterForward(r));
    ForwardFirstSlots(p, r);
    ForwardFirstBackups(p, r);
    ForwardBuf(p, r);
    var a := h.(slots := k.slots, backups := h.backups[0 := CopiesFor(p, r, 0)]);
    assert BulkOffload(h, 0) == Some(a);
    if Window(p, 0) == 0 {
      var b := a.(buf := Release(a.buf, 0));
      var c := if p.groups > 1 then b.(backups := b.backups[1 := CopiesFor(p, r, 1)]) else b;
      assert p.groups > 1 ==> BulkOffload(b, 1) == Some(c);
      assert c.(done := 1, current := 1, count := 0) == k;
    } else {
      assert a.(current := 1, count := 0) == k;
    }
  }

  lemma ForwardLaterBackups(p: Plan, r: Journal)
    requires Coherent(p, r) && !r.backward && r.current > 0
    ensures var n := Closed(p, r.current);
      BackupsFor(p, AfterForward(r))
        == if Window(p, n) == r.current && n + 1 < p.groups
           then BackupsFor(p, r)[n + 1 := CopiesFor(p, r, n + 1)] else BackupsFor(p, r)
  {
    var n := Closed(p, r.current);
    var copied := if Window(p, n) == r.current && n + 1 < p.groups
           then BackupsFor(p, r)[n + 1 := CopiesFor(p, r, n + 1)] else BackupsFor(p, r);
    forall g: nat
      ensures g in copied <==> g in BackupsFor(p, AfterForward(r))
      ensures g in copied ==> copied[g] == BackupsFor(p, AfterForward(r))[g]
    {
      ForwardBackups(p, r, g);
      if g < p.groups { CopyTimeIs(p, r.current, g); }
    }
  }

  lemma ForwardLaterSlots(p: Plan, r: Journal)
    requires Coherent(p, r) && !r.backward && 0 < r.current < p.layers
    ensures var n := Closed(p, r.current); var slots := SlotsFor(p, r, r.log);
      if Window(p, n) == r.current && n + 1 < p.groups
      then AllOnDevice(slots, n + 1) && CopiesOf(slots, n + 1) == CopiesFor(p, r, n + 1) &&
           MoveGroup(slots, n + 1) == SlotsFor(p, AfterForward(r), r.log)
      else slots == SlotsFor(p, AfterForward(r), r.log)
  {
    var n := Closed(p, r.current);
    var copies := Window(p, n) == r.current && n + 1 < p.groups;
    forall x | 0 <= x < p.groups ensures CopiedNow(p, r, x) <==> x == n + 1 && copies {
      CopyTimeIs(p, r.current, x);
    }
    ForwardSlots(p, r, if copies then n + 1 else p.groups);
    if copies { CopiesStored(p, r, n + 1); }
  }

  lemma ForwardQuiet(p: Plan, r: Journal)
    requires Coherent(p, r) && !r.backward && 0 < r.current < p.layers
    requires Window(p, Closed(p, r.current)) != r.current
    ensures CommitForward(p, WindowMap(p), Expected(p, r)) == Some(Expected(p, AfterForward(r)))
  {
    ClosedAtEnd(p, r.current);
    ForwardLaterSlots(p, r);
    ForwardLaterBackups(p, r);
    ForwardBuf(p, r);
  }

  /** What a commit at which window n closes makes of a handler. */
  ghost predicate Closes(p: Plan, h: Handler, k: Handler, n: nat) {
    && h.done == n < p.groups && k.current == h.current + 1 && k.count == 0 && k.done == n + 1
    && k.buf == Release(h.buf, n)
    && if n + 1 < p.groups
       then AllOnDevice(h.slots, n + 1) && k.slots == MoveGroup(h.slots, n + 1) &&
            k.backups == h.backups[n + 1 := CopiesOf(h.slots, n + 1)]
       else k.slots == h.slots && k.backups == h.backups
  }

  lemma ClosingStep(p: Plan, h: Handler, k: Handler, n: nat)
    requires p.Ok() && h.current > 0 && Closes(p, h, k, n) && Window(p, n) == h.current
    ensures CommitForward(p, WindowMap(p), h) == Some(k)
  {
  }

  lemma ClosingMoves(p: Plan, r: Journal)
    requires Coherent(p, r) && !r.backward && 0 < r.current < p.layers
    requires Window(p, Closed(p, r.current)) == r.current
    ensures Closes(p, Expected(p, r), Expected(p, AfterForward(r)), Closed(p, r.current))
  {
    ClosedAtEnd(p, r.current);
    ForwardLaterSlots(p, r);
    ForwardLaterBackups(p, r);
    ForwardBuf(p, r);
  }

  lemma ForwardClosing(p: Plan, r: Journal)
    requires Coherent(p, r) && !r.backward && 0 < r.current < p.layers
    requires Window(p, Closed(p, r.current)) == r.current
    ensures CommitForward(p, WindowMap(p), Expected(p, r)) == Some(Expected(p, AfterForward(r)))
  {
    ClosingMoves(p, r);
    ClosingStep(p, Expected(p, r), Expected(p, AfterForward(r)), Closed(p, r.current));
  }

  /** Any later commit copies the next group exactly when a window closes. */
  lemma ForwardLater(p: Plan, r: Journal)
    requires Coherent(p, r) && !r.backward && 0 < r.current < p.layers
    ensures CommitForward(p, WindowMap(p), Expected(p, r)) == Some(Expected(p, AfterForward(r)))
  {
    if Window(p, Closed(p, r.current)) == r.current {
      ForwardClosing(p, r);
    } else {
      ForwardQuiet(p, r);
    }
  }

  // ---------- backward commits ----------

  /** A backward commit may come: the forward half is over. */
  predicate BackwardDue(p: Plan, r: Journal) {
    Coherent(p, r) && r.current > 0 && (r.backward || r.current == p.layers)
  }

  function AfterBackward(r: Journal): Journal
    requires r.current > 0
  {
    r.(backward := true, current := r.current - 1)
  }

  lemma BackwardCoherent(p: Plan, r: Journal)
    requires BackwardDue(p, r)
    ensures Coherent(p, AfterBackward(r))
  {
  }

  /** The group whose copies are next to come back, and when. */
  lemma NextBack(p: Plan, r: Journal, g: nat)
    requires BackwardDue(p, r) && g < p.groups
    ensures 1 <= DoneFor(p, r) <= p.groups
    ensures Window(p, g) == r.current - 1 <==> g == DoneFor(p, r) - 1 && Window(p, DoneFor(p, r) - 1) == r.current - 1
  {
    ClosedAtEnd(p, r.current);
    ClosedIff(p, r.current, g);
    ClosedIff(p, r.current - 1, g);
    ClosedBrackets(p, r.current);
    var d := Closed(p, r.current);
    if d > 0 && g + 1 < d { WindowIncreasing(p, g, d - 1); }
  }

  lemma DoneStep(p: Plan, c: nat)
    requires p.Ok() && c > 1
    ensures var d := Max(1, Closed(p, c));
      Max(1, Closed(p, c - 1)) == if Window(p, d - 1) == c - 1 && d > 1 then d - 1 else d
  {
    ClosedBrackets(p, c);
    ClosedBrackets(p, c - 1);
    var m := Closed(p, c - 1);
    if Closed(p, c) == m && m > 0 { assert Window(p, m - 1) < c - 1; }
  }

  /** The running count after the commit. */
  lemma BackwardDone(p: Plan, r: Journal)
    requires BackwardDue(p, r)
    ensures var d := DoneFor(p, r);
      DoneFor(p, AfterBackward(r))
        == if r.current == 1 then 0
           else if Window(p, d - 1) == r.current - 1 && d > 1 then d - 1 else d
  {
    ClosedAtEnd(p, r.current);
    if r.current > 1 { DoneStep(p, r.current); }
  }

  lemma BackwardBuf(p: Plan, r: Journal)
    requires BackwardDue(p, r)
    ensures BufFor(p, AfterBackward(r), r.log) == BufFor(p, r, r.log)
  {
    forall g | 0 <= g < p.groups ensures Released(p, r, g) {
      ClosedAtEnd(p, p.layers);
      ClosedIff(p, p.layers, g);
    }
    BufAgree(p, r, AfterBackward(r), r.log);
  }

  /** At the turn of the cycle every offloadable group is away and has copies. */
  lemma AwayAtTurn(p: Plan, r: Journal, g: nat)
    requires BackwardDue(p, r) && g < p.groups
    ensures HasCopies(p, r, g) <==> Window(p, g) < r.current
    ensures Away(p, r, g) <==> Offloadable(p, g) && Window(p, g) < r.current
  {
    CopyBeforeClose(p, g);
    ClosedAtEnd(p, p.layers);
    ClosedIff(p, p.layers, g);
  }

  lemma SavedReloadable(p: Plan, r: Journal, i: nat)
    requires BackwardDue(p, r) && i < |r.log| && SizesAgree(r.log, r.log[i].tag.group)
    ensures var s := r.log[i];
      && s.tensor.key in FirstOf(r.log, s.tag.group)
      && var copy := FirstOf(r.log, s.tag.group)[s.tensor.key];
         View(copy, s.tensor.shape) == Some(Tensor(s.tensor.key, s.tensor.shape, copy.elems))
  {
    var s := r.log[i];
    FirstOfHasKey(r.log, i);
    var k := FirstOfSource(r.log, s.tag.group, s.tensor.key);
    assert SameKey(r.log[k], r.log[i]);
  }

  /** Each slot after the commit: what was away and is due comes back as the copy, the rest stays. */
  lemma BackwardEntry(p: Plan, r: Journal, i: nat)
    requires BackwardDue(p, r) && Returnable(p, r) && i < |r.log|
    ensures var s := r.log[i]; var g := s.tag.group; var slot := Slot(s.tag, EntryFor(p, r, s));
      var due := g < p.groups && Window(p, g) == r.current - 1;
      && (due ==> Reloadable(slot, g, CopiesFor(p, r, g)))
      && Slot(s.tag, EntryFor(p, AfterBackward(r), s)) == if due then ReloadSlot(slot, g, CopiesFor(p, r, g)) else slot
  {
    var s := r.log[i];
    if s.tag.group < p.groups {
      AwayAtTurn(p, r, s.tag.group);
      if Offloadable(p, s.tag.group) && Window(p, s.tag.group) == r.current - 1 { SavedReloadable(p, r, i); }
      ClosedAtEnd(p, p.layers);
      WindowLast(p);
      if s.tag.group < p.groups - 1 { WindowIncreasing(p, s.tag.group, p.groups - 1); }
    }
  }

  lemma BackwardSlots(p: Plan, r: Journal)
    requires BackwardDue(p, r) && Returnable(p, r)
    ensures var g := DoneFor(p, r) - 1; var slots := SlotsFor(p, r, r.log);
      && 0 <= g < p.groups
      && if Window(p, g) == r.current - 1
         then AllReloadable(slots, g, CopiesFor(p, r, g)) &&
              ReloadGroup(slots, g, CopiesFor(p, r, g)) == SlotsFor(p, AfterBackward(r), r.log)
         else slots == SlotsFor(p, AfterBackward(r), r.log)
  {
    NextBack(p, r, 0);
    var g := DoneFor(p, r) - 1;
    var slots, copies := SlotsFor(p, r, r.log), CopiesFor(p, r, g);
    var due := Window(p, g) == r.current - 1;
    forall i | 0 <= i < |r.log|
      ensures var s := r.log[i]; var slot := Slot(s.tag, EntryFor(p, r, s));
        && (due ==> Reloadable(slot, g, copies))
        && Slot(s.tag, EntryFor(p, AfterBackward(r), s)) == if due then ReloadSlot(slot, g, copies) else slot
    {
      BackwardEntry(p, r, i);
      if r.log[i].tag.group < p.groups { NextBack(p, r, r.log[i].tag.group); }
    }
    if due {
      forall m | 0 <= m < |slots| ensures Reloadable(slots[m], g, copies) {
        var i := SlotSource(p, r, r.log, m);
      }
      SlotsReloaded(p, r, AfterBackward(r), r.log, g, copies);
    } else {
      SlotsAgree(p, r, AfterBackward(r), r.log);
    }
  }

  lemma BackwardCopies(p: Plan, r: Journal, x: nat)
    requires BackwardDue(p, r) && x < p.groups
    ensures var g := DoneFor(p, r) - 1;
      && 0 <= g < p.groups
      && HasCopies(p, AfterBackward(r), x)
           == (HasCopies(p, r, x) && !(x == g && Window(p, g) == r.current - 1))
      && (x == g && Window(p, g) == r.current - 1 ==> HasCopies(p, r, x))
  {
    AwayAtTurn(p, r, x);
    NextBack(p, r, x);
  }

  lemma BackwardBackups(p: Plan, r: Journal)
    requires BackwardDue(p, r)
    ensures var g := DoneFor(p, r) - 1;
      && 0 <= g < p.groups
      && (Window(p, g) == r.current - 1 ==> g in BackupsFor(p, r))
      && BackupsFor(p, AfterBackward(r))
           == if Window(p, g) == r.current - 1 then BackupsFor(p, r) - {g} else BackupsFor(p, r)
  {
    BackwardCopies(p, r, 0);
    var g := DoneFor(p, r) - 1;
    BackwardCopies(p, r, g);
    var old_, new_ := BackupsFor(p, r), BackupsFor(p, AfterBackward(r));
    forall x: nat
      ensures x in new_ <==> x in old_ && !(x == g && Window(p, g) == r.current - 1)
      ensures x in new_ ==> new_[x] == old_[x]
    {
      if x < p.groups { BackwardCopies(p, r, x); }
    }
  }

  /** A backward commit on any handler that holds the copies of the group it brings back, if any. */
  lemma ReloadStep(p: Plan, h: Handler, slots: seq<Slot>, backups: map<nat, map<Key, Tensor>>)
    requires p.Ok() && h.current > 0 && 1 <= h.done <= p.groups
    requires var g := h.done - 1;
      if Window(p, g) == h.current - 1
      then g in h.backups && AllReloadable(h.slots, g, h.backups[g]) &&
           slots == ReloadGroup(h.slots, g, h.backups[g]) && backups == h.backups - {g}
      else slots == h.slots && backups == h.backups
    ensures CommitBackward(p, WindowMap(p), h)
      == Some(Handler(h.current - 1, h.count, slots, h.buf,
           if h.current == 1 then 0
           else if Window(p, h.done - 1) == h.current - 1 && h.done > 1 then h.done - 1 else h.done,
           backups))
  {
  }

  lemma BackwardKeeps(p: Plan, r: Journal)
    requires BackwardDue(p, r) && Returnable(p, r)
    ensures CommitBackward(p, WindowMap(p), Expected(p, r)) == Some(Expected(p, AfterBackward(r)))
  {
    var h, k, g := Expected(p, r), Expected(p, AfterBackward(r)), DoneFor(p, r) - 1;
    NextBack(p, r, 0);
    assert if Window(p, g) == h.current - 1
      then g in h.backups && AllReloadable(h.slots, g, h.backups[g]) &&
           k.slots == ReloadGroup(h.slots, g, h.backups[g]) && k.backups == h.backups - {g}
      else k.slots == h.slots && k.backups == h.backups
    by {
      BackwardSlots(p, r);
      BackwardBackups(p, r);
    }
    ReloadStep(p, h, k.slots, k.backups);
    BackwardBuf(p, r);
    BackwardDone(p, r);
  }

  /** Of two tensors with one key and different sizes, one does not have the size of the copy. */
  lemma SizeMissed(log: seq<Saved>, g: nat) returns (i: nat)
    requires !SizesAgree(log, g)
    ensures i < |log| && log[i].tag.group == g && log[i].tensor.key in FirstOf(log, g)
    ensures |FirstOf(log, g)[log[i].tensor.key].elems| != |log[i].tensor.elems|
  {
    var a, b :| 0 <= a < |log| && 0 <= b < |log| && log[a].tag.group == g && SameKey(log[a], log[b])
                && |log[a].tensor.elems| != |log[b].tensor.elems|;
    FirstOfHasKey(log, a);
    i := if |FirstOf(log, g)[log[a].tensor.key].elems| != |log[a].tensor.elems| then a else b;
  }

  /** Nothing of a group that is due has been taken back, so its slot still waits for a copy of the right size. */
  lemma DueSlotStuck(p: Plan, r: Journal, g: nat)
    requires BackwardDue(p, r) && g < p.groups && Offloadable(p, g) && Window(p, g) == r.current - 1
    requires !SizesAgree(r.log, g)
    ensures !AllReloadable(SlotsFor(p, r, r.log), g, CopiesFor(p, r, g))
  {
    var i := SizeMissed(r.log, g);
    WindowAtLeast(p, g);
    AwayAtTurn(p, r, g);
    assert r.log[i].tag !in r.popped;
    var m := SlotTarget(p, r, r.log, i);
    assert !Reloadable(SlotsFor(p, r, r.log)[m], g, CopiesFor(p, r, g));
  }

  /** Otherwise the reshaping of a copy fails, and the commit with it. */
  lemma BackwardFails(p: Plan, r: Journal)
    requires BackwardDue(p, r) && !Returnable(p, r)
    ensures CommitBackward(p, WindowMap(p), Expected(p, r)) == None
  {
    var g :| 0 <= g < p.groups && Offloadable(p, g) && Window(p, g) == r.current - 1 && !SizesAgree(r.log, g);
    NextBack(p, r, g);
    DueSlotStuck(p, r, g);
  }

  // ---------- pops ----------

  /** A tensor may be taken back: it is saved, not yet taken, and it is its group's turn. */
  predicate PopDue(p: Plan, r: Journal, i: nat) {
    Coherent(p, r) && i < |r.log| && r.log[i].tag !in r.popped &&
    r.log[i].tag.group >= r.current && (r.backward || r.current == p.layers)
  }

  function AfterPop(r: Journal, tag: Tag): Journal {
    r.(popped := r.popped + {tag})
  }

  lemma {:induction false} RemoveFromAppend(a: seq<Slot>, b: seq<Slot>, tag: Tag)
    ensures HasTag(a, tag) ==> RemoveTag(a + b, tag) == RemoveTag(a, tag) + b
    ensures !HasTag(a, tag) ==> RemoveTag(a + b, tag) == a + RemoveTag(b, tag)
  {
    if a == [] {
      assert a + b == b;
    } else {
      assert (a + b)[1..] == a[1..] + b;
      assert HasTag(a, tag) <==> a[0].tag == tag || HasTag(a[1..], tag) by {
        if HasTag(a, tag) && a[0].tag != tag {
          var i :| 0 <= i < |a| && a[i].tag == tag;
          assert a[1..][i - 1].tag == tag;
        }
        if HasTag(a[1..], tag) {
          var i :| 0 <= i < |a[1..]| && a[1..][i].tag == tag;
          assert a[i + 1].tag == tag;
        }
      }
      RemoveFromAppend(a[1..], b, tag);
    }
  }

  lemma {:induction false} NotThere(a: seq<Slot>, tag: Tag)
    requires !HasTag(a, tag)
    ensures RemoveTag(a, tag) == a
  {
    RemoveFromAppend(a, [], tag);
    assert a + [] == a;
  }

  lemma {:induction false} SlotsWithout(p: Plan, r: Journal, items: seq<Saved>, tag: Tag)
    requires p.Ok() && UniqueTags(items) && tag !in r.popped
    ensures SlotsFor(p, AfterPop(r, tag), items) == RemoveTag(SlotsFor(p, r, items), tag)
  {
    if items != [] {
      var n := |items| - 1;
      var a := SlotsFor(p, r, items[..n]);
      var b := if items[n].tag in r.popped then [] else [Slot(items[n].tag, EntryFor(p, r, items[n]))];
      SlotsWithout(p, r, items[..n], tag);
      RemoveFromAppend(a, b, tag);
      if items[n].tag == tag && HasTag(a, tag) {
        var m :| 0 <= m < |a| && a[m].tag == tag;
        var i := SlotSource(p, r, items[..n], m);
      }
      if !HasTag(a, tag) { NotThere(a, tag); }
    }
  }

  /** The slot found for a saved tensor's tag is the tensor's own. */
  lemma LookupSaved(p: Plan, r: Journal, i: nat)
    requires Coherent(p, r) && i < |r.log| && r.log[i].tag !in r.popped
    ensures HasTag(SlotsFor(p, r, r.log), r.log[i].tag)
    ensures Lookup(SlotsFor(p, r, r.log), r.log[i].tag) == EntryFor(p, r, r.log[i])
  {
    var slots := SlotsFor(p, r, r.log);
    var m := SlotTarget(p, r, r.log, i);
    var e := Lookup(slots, r.log[i].tag);
    var n :| 0 <= n < |slots| && slots[n] == Slot(r.log[i].tag, e);
    var k := SlotSource(p, r, r.log, n);
    assert r.log[k].tag == r.log[i].tag;
  }

  lemma PopCoherent(p: Plan, r: Journal, i: nat)
    requires PopDue(p, r, i)
    ensures Coherent(p, AfterPop(r, r.log[i].tag))
  {
  }

  /** A pop in turn finds its tensor on the device and returns what was delivered for it. */
  lemma PopKeeps(p: Plan, r: Journal, i: nat)
    requires PopDue(p, r, i)
    ensures Pop(Expected(p, r), r.log[i].tag)
         == Some((Expected(p, AfterPop(r, r.log[i].tag)), Delivered(p, r.log, r.log[i])))
  {
    var tag := r.log[i].tag;
    LookupSaved(p, r, i);
    SlotsWithout(p, r, r.log, tag);
    BufWithout(p, r, r.log, tag);
    WindowAtLeast(p, tag.group);
    assert EntryFor(p, r, r.log[i]) == OnDevice(Delivered(p, r.log, r.log[i]));
    assert Expected(p, AfterPop(r, tag)).backups == Expected(p, r).backups;
  }

  // ---------- whole runs ----------

  /** What the handler answers to a legal event: nothing, or the tensor delivered for the popped tag. */
  ghost predicate Answers(p: Plan, j: Journal, e: Event, out: Option<Tensor>)
    requires p.Ok()
  {
    var r := Renew(j);
    if e.EPop? then
      exists i :: 0 <= i < |r.log| && r.log[i].tag == e.tag && out == Some(Delivered(p, r.log, r.log[i]))
    else out == None
  }

  lemma PushSafe(p: Plan, j: Journal, t: Tensor)
    requires Coherent(p, j) && Legal(p, j, EPush(t))
    ensures Perform(p, Expected(p, j), EPush(t)) == Some((Expected(p, Next(j, EPush(t))), None))
    ensures Coherent(p, Next(j, EPush(t)))
  {
    RenewSame(p, j);
    PushKeeps(p, Renew(j), t);
    PushCoherent(p, Renew(j), t);
  }

  lemma ForwardPerformed(p: Plan, r: Journal)
    requires Coherent(p, r) && !r.backward && r.current < p.layers
    ensures CommitForward(p, WindowMap(p), Expected(p, r)) == Some(Expected(p, AfterForward(r)))
    ensures Coherent(p, AfterForward(r))
  {
    if r.current == 0 { ForwardFirst(p, r); } else { ForwardLater(p, r); }
    ForwardCoherent(p, r);
  }

  lemma ForwardSafe(p: Plan, j: Journal)
    requires Coherent(p, j) && Legal(p, j, EForward)
    ensures Perform(p, Expected(p, j), EForward) == Some((Expected(p, Next(j, EForward)), None))
    ensures Coherent(p, Next(j, EForward))
  {
    RenewSame(p, j);
    ForwardPerformed(p, Renew(j));
  }

  /** A due backward commit succeeds exactly if the group it brings back, if any, has agreeing sizes. */
  lemma BackwardPerformed(p: Plan, r: Journal)
    requires BackwardDue(p, r)
    ensures CommitBackward(p, WindowMap(p), Expected(p, r))
      == if Returnable(p, r) then Some(Expected(p, AfterBackward(r))) else None
    ensures Coherent(p, AfterBackward(r))
  {
    if Returnable(p, r) { BackwardKeeps(p, r); } else { BackwardFails(p, r); }
    BackwardCoherent(p, r);
  }

  lemma BackwardSafe(p: Plan, j: Journal)
    requires Coherent(p, j) && Legal(p, j, EBackward)
    ensures Perform(p, Expected(p, j), EBackward)
      == if Returnable(p, Renew(j)) then Some((Expected(p, Next(j, EBackward)), None)) else None
    ensures Coherent(p, Next(j, EBackward))
  {
    RenewSame(p, j);
    BackwardPerformed(p, Renew(j));
  }

  /** A pop of some tag, on a journal that is not a finished cycle. */
  lemma PopPerformed(p: Plan, r: Journal, tag: Tag) returns (out: Tensor)
    requires Coherent(p, r) && (exists i :: 0 <= i < |r.log| && r.log[i].tag == tag)
    requires tag !in r.popped && tag.group >= r.current && (r.backward || r.current == p.layers)
    ensures Pop(Expected(p, r), tag) == Some((Expected(p, AfterPop(r, tag)), out)) && Coherent(p, AfterPop(r, tag))
    ensures exists i :: 0 <= i < |r.log| && r.log[i].tag == tag && out == Delivered(p, r.log, r.log[i])
  {
    var i :| 0 <= i < |r.log| && r.log[i].tag == tag;
    PopKeeps(p, r, i);
    PopCoherent(p, r, i);
    out := Delivered(p, r.log, r.log[i]);
  }

  lemma PopSafe(p: Plan, j: Journal, tag: Tag) returns (out: Tensor)
    requires Coherent(p, j) && Legal(p, j, EPop(tag))
    ensures Perform(p, Expected(p, j), EPop(tag)) == Some((Expected(p, Next(j, EPop(tag))), Some(out)))
    ensures Coherent(p, Next(j, EPop(tag))) && Answers(p, j, EPop(tag), Some(out))
  {
    RenewSame(p, j);
    out := PopPerformed(p, Renew(j), tag);
  }

  /** A backward commit needs the group it brings back to have agreeing sizes; other calls need nothing more. */
  predicate Feasible(p: Plan, j: Journal, e: Event)
    requires p.Ok()
  {
    e.EBackward? ==> Returnable(p, Renew(j))
  }

  /**
   One legal call: exactly if it is feasible, no assert fires, no lookup misses and no reshape is refused; the
   state is then again the predicted one.
   */
  lemma StepSafe(p: Plan, j: Journal, e: Event) returns (out: Option<Tensor>)
    requires Coherent(p, j) && Legal(p, j, e)
    ensures Perform(p, Expected(p, j), e) == if Feasible(p, j, e) then Some((Expected(p, Next(j, e)), out)) else None
    ensures Coherent(p, Next(j, e)) && Answers(p, j, e, out)
  {
    out := None;
    match e
    case EPush(t) => PushSafe(p, j, t);
    case EForward => ForwardSafe(p, j);
    case EBackward => BackwardSafe(p, j);
    case EPop(tag) =>
      var t := PopSafe(p, j, tag);
      out := Some(t);
  }

  predicate LegalRun(p: Plan, j: Journal, events: seq<Event>)
    decreases |events|
  {
    events == [] || (Legal(p, j, events[0]) && LegalRun(p, Next(j, events[0]), events[1..]))
  }

  /** Every call of the run is feasible where it comes. */
  predicate FeasibleRun(p: Plan, j: Journal, events: seq<Event>)
    requires p.Ok()
    decreases |events|
  {
    events == [] || (Feasible(p, j, events[0]) && FeasibleRun(p, Next(j, events[0]), events[1..]))
  }

  function JournalAfter(j: Journal, events: seq<Event>): Journal
    decreases |events|
  {
    if events == [] then j else JournalAfter(Next(j, events[0]), events[1..])
  }

  /** A run of the handler: the final state and the answers, or a failed assert or lookup on the way. */
  function PerformAll(p: Plan, h: Handler, events: seq<Event>): Option<(Handler, seq<Option<Tensor>>)>
    requires p.Ok()
    decreases |events|
  {
    if events == [] then Some((h, []))
    else
      var first := Perform(p, h, events[0]);
      if first.None? then None
      else
        var rest := PerformAll(p, first.value.0, events[1..]);
        if rest.None? then None else Some((rest.value.0, [first.value.1] + rest.value.1))
  }

  ghost predicate AnswersAll(p: Plan, j: Journal, events: seq<Event>, outs: seq<Option<Tensor>>)
    requires p.Ok()
    decreases |events|
  {
    |outs| == |events| &&
    (events == [] || (Answers(p, j, events[0], outs[0]) && AnswersAll(p, Next(j, events[0]), events[1..], outs[1..])))
  }

  /** A run from h goes through exactly if it is feasible, and then ends in `final` with the predicted answers. */
  ghost predicate GoesAsPredicted(p: Plan, j: Journal, events: seq<Event>, h: Handler, final: Handler)
    requires p.Ok()
  {
    var r := PerformAll(p, h, events);
    && (r.Some? <==> FeasibleRun(p, j, events))
    && (r.Some? ==> r.value.0 == final && AnswersAll(p, j, events, r.value.1))
  }

  lemma AnswersCons(p: Plan, j: Journal, events: seq<Event>, out: Option<Tensor>, outs: seq<Option<Tensor>>)
    requires p.Ok() && events != [] && Answers(p, j, events[0], out)
    requires AnswersAll(p, Next(j, events[0]), events[1..], outs)
    ensures AnswersAll(p, j, events, [out] + outs)
  {
    assert ([out] + outs)[1..] == outs;
  }

  lemma StepThenRun(p: Plan, j: Journal, events: seq<Event>, h: Handler, next: Handler, out: Option<Tensor>,
      final: Handler)
    requires p.Ok() && events != []
    requires Perform(p, h, events[0]) == if Feasible(p, j, events[0]) then Some((next, out)) else None
    requires Answers(p, j, events[0], out)
    requires GoesAsPredicted(p, Next(j, events[0]), events[1..], next, final)
    ensures GoesAsPredicted(p, j, events, h, final)
  {
    var rest := PerformAll(p, next, events[1..]);
    if Feasible(p, j, events[0]) && rest.Some? { AnswersCons(p, j, events, out, rest.value.1); }
  }

  /**
   Every legal run from a predicted state, however many cycles it spans: it goes through exactly if it is
   feasible, and then ends in the predicted state with every call answered as predicted.
   */
  lemma {:induction false} RunSafe(p: Plan, j: Journal, events: seq<Event>)
    requires Coherent(p, j) && LegalRun(p, j, events)
    ensures Coherent(p, JournalAfter(j, events))
    ensures GoesAsPredicted(p, j, events, Expected(p, j), Expected(p, JournalAfter(j, events)))
    decreases |events|
  {
    if events != [] {
      var next := Next(j, events[0]);
      var out := StepSafe(p, j, events[0]);
      RunSafe(p, next, events[1..]);
      StepThenRun(p, j, events, Expected(p, j), Expected(p, next), out, Expected(p, JournalAfter(j, events)));
    }
  }

  lemma StartExpected(p: Plan)
    requires p.Ok()
    ensures Coherent(p, START) && Expected(p, START) == INITIAL
  {
    forall g | 0 <= g < p.groups ensures !HasCopies(p, START, g) {
      if g > 0 { WindowAtLeast(p, g - 1); }
    }
  }

  /** So does every legal run of a handler that starts afresh. */
  lemma FreshRunSafe(p: Plan, events: seq<Event>)
    requires p.Ok() && LegalRun(p, START, events)
    ensures GoesAsPredicted(p, START, events, INITIAL, Expected(p, JournalAfter(START, events)))
  {
    StartExpected(p);
    RunSafe(p, START, events);
  }

  // ---------- when the delivered contents are the saved ones ----------

  predicate SameContents(a: Tensor, b: Tensor) {
    a.shape == b.shape && a.elems == b.elems
  }

  /** Tensors of an offloaded group that share a key also share their row-major contents. */
  predicate AliasesAgree(p: Plan, log: seq<Saved>)
    requires p.Ok()
  {
    forall i, k :: 0 <= i < |log| && 0 <= k < |log| && SameKey(log[i], log[k]) && Offloadable(p, log[i].tag.group)
                   ==> log[i].tensor.elems == log[k].tensor.elems
  }

  lemma DeliveredElems(p: Plan, log: seq<Saved>, i: nat) returns (k: nat)
    requires p.Ok() && i < |log| && Offloadable(p, log[i].tag.group)
    ensures k <= i && SameKey(log[k], log[i]) && Delivered(p, log, log[i]).elems == log[k].tensor.elems
    ensures forall m :: 0 <= m < k ==> !SameKey(log[m], log[i])
    ensures Delivered(p, log, log[i]).shape == log[i].tensor.shape
  {
    FirstOfHasKey(log, i);
    k := FirstOfSource(log, log[i].tag.group, log[i].tensor.key);
  }

  lemma FirstShared(p: Plan, log: seq<Saved>, i: nat, m: nat)
    requires p.Ok() && i < |log| && m < |log| && SameKey(log[i], log[m])
    ensures Offloadable(p, log[i].tag.group) ==> Delivered(p, log, log[i]).elems == Delivered(p, log, log[m]).elems
  {
    FirstOfHasKey(log, i);
    FirstOfHasKey(log, m);
  }

  /** Every saved tensor comes back with its own contents exactly when aliases agree. */
  lemma DeliveredFaithfulIff(p: Plan, log: seq<Saved>)
    requires p.Ok()
    ensures AliasesAgree(p, log) <==>
      forall i :: 0 <= i < |log| ==> SameContents(Delivered(p, log, log[i]), log[i].tensor)
  {
    if AliasesAgree(p, log) {
      forall i | 0 <= i < |log| ensures SameContents(Delivered(p, log, log[i]), log[i].tensor) {
        if Offloadable(p, log[i].tag.group) {
          var k := DeliveredElems(p, log, i);
        }
      }
    }
    if forall i :: 0 <= i < |log| ==> SameContents(Delivered(p, log, log[i]), log[i].tensor) {
      forall i, k | 0 <= i < |log| && 0 <= k < |log| && SameKey(log[i], log[k]) && Offloadable(p, log[i].tag.group)
        ensures log[i].tensor.elems == log[k].tensor.elems
      {
        FirstShared(p, log, i, k);
        assert SameContents(Delivered(p, log, log[i]), log[i].tensor);
        assert SameContents(Delivered(p, log, log[k]), log[k].tensor);
      }
    }
  }

  lemma {:induction false} ExtendRun(p: Plan, j: Journal, events: seq<Event>, e: Event)
    requires LegalRun(p, j, events) && Legal(p, JournalAfter(j, events), e)
    ensures LegalRun(p, j, events + [e])
    ensures JournalAfter(j, events + [e]) == Next(JournalAfter(j, events), e)
    decreases |events|
  {
    if events != [] {
      assert (events + [e])[1..] == events[1..] + [e];
      ExtendRun(p, Next(j, events[0]), events[1..], e);
    }
  }

  // ---------- what the handler is for: releasing device memory ----------

  lemma {:induction false} BufAllReleased(p: Plan, j: Journal, items: seq<Saved>)
    requires p.Ok() && j.current == p.layers
    ensures forall t :: t in BufFor(p, j, items) ==> BufFor(p, j, items)[t] == None
  {
    if items != [] {
      var n := |items| - 1;
      BufAllReleased(p, j, items[..n]);
      if items[n].tag.group < p.groups {
        ClosedAtEnd(p, p.layers);
        ClosedIff(p, p.layers, items[n].tag.group);
      }
    }
  }

  /**
   After the forward half, with fewer groups than layers, no saved tensor of an offloaded group is on the
   device any more: neither as a slot nor in the side buffer.
   */
  lemma ForwardHalfReleases(p: Plan, j: Journal, m: nat)
    requires Coherent(p, j) && !j.backward && j.current == p.layers && p.groups < p.layers
    requires m < |Expected(p, j).slots| && Expected(p, j).slots[m].tag.group < p.groups
    ensures Expected(p, j).slots[m].entry.Moved?
    ensures forall t :: t in Expected(p, j).buf ==> Expected(p, j).buf[t] == None
  {
    var i := SlotSource(p, j, j.log, m);
    var g := j.log[i].tag.group;
    OffloadableIff(p, g);
    CopyBeforeClose(p, g);
    ClosedAtEnd(p, p.layers);
    ClosedIff(p, p.layers, g);
    BufAllReleased(p, j, j.log);
  }

  // ---------- keys ----------

  /** A view into a storage of `bytes` bytes starting at `base`. */
  datatype Storage = Storage(base: int, bytes: nat)

  /** `data_ptr() + storage_offset()`: the offset counts elements, not bytes. */
  function KeyOf(s: Storage, offset: nat, dtype: nat): Key {
    Key(s.base + offset, dtype)
  }

  /**
   Views whose storages are equal or do not overlap share a key exactly when they start at the same
   element of the same storage with the same element type.
   */
  lemma KeyIdentifiesStart(s: Storage, t: Storage, i: nat, j: nat, d: nat, e: nat, sizeI: nat, sizeJ: nat)
    requires sizeI >= 1 && sizeJ >= 1 && i * sizeI < s.bytes && j * sizeJ < t.bytes
    requires s == t || s.base + s.bytes <= t.base || t.base + t.bytes <= s.base
    ensures KeyOf(s, i, d) == KeyOf(t, j, e) <==> s == t && i == j && d == e
  {
    MulMonotonic(i, 1, sizeI);
    MulMonotonic(j, 1, sizeJ);
  }
}
