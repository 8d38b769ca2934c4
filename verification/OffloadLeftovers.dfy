/**
 Cycles of the offload handler that begin with tensors left over, because an earlier cycle saved them and never took
 them back. What the slots hold is arbitrary here; the invariants only say which of them are off the device.
 */
module OffloadLeftovers {
  import opened Sequences
  import opened OffloadWindow
  import opened OffloadHandler
  import opened OffloadRuns
  import opened OffloadSafety
  import opened OffloadRecovery
  import opened Wrappers

  // ---------- the two halves ----------

  function TagsOf(slots: seq<Slot>): set<Tag> {
    set m | 0 <= m < |slots| :: slots[m].tag
  }

  predicate UniqueSlots(slots: seq<Slot>) {
    forall m, n :: 0 <= m < n < |slots| ==> slots[m].tag != slots[n].tag
  }

  /** A slot that is off the device finds its copy. */
  predicate Backed(s: Slot, backups: map<nat, map<Key, Tensor>>) {
    s.entry.Moved? ==> s.tag.group in backups && s.entry.key in backups[s.tag.group]
  }

  predicate AllBacked(h: Handler) {
    UniqueSlots(h.slots) && forall m :: 0 <= m < |h.slots| ==> Backed(h.slots[m], h.backups)
  }

  /** The forward half, with any leftovers among the slots. */
  ghost predicate Saving(p: Plan, h: Handler) {
    && p.Ok() && h.current <= p.layers && h.done == Closed(p, h.current) && AllBacked(h)
    && forall g: nat :: g in h.backups <==> g < p.groups && CopyTime(p, g) < h.current
  }

  /** The backward half. */
  ghost predicate Returning(p: Plan, h: Handler) {
    && p.Ok() && h.current <= p.layers && AllBacked(h)
    && h.done == (if h.current == 0 then 0 else Max(1, Closed(p, h.current)))
    && forall g: nat :: g in h.backups <==> g < p.groups && Window(p, g) < h.current
  }

  /** The halves meet at both ends, so what one cycle leaves over is where the next one may begin. */
  lemma HalvesMeet(p: Plan, h: Handler)
    ensures Saving(p, h) && h.current == p.layers ==> Returning(p, h)
    ensures Returning(p, h) && h.current == 0 ==> Saving(p, h)
    ensures Saving(p, h) && h.current == 0 ==> h.backups == map[]
    ensures p.Ok() ==> Saving(p, INITIAL)
  {
    if p.Ok() {
      forall g: nat | g < p.groups
        ensures 0 <= CopyTime(p, g) <= Window(p, g) < p.layers
      {
        if g > 0 { WindowAtLeast(p, g - 1); }
        CopyBeforeClose(p, g);
        ClosedAtEnd(p, p.layers);
        ClosedIff(p, p.layers, g);
      }
      ClosedAtEnd(p, p.layers);
    }
  }

  // ---------- pushes ----------

  lemma PushSurvivesIff(p: Plan, h: Handler, t: Tensor)
    requires Saving(p, h)
    ensures Push(p, h, t).Some? <==> Tag(h.current, h.count) !in TagsOf(h.slots)
    ensures Push(p, h, t).Some? ==>
      var k := Push(p, h, t).value;
      Saving(p, k) && k.current == h.current && k.count == h.count + 1 &&
      TagsOf(k.slots) == TagsOf(h.slots) + {Tag(h.current, h.count)}
  {
    var tag := Tag(h.current, h.count);
    if Push(p, h, t).Some? {
      var k := Push(p, h, t).value;
      assert k.slots[|h.slots|].tag == tag;
      forall x | x in TagsOf(h.slots) ensures x in TagsOf(k.slots) {
        var m :| 0 <= m < |h.slots| && h.slots[m].tag == x;
        assert k.slots[m].tag == x;
      }
    }
  }

  // ---------- forward commits ----------

  lemma {:induction false} CopiesHaveKeys(slots: seq<Slot>, g: nat, m: nat)
    requires AllOnDevice(slots, g) && m < |slots| && slots[m].tag.group == g
    ensures slots[m].entry.tensor.key in CopiesOf(slots, g)
  {
    if m < |slots| - 1 { CopiesHaveKeys(slots[..|slots| - 1], g, m); }
  }

  lemma MovedTags(slots: seq<Slot>, g: nat)
    ensures TagsOf(MoveGroup(slots, g)) == TagsOf(slots)
  {
    var r := MoveGroup(slots, g);
    forall m | 0 <= m < |slots| ensures r[m].tag == slots[m].tag {
    }
  }

  /** Copying a group of which nothing has been copied yet. */
  lemma OffloadKeeps(h: Handler, g: nat)
    requires AllBacked(h) && g !in h.backups
    ensures BulkOffload(h, g).Some?
    ensures var k := BulkOffload(h, g).value;
      AllBacked(k) && TagsOf(k.slots) == TagsOf(h.slots) && k.backups.Keys == h.backups.Keys + {g} &&
      k == h.(slots := k.slots, backups := k.backups)
  {
    assert AllOnDevice(h.slots, g);
    var k := BulkOffload(h, g).value;
    MovedTags(h.slots, g);
    forall m | 0 <= m < |k.slots| ensures k.slots[m].tag == h.slots[m].tag && Backed(k.slots[m], k.backups) {
      if h.slots[m].tag.group == g { CopiesHaveKeys(h.slots, g, m); }
    }
  }

  /** The part of a forward commit that follows the copying of group 0. */
  function AtWindow(p: Plan, a: Handler): Option<Handler>
    requires p.Ok() && a.done in WindowMap(p)
  {
    if Window(p, a.done) != a.current then Some(a)
    else
      var b := a.(buf := Release(a.buf, a.done));
      var c := if a.done < p.groups - 1 then BulkOffload(b, a.done + 1) else Some(b);
      if c.None? then None else Some(c.value.(done := a.done + 1))
  }

  lemma CommitForwardIs(p: Plan, h: Handler, a: Handler)
    requires p.Ok() && a.done in WindowMap(p) && (if h.current == 0 then BulkOffload(h, 0) == Some(a) else h == a)
    ensures CommitForward(p, WindowMap(p), h)
      == if AtWindow(p, a).None? then None
         else Some(AtWindow(p, a).value.(current := h.current + 1, count := 0))
  {
  }

  lemma WindowKeeps(p: Plan, a: Handler)
    requires p.Ok() && a.current < p.layers && a.done == Closed(p, a.current) && AllBacked(a)
    requires a.done + 1 !in a.backups
    ensures a.done in WindowMap(p) && AtWindow(p, a).Some?
    ensures var b := AtWindow(p, a).value;
      AllBacked(b) && TagsOf(b.slots) == TagsOf(a.slots) && b.done == Closed(p, a.current + 1) &&
      b.backups.Keys == a.backups.Keys +
        if Window(p, a.done) == a.current && a.done + 1 < p.groups then {a.done + 1} else {}
  {
    ClosedAtEnd(p, a.current);
    if Window(p, a.done) == a.current && a.done < p.groups - 1 {
      OffloadKeeps(a.(buf := Release(a.buf, a.done)), a.done + 1);
    }
  }

  /** Whose copies are held after one more commit. */
  lemma CopiedNext(p: Plan, c: nat, g: nat)
    requires p.Ok() && g < p.groups
    ensures CopyTime(p, g) < c + 1 <==>
      CopyTime(p, g) < c || (g == 0 && c == 0) || (g == Closed(p, c) + 1 && Window(p, Closed(p, c)) == c)
  {
    CopyTimeIs(p, c, g);
  }

  lemma NotCopiedYet(p: Plan, c: nat)
    requires p.Ok() && c < p.layers
    ensures Closed(p, c) < p.groups
    ensures Closed(p, c) + 1 < p.groups ==> CopyTime(p, Closed(p, c) + 1) >= c
    ensures c == 0 ==> Closed(p, 0) == 0 && CopyTime(p, 0) == 0
  {
    ClosedAtEnd(p, c);
    ClosedBrackets(p, c);
  }

  lemma KeysNext(p: Plan, h: Handler, backups: map<nat, map<Key, Tensor>>)
    requires Saving(p, h) && h.current < p.layers
    requires backups.Keys == h.backups.Keys + (if h.current == 0 then {0} else {}) +
      if Window(p, h.done) == h.current && h.done + 1 < p.groups then {h.done + 1} else {}
    ensures forall g: nat :: g in backups <==> g < p.groups && CopyTime(p, g) < h.current + 1
  {
    forall g: nat ensures g in backups <==> g < p.groups && CopyTime(p, g) < h.current + 1 {
      assert g in backups <==> g in backups.Keys;
      if g < p.groups { CopiedNext(p, h.current, g); }
    }
  }

  /** Leftovers never stop a forward commit. */
  lemma ForwardSurvives(p: Plan, h: Handler)
    requires Saving(p, h) && h.current < p.layers
    ensures CommitForward(p, WindowMap(p), h).Some?
    ensures var k := CommitForward(p, WindowMap(p), h).value;
      Saving(p, k) && k.current == h.current + 1 && k.count == 0 && TagsOf(k.slots) == TagsOf(h.slots)
  {
    NotCopiedYet(p, h.current);
    if h.current == 0 { OffloadKeeps(h, 0); }
    var a := if h.current == 0 then BulkOffload(h, 0).value else h;
    WindowKeeps(p, a);
    CommitForwardIs(p, h, a);
    KeysNext(p, h, AtWindow(p, a).value.backups);
  }

  // ---------- the forward half ----------

  /** How many forward commits a run makes. */
  function Forwards(events: seq<Event>): nat {
    if events == [] then 0 else (if events[0].EForward? then 1 else 0) + Forwards(events[1..])
  }

  /** The tags that the pushes of a forward half are given, from tag (c, k) on. */
  function GivenTags(c: nat, k: nat, events: seq<Event>): set<Tag>
    decreases |events|
  {
    if events == [] then {}
    else
      match events[0]
      case EPush(_) => {Tag(c, k)} + GivenTags(c, k + 1, events[1..])
      case EForward => GivenTags(c + 1, 0, events[1..])
      case _ => GivenTags(c, k, events[1..])
  }

  lemma {:induction false} GivenLater(c: nat, k: nat, events: seq<Event>)
    ensures forall t :: t in GivenTags(c, k, events) ==> t.group > c || (t.group == c && t.index >= k)
    decreases |events|
  {
    if events != [] {
      match events[0]
      case EPush(_) => GivenLater(c, k + 1, events[1..]);
      case EForward => GivenLater(c + 1, 0, events[1..]);
      case _ => GivenLater(c, k, events[1..]);
    }
  }

  /** A forward half survives its leftovers exactly if none of its pushes is given the tag of one. */
  lemma {:induction false} SavingSurvivesIff(p: Plan, h: Handler, events: seq<Event>)
    requires Saving(p, h) && SavesOnly(events) && h.current + Forwards(events) <= p.layers
    ensures PerformAll(p, h, events).Some? <==> GivenTags(h.current, h.count, events) !! TagsOf(h.slots)
    ensures PerformAll(p, h, events).Some? ==>
      var k := PerformAll(p, h, events).value.0;
      Saving(p, k) && k.current == h.current + Forwards(events) &&
      TagsOf(k.slots) == TagsOf(h.slots) + GivenTags(h.current, h.count, events)
    decreases |events|
  {
    if events != [] {
      assert forall i :: 0 <= i < |events| - 1 ==> events[1..][i] == events[i + 1];
      match events[0]
      case EPush(t) =>
        PushSurvivesIff(p, h, t);
        GivenLater(h.current, h.count + 1, events[1..]);
        if Push(p, h, t).Some? { SavingSurvivesIff(p, Push(p, h, t).value, events[1..]); }
      case EForward =>
        ForwardSurvives(p, h);
        SavingSurvivesIff(p, CommitForward(p, WindowMap(p), h).value, events[1..]);
    }
  }

  // ---------- backward commits and pops ----------

  /** The slot can be given its contents back. */
  predicate Fits(s: Slot, backups: map<nat, map<Key, Tensor>>) {
    s.entry.Moved? ==>
      s.tag.group in backups && s.entry.key in backups[s.tag.group] &&
      View(backups[s.tag.group][s.entry.key], s.entry.shape).Some?
  }

  /** Every tensor of group g that is off the device, left over or not, has the size of its copy. */
  predicate GroupFits(h: Handler, g: nat) {
    forall m :: 0 <= m < |h.slots| && h.slots[m].tag.group == g ==> Fits(h.slots[m], h.backups)
  }

  /** The group that the commit back from c brings back. */
  lemma DueGroup(p: Plan, c: nat, g: nat)
    requires p.Ok() && 0 < c <= p.layers && g < p.groups
    ensures var d := Max(1, Closed(p, c));
      d <= p.groups && (Window(p, g) == c - 1 <==> g == d - 1 && Window(p, d - 1) == c - 1)
  {
    ClosedIff(p, c, g);
    ClosedIff(p, c - 1, g);
    ClosedBrackets(p, c);
    var n := Closed(p, c);
    if n > 0 && g + 1 < n { WindowIncreasing(p, g, n - 1); }
  }

  lemma ReloadKeeps(p: Plan, h: Handler, g: nat)
    requires AllBacked(h) && g in h.backups && g < p.groups
    ensures BulkReload(p, h, g).Some? <==> GroupFits(h, g)
    ensures GroupFits(h, g) ==>
      var k := BulkReload(p, h, g).value;
      AllBacked(k) && TagsOf(k.slots) == TagsOf(h.slots) && k.backups == h.backups - {g} &&
      k == h.(slots := k.slots, backups := k.backups) &&
      (forall x: nat :: x != g ==> (GroupFits(k, x) <==> GroupFits(h, x)))
  {
    assert GroupFits(h, g) <==> AllReloadable(h.slots, g, h.backups[g]);
    if GroupFits(h, g) {
      var k := BulkReload(p, h, g).value;
      assert forall m :: 0 <= m < |k.slots| ==>
        k.slots[m].tag == h.slots[m].tag &&
        if h.slots[m].tag.group == g then k.slots[m].entry.OnDevice? else k.slots[m] == h.slots[m];
    }
  }

  /** The handler after a commit back, once the due group has been reloaded. */
  function Counted(b: Handler, reloaded: bool): Handler {
    b.(done := if b.current == 0 then 0 else if reloaded && b.done > 1 then b.done - 1 else b.done)
  }

  lemma CommitBackwardIs(p: Plan, h: Handler)
    requires p.Ok() && h.current > 0 && 0 < h.done <= p.groups
    ensures var g, a := h.done - 1, h.(current := h.current - 1);
      CommitBackward(p, WindowMap(p), h)
        == if Window(p, g) != a.current then Some(Counted(a, false))
           else if BulkReload(p, a, g).None? then None
           else Some(Counted(BulkReload(p, a, g).value, true))
  {
  }

  /** Where the counter stands after a commit back from c, and whose copies are left. */
  lemma CountedBack(p: Plan, h: Handler)
    requires Returning(p, h) && h.current > 0
    ensures 0 < h.done <= p.groups
    ensures var g, c := h.done - 1, h.current - 1;
      (if c == 0 then 0 else if Window(p, g) == c && h.done > 1 then h.done - 1 else h.done)
        == if c == 0 then 0 else Max(1, Closed(p, c))
    ensures forall x: nat :: x < p.groups ==>
      (Window(p, x) == h.current - 1 <==> x == h.done - 1 && Window(p, h.done - 1) == h.current - 1)
  {
    forall x: nat | x < p.groups
      ensures Window(p, x) == h.current - 1 <==> x == h.done - 1 && Window(p, h.done - 1) == h.current - 1
    {
      DueGroup(p, h.current, x);
    }
    DueGroup(p, h.current, 0);
    if h.current > 1 { DoneStep(p, h.current); }
  }

  ghost predicate DueFit(p: Plan, h: Handler)
    requires p.Ok()
  {
    forall g: nat :: g < p.groups && Window(p, g) == h.current - 1 ==> GroupFits(h, g)
  }

  lemma QuietBack(p: Plan, h: Handler)
    requires Returning(p, h) && h.current > 0 && 0 < h.done <= p.groups && Window(p, h.done - 1) != h.current - 1
    ensures var k := Counted(h.(current := h.current - 1), false);
      Returning(p, k) && k.slots == h.slots && k.backups == h.backups
  {
    CountedBack(p, h);
  }

  lemma DueBack(p: Plan, h: Handler)
    requires Returning(p, h) && h.current > 0 && 0 < h.done <= p.groups && Window(p, h.done - 1) == h.current - 1
    ensures var a := h.(current := h.current - 1);
      && (BulkReload(p, a, h.done - 1).Some? <==> GroupFits(h, h.done - 1))
      && (BulkReload(p, a, h.done - 1).Some? ==>
           var k := Counted(BulkReload(p, a, h.done - 1).value, true);
           Returning(p, k) && k.current == h.current - 1 && TagsOf(k.slots) == TagsOf(h.slots) &&
           forall x: nat :: x != h.done - 1 ==> (GroupFits(k, x) <==> GroupFits(h, x)))
  {
    var a := h.(current := h.current - 1);
    CountedBack(p, h);
    ReloadKeeps(p, a, h.done - 1);
    assert forall x: nat :: GroupFits(a, x) <==> GroupFits(h, x);
    if GroupFits(h, h.done - 1) {
      var b := BulkReload(p, a, h.done - 1).value;
      var k := Counted(b, true);
      assert forall x: nat :: GroupFits(k, x) <==> GroupFits(b, x);
    }
  }

  /** A commit back needs the group it reloads to fit, and nothing else. */
  lemma BackwardSurvivesIff(p: Plan, h: Handler)
    requires Returning(p, h) && h.current > 0
    ensures CommitBackward(p, WindowMap(p), h).Some? <==> DueFit(p, h)
    ensures CommitBackward(p, WindowMap(p), h).Some? ==>
      var k := CommitBackward(p, WindowMap(p), h).value;
      Returning(p, k) && k.current == h.current - 1 && TagsOf(k.slots) == TagsOf(h.slots) &&
      forall g: nat :: g < p.groups && Window(p, g) != h.current - 1 ==> (GroupFits(k, g) <==> GroupFits(h, g))
  {
    CountedBack(p, h);
    CommitBackwardIs(p, h);
    if Window(p, h.done - 1) == h.current - 1 {
      DueBack(p, h);
      assert DueFit(p, h) <==> GroupFits(h, h.done - 1);
    } else {
      QuietBack(p, h);
    }
  }

  lemma {:induction false} WithoutTag(slots: seq<Slot>, tag: Tag)
    requires UniqueSlots(slots)
    ensures var r := RemoveTag(slots, tag);
      UniqueSlots(r) && forall s :: s in r <==> s in slots && s.tag != tag
  {
    if slots != [] {
      WithoutTag(slots[1..], tag);
      assert forall s :: s in slots <==> s == slots[0] || s in slots[1..];
    }
  }

  lemma PopFits(h: Handler, k: Handler, tag: Tag, g: nat)
    requires h.backups == k.backups && forall s :: s in k.slots <==> s in h.slots && s.tag != tag
    requires forall s :: s in h.slots && s.tag == tag ==> s.entry.OnDevice?
    ensures GroupFits(k, g) <==> GroupFits(h, g)
  {
    if GroupFits(k, g) {
      forall m | 0 <= m < |h.slots| && h.slots[m].tag.group == g ensures Fits(h.slots[m], h.backups) {
        assert h.slots[m] in h.slots;
        if h.slots[m].tag != tag {
          var n :| 0 <= n < |k.slots| && k.slots[n] == h.slots[m];
        }
      }
    }
    if GroupFits(h, g) {
      forall m | 0 <= m < |k.slots| && k.slots[m].tag.group == g ensures Fits(k.slots[m], k.backups) {
        assert k.slots[m] in k.slots;
        var n :| 0 <= n < |h.slots| && h.slots[n] == k.slots[m];
      }
    }
  }

  /** Whatever is held of a group that the commits have come back to is on the device. */
  lemma HeldOnDevice(p: Plan, h: Handler, tag: Tag)
    requires Returning(p, h) && tag.group >= h.current
    ensures forall s :: s in h.slots && s.tag == tag ==> s.entry.OnDevice?
    ensures tag in TagsOf(h.slots) ==> HasTag(h.slots, tag) && Lookup(h.slots, tag).OnDevice?
  {
    if tag.group < p.groups { WindowAtLeast(p, tag.group); }
    forall s | s in h.slots && s.tag == tag ensures s.entry.OnDevice? {
      var i :| 0 <= i < |h.slots| && h.slots[i] == s;
      assert Backed(h.slots[i], h.backups);
    }
    if tag in TagsOf(h.slots) {
      assert HasTag(h.slots, tag);
      assert Slot(tag, Lookup(h.slots, tag)) in h.slots;
    }
  }

  lemma FewerSlots(h: Handler, k: Handler, tag: Tag)
    requires AllBacked(h) && h.backups == k.backups && UniqueSlots(k.slots)
    requires forall s :: s in k.slots <==> s in h.slots && s.tag != tag
    ensures AllBacked(k) && TagsOf(k.slots) == TagsOf(h.slots) - {tag}
  {
    forall m | 0 <= m < |k.slots| ensures Backed(k.slots[m], k.backups) && k.slots[m].tag in TagsOf(h.slots) - {tag} {
      assert k.slots[m] in k.slots;
      var n :| 0 <= n < |h.slots| && h.slots[n] == k.slots[m];
    }
    forall t | t in TagsOf(h.slots) - {tag} ensures t in TagsOf(k.slots) {
      var n :| 0 <= n < |h.slots| && h.slots[n].tag == t;
      assert h.slots[n] in h.slots;
    }
  }

  /** A tensor of a group that the commits have come back to can be taken back. */
  lemma PopSurvives(p: Plan, h: Handler, tag: Tag)
    requires Returning(p, h) && tag in TagsOf(h.slots) && tag.group >= h.current
    ensures Pop(h, tag).Some?
    ensures var k := Pop(h, tag).value.0;
      Returning(p, k) && k.current == h.current && TagsOf(k.slots) == TagsOf(h.slots) - {tag} &&
      forall g: nat :: GroupFits(k, g) <==> GroupFits(h, g)
  {
    HeldOnDevice(p, h, tag);
    WithoutTag(h.slots, tag);
    var k := Pop(h, tag).value.0;
    FewerSlots(h, k, tag);
    forall g: nat ensures GroupFits(k, g) <==> GroupFits(h, g) {
      PopFits(h, k, tag, g);
    }
  }

  // ---------- the backward half ----------

  /** How many commits back a run makes. */
  function Backwards(events: seq<Event>): nat {
    if events == [] then 0 else (if events[0].EBackward? then 1 else 0) + Backwards(events[1..])
  }

  /**
   A backward half from commit c with these tags held: at most c commits, and pops of held tags of groups that the
   commits have come back to. What is never popped is left over.
   */
  predicate ReturnsInTurn(c: nat, held: set<Tag>, events: seq<Event>)
    decreases |events|
  {
    events == [] ||
    match events[0]
    case EPop(t) => t in held && t.group >= c && ReturnsInTurn(c, held - {t}, events[1..])
    case EBackward => c > 0 && ReturnsInTurn(c - 1, held, events[1..])
    case _ => false
  }

  lemma {:induction false} BackwardsWithin(c: nat, held: set<Tag>, events: seq<Event>)
    requires ReturnsInTurn(c, held, events)
    ensures Backwards(events) <= c
    decreases |events|
  {
    if events != [] {
      match events[0]
      case EPop(t) => BackwardsWithin(c, held - {t}, events[1..]);
      case EBackward => BackwardsWithin(c - 1, held, events[1..]);
    }
  }

  /** The groups whose windows close in a stretch of commits all fit. */
  ghost predicate FitWithin(p: Plan, h: Handler, from: int, to: int)
    requires p.Ok()
  {
    forall g: nat :: g < p.groups && from <= Window(p, g) < to ==> GroupFits(h, g)
  }

  lemma OneMoreFits(p: Plan, h: Handler, k: Handler, from: int)
    requires p.Ok() && from < h.current
    requires forall g: nat :: g < p.groups && Window(p, g) != h.current - 1 ==> (GroupFits(k, g) <==> GroupFits(h, g))
    ensures FitWithin(p, h, from, h.current) <==> DueFit(p, h) && FitWithin(p, k, from, h.current - 1)
  {
  }

  lemma FitAlike(p: Plan, h: Handler, k: Handler, from: int, to: int)
    requires p.Ok() && forall g: nat :: GroupFits(k, g) <==> GroupFits(h, g)
    ensures FitWithin(p, k, from, to) <==> FitWithin(p, h, from, to)
  {
  }

  lemma FirstPop(p: Plan, h: Handler, events: seq<Event>)
    requires p.Ok() && events != [] && events[0].EPop? && Pop(h, events[0].tag).Some?
    ensures var rest := PerformAll(p, Pop(h, events[0].tag).value.0, events[1..]);
      (PerformAll(p, h, events).Some? <==> rest.Some?) &&
      (rest.Some? ==> PerformAll(p, h, events).value.0 == rest.value.0)
  {
  }

  lemma FirstBackward(p: Plan, h: Handler, events: seq<Event>)
    requires p.Ok() && events != [] && events[0].EBackward?
    ensures var first := CommitBackward(p, WindowMap(p), h);
      if first.None? then PerformAll(p, h, events).None?
      else
        var rest := PerformAll(p, first.value, events[1..]);
        (PerformAll(p, h, events).Some? <==> rest.Some?) &&
        (rest.Some? ==> PerformAll(p, h, events).value.0 == rest.value.0)
  {
  }

  /** A backward half from h goes through exactly if the groups that it brings back fit, leftovers included. */
  ghost predicate GoesBack(p: Plan, h: Handler, events: seq<Event>)
    requires p.Ok()
  {
    var r := PerformAll(p, h, events);
    && (r.Some? <==> FitWithin(p, h, h.current - Backwards(events), h.current))
    && (r.Some? ==> Returning(p, r.value.0) && r.value.0.current == h.current - Backwards(events))
  }

  lemma PopThenRest(p: Plan, h: Handler, events: seq<Event>, k: Handler)
    requires p.Ok() && events != [] && events[0].EPop? && Pop(h, events[0].tag).Some?
    requires k == Pop(h, events[0].tag).value.0 && k.current == h.current && GoesBack(p, k, events[1..])
    requires forall g: nat :: GroupFits(k, g) <==> GroupFits(h, g)
    ensures GoesBack(p, h, events)
  {
    FirstPop(p, h, events);
    FitAlike(p, h, k, h.current - Backwards(events), h.current);
  }

  lemma CommitThenRest(p: Plan, h: Handler, events: seq<Event>)
    requires Returning(p, h) && events != [] && events[0].EBackward? && Backwards(events) <= h.current
    requires var first := CommitBackward(p, WindowMap(p), h);
      first.Some? ==> GoesBack(p, first.value, events[1..])
    ensures GoesBack(p, h, events)
  {
    BackwardSurvivesIff(p, h);
    FirstBackward(p, h, events);
    var first, from := CommitBackward(p, WindowMap(p), h), h.current - Backwards(events);
    OneMoreFits(p, h, if first.Some? then first.value else h, from);
  }

  lemma {:induction false} ReturningSurvivesIff(p: Plan, h: Handler, events: seq<Event>)
    requires Returning(p, h) && ReturnsInTurn(h.current, TagsOf(h.slots), events)
    ensures GoesBack(p, h, events)
    decreases |events|
  {
    if events == [] {
    } else if events[0].EPop? {
      PopSurvives(p, h, events[0].tag);
      var k := Pop(h, events[0].tag).value.0;
      ReturningSurvivesIff(p, k, events[1..]);
      PopThenRest(p, h, events, k);
    } else {
      BackwardsWithin(h.current, TagsOf(h.slots), events);
      BackwardSurvivesIff(p, h);
      var first := CommitBackward(p, WindowMap(p), h);
      if first.Some? { ReturningSurvivesIff(p, first.value, events[1..]); }
      CommitThenRest(p, h, events);
    }
  }

  // ---------- whole cycles ----------

  lemma {:induction false} PerformJoin(p: Plan, h: Handler, a: seq<Event>, b: seq<Event>)
    requires p.Ok()
    ensures PerformAll(p, h, a + b).Some? <==>
      PerformAll(p, h, a).Some? && PerformAll(p, PerformAll(p, h, a).value.0, b).Some?
    ensures PerformAll(p, h, a + b).Some? ==>
      PerformAll(p, h, a + b).value.0 == PerformAll(p, PerformAll(p, h, a).value.0, b).value.0
    decreases |a|
  {
    if a == [] {
      assert a + b == b;
    } else {
      assert (a + b)[0] == a[0] && (a + b)[1..] == a[1..] + b;
      var first := Perform(p, h, a[0]);
      if first.Some? { PerformJoin(p, first.value.0, a[1..], b); }
    }
  }

  /**
   A cycle that begins with anything left over survives exactly if no push is given the tag of a leftover, and at
   its turn every group's tensors, leftovers included, have the sizes of their copies. It then ends where the next
   cycle may begin.
   */
  lemma CycleSurvivesIff(p: Plan, h: Handler, saving: seq<Event>, returning: seq<Event>)
    requires Saving(p, h) && h.current == 0 && SavesOnly(saving) && Forwards(saving) == p.layers
    requires ReturnsInTurn(p.layers, TagsOf(h.slots) + GivenTags(0, h.count, saving), returning)
    requires Backwards(returning) == p.layers
    ensures PerformAll(p, h, saving).Some? <==> GivenTags(0, h.count, saving) !! TagsOf(h.slots)
    ensures PerformAll(p, h, saving + returning).Some? <==>
      GivenTags(0, h.count, saving) !! TagsOf(h.slots) &&
      FitWithin(p, PerformAll(p, h, saving).value.0, 0, p.layers)
    ensures PerformAll(p, h, saving + returning).Some? ==>
      var k := PerformAll(p, h, saving + returning).value.0; Saving(p, k) && k.current == 0
  {
    SavingSurvivesIff(p, h, saving);
    PerformJoin(p, h, saving, returning);
    if PerformAll(p, h, saving).Some? {
      var turn := PerformAll(p, h, saving).value.0;
      HalvesMeet(p, turn);
      ReturningSurvivesIff(p, turn, returning);
      if PerformAll(p, turn, returning).Some? { HalvesMeet(p, PerformAll(p, turn, returning).value.0); }
    }
  }

  lemma OneSavedLegal(t: Tensor)
    requires Sound(t)
    ensures var es := [EPush(t), EForward, EBackward];
      LegalRun(Plan(1, 1), START, es) && FeasibleRun(Plan(1, 1), START, es) &&
      JournalAfter(START, es) == Journal(true, 0, 0, [Saved(Tag(0, 0), t)], {})
  {
    var p, es, s := Plan(1, 1), [EPush(t), EForward, EBackward], Saved(Tag(0, 0), t);
    var pushed, turn := Journal(false, 0, 1, [s], {}), Journal(false, 1, 0, [s], {});
    var last, two := [EBackward], [EForward, EBackward];
    assert SizesAgree(turn.log, 0);
    assert last[1..] == [] && Next(turn, EBackward) == Journal(true, 0, 0, [s], {});
    assert LegalRun(p, turn, last) && FeasibleRun(p, turn, last) && JournalAfter(turn, last) == Next(turn, EBackward);
    assert two[1..] == last && Next(pushed, EForward) == turn;
    assert LegalRun(p, pushed, two) && FeasibleRun(p, pushed, two);
    assert JournalAfter(pushed, two) == JournalAfter(turn, last);
    assert es[1..] == two && Next(START, EPush(t)) == pushed;
  }

  lemma OneSavedStays(t: Tensor)
    requires Sound(t)
    ensures var r := PerformAll(Plan(1, 1), INITIAL, [EPush(t), EForward, EBackward]);
      r.Some? && r.value.0.current == r.value.0.count == 0 && HasTag(r.value.0.slots, Tag(0, 0))
  {
    OneSavedLegal(t);
    FreshRunSafe(Plan(1, 1), [EPush(t), EForward, EBackward]);
    var j := Journal(true, 0, 0, [Saved(Tag(0, 0), t)], {});
    var m := SlotTarget(Plan(1, 1), j, j.log, 0);
  }

  lemma FirstPushRefused(p: Plan, h: Handler, t: Tensor)
    requires p.Ok() && HasTag(h.slots, Tag(h.current, h.count))
    ensures PerformAll(p, h, [EPush(t)]) == None
  {
  }

  /** A tensor that is never taken back: the next cycle's first push is given its tag, and refused. */
  lemma LeftoverRefusesPush(t: Tensor)
    requires Sound(t)
    ensures PerformAll(Plan(1, 1), INITIAL, [EPush(t), EForward, EBackward]).Some?
    ensures PerformAll(Plan(1, 1), INITIAL, [EPush(t), EForward, EBackward] + [EPush(t)]) == None
  {
    var p, es := Plan(1, 1), [EPush(t), EForward, EBackward];
    OneSavedStays(t);
    FirstPushRefused(p, PerformAll(p, INITIAL, es).value.0, t);
    PerformJoin(p, INITIAL, es, [EPush(t)]);
  }
}
