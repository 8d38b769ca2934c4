/**
 Which training cycles the offload handler gets through: a whole backward half succeeds exactly if, in every
 offloaded group, saved tensors that share a key have equally many elements.
 */
module OffloadRecovery {
  import opened OffloadWindow
  import opened OffloadHandler
  import opened OffloadRuns
  import opened OffloadSafety
  import opened Wrappers

  predicate SavesOnly(events: seq<Event>) {
    forall i :: 0 <= i < |events| ==> events[i].EPush? || events[i].EForward?
  }

  predicate ReturnsOnly(events: seq<Event>) {
    forall i :: 0 <= i < |events| ==> events[i].EPop? || events[i].EBackward?
  }

  /** In every offloaded group the sizes of tensors that share a key agree. */
  predicate AllSizesAgree(p: Plan, log: seq<Saved>)
    requires p.Ok()
  {
    forall g {:trigger SizesAgree(log, g)} :: 0 <= g < p.groups && Offloadable(p, g) ==> SizesAgree(log, g)
  }

  /** The same, for the groups whose windows close in a stretch of commits. */
  predicate SizesAgreeWithin(p: Plan, log: seq<Saved>, from: nat, to: nat)
    requires p.Ok()
  {
    forall g {:trigger SizesAgree(log, g)} :: 0 <= g < p.groups && Offloadable(p, g) && from <= Window(p, g) < to
      ==> SizesAgree(log, g)
  }

  lemma NotYetRenewed(p: Plan, j: Journal, e: Event)
    requires Coherent(p, j) && Legal(p, j, e) && (e.EPop? || e.EBackward?)
    ensures Renew(j) == j
  {
  }

  lemma OneMoreWindow(p: Plan, log: seq<Saved>, from: nat, to: nat, end: nat)
    requires p.Ok() && from <= to <= end <= to + 1
    ensures SizesAgreeWithin(p, log, from, end) <==>
      SizesAgreeWithin(p, log, from, to) && (end == to || SizesAgreeWithin(p, log, to, end))
  {
    if SizesAgreeWithin(p, log, from, to) && (end == to || SizesAgreeWithin(p, log, to, end)) {
      forall g | 0 <= g < p.groups && Offloadable(p, g) && from <= Window(p, g) < end ensures SizesAgree(log, g) {
        if Window(p, g) >= to { assert end == to + 1 && to <= Window(p, g) < end; }
      }
    }
  }

  /** Going backwards from commit j.current to an earlier one needs the groups whose windows lie between. */
  lemma {:induction false} ReturnFeasibleIff(p: Plan, j: Journal, events: seq<Event>)
    requires Coherent(p, j) && LegalRun(p, j, events) && ReturnsOnly(events)
    ensures JournalAfter(j, events).current <= j.current
    ensures FeasibleRun(p, j, events) <==> SizesAgreeWithin(p, j.log, JournalAfter(j, events).current, j.current)
    decreases |events|
  {
    if events != [] {
      NotYetRenewed(p, j, events[0]);
      var next := Next(j, events[0]);
      var out := StepSafe(p, j, events[0]);
      assert forall i :: 0 <= i < |events| - 1 ==> events[1..][i] == events[i + 1];
      ReturnFeasibleIff(p, next, events[1..]);
      OneMoreWindow(p, j.log, JournalAfter(j, events).current, next.current, j.current);
    }
  }

  /** Every window lies within the layers. */
  lemma AllWindows(p: Plan, log: seq<Saved>)
    requires p.Ok()
    ensures SizesAgreeWithin(p, log, 0, p.layers) <==> AllSizesAgree(p, log)
  {
    forall g | 0 <= g < p.groups ensures 0 <= Window(p, g) < p.layers {
      WindowAtLeast(p, g);
      WindowLast(p);
      if g < p.groups - 1 { WindowIncreasing(p, g, p.groups - 1); }
    }
  }

  lemma {:induction false} SavesFeasible(p: Plan, j: Journal, events: seq<Event>)
    requires p.Ok() && SavesOnly(events)
    ensures FeasibleRun(p, j, events)
    decreases |events|
  {
    if events != [] {
      assert forall i :: 0 <= i < |events| - 1 ==> events[1..][i] == events[i + 1];
      SavesFeasible(p, Next(j, events[0]), events[1..]);
    }
  }

  lemma {:induction false} RunsJoin(p: Plan, j: Journal, a: seq<Event>, b: seq<Event>)
    requires p.Ok()
    ensures JournalAfter(j, a + b) == JournalAfter(JournalAfter(j, a), b)
    ensures LegalRun(p, j, a + b) <==> LegalRun(p, j, a) && LegalRun(p, JournalAfter(j, a), b)
    ensures FeasibleRun(p, j, a + b) <==> FeasibleRun(p, j, a) && FeasibleRun(p, JournalAfter(j, a), b)
    decreases |a|
  {
    if a == [] {
      assert a + b == b;
    } else {
      assert (a + b)[0] == a[0] && (a + b)[1..] == a[1..] + b;
      RunsJoin(p, Next(j, a[0]), a[1..], b);
    }
  }

  /**
   A whole cycle, all L layers forward and all the way back, goes through exactly if the sizes agree in every
   offloaded group of what the forward half saved.
   */
  lemma CycleSucceedsIff(p: Plan, saving: seq<Event>, returning: seq<Event>)
    requires p.Ok() && SavesOnly(saving) && ReturnsOnly(returning)
    requires LegalRun(p, START, saving) && JournalAfter(START, saving).current == p.layers
    requires LegalRun(p, JournalAfter(START, saving), returning)
    requires JournalAfter(JournalAfter(START, saving), returning).current == 0
    ensures LegalRun(p, START, saving + returning)
    ensures PerformAll(p, INITIAL, saving + returning).Some? <==> AllSizesAgree(p, JournalAfter(START, saving).log)
  {
    var turn := JournalAfter(START, saving);
    StartExpected(p);
    RunSafe(p, START, saving);
    SavesFeasible(p, START, saving);
    ReturnFeasibleIff(p, turn, returning);
    AllWindows(p, turn.log);
    RunsJoin(p, START, saving, returning);
    FreshRunSafe(p, saving + returning);
  }

  // ---------- a failing run ----------

  // Two elements, and a view of the first of them: one key, different sizes.
  const WHOLE := Tensor(Key(0, 0), [2], [1, 2])

  const FIRST := Tensor(Key(0, 0), [1], [1])

  const SAVE_VIEW := [EPush(WHOLE), EPush(FIRST), EForward, EForward]

  lemma SaveViewLegal()
    ensures LegalRun(Plan(1, 2), START, SAVE_VIEW)
    ensures JournalAfter(START, SAVE_VIEW)
      == Journal(false, 2, 0, [Saved(Tag(0, 0), WHOLE), Saved(Tag(0, 1), FIRST)], {})
  {
    var p, es := Plan(1, 2), SAVE_VIEW;
    assert Numel([2]) == 2 * Numel([]) && Numel([1]) == Numel([]) by {
      assert [2][1..] == [] && [1][1..] == [];
    }
    assert JournalAfter(START, es[..0]) == START && LegalRun(p, START, es[..0]);
    ExtendRun(p, START, es[..0], es[0]);
    assert es[..0] + [es[0]] == es[..1];
    ExtendRun(p, START, es[..1], es[1]);
    assert es[..1] + [es[1]] == es[..2];
    ExtendRun(p, START, es[..2], es[2]);
    assert es[..2] + [es[2]] == es[..3];
    ExtendRun(p, START, es[..3], es[3]);
    assert es[..3] + [es[3]] == es[..4] == es;
  }

  /** Saving a tensor and a view of its start in an offloaded group makes the backward commit fail. */
  lemma ViewCannotReturn()
    ensures LegalRun(Plan(1, 2), START, SAVE_VIEW + [EBackward])
    ensures PerformAll(Plan(1, 2), INITIAL, SAVE_VIEW).Some?
    ensures PerformAll(Plan(1, 2), INITIAL, SAVE_VIEW + [EBackward]) == None
  {
    var p, j := Plan(1, 2), JournalAfter(START, SAVE_VIEW);
    SaveViewLegal();
    ExtendRun(p, START, SAVE_VIEW, EBackward);
    FreshRunSafe(p, SAVE_VIEW);
    SavesFeasible(p, START, SAVE_VIEW);
    FreshRunSafe(p, SAVE_VIEW + [EBackward]);
    RunsJoin(p, START, SAVE_VIEW, [EBackward]);
    OffloadableIff(p, 0);
    assert Window(p, 0) == j.current - 1;
    assert !SizesAgree(j.log, 0) by { assert SameKey(j.log[0], j.log[1]); }
  }

  // ---------- a run that goes through with the wrong contents ----------

  // A matrix and its transpose: one storage, one key, different row-major contents.
  const MATRIX := Tensor(Key(0, 0), [2, 2], [1, 2, 3, 4])

  const TRANSPOSE := Tensor(Key(0, 0), [2, 2], [1, 3, 2, 4])

  const BOTH := [Saved(Tag(0, 0), MATRIX), Saved(Tag(0, 1), TRANSPOSE)]

  const SAVE_BOTH := [EPush(MATRIX), EPush(TRANSPOSE), EForward, EForward, EBackward, EBackward]

  lemma SaveFirstTwo()
    ensures LegalRun(Plan(1, 2), START, SAVE_BOTH[..2])
    ensures JournalAfter(START, SAVE_BOTH[..2]).log == BOTH
    ensures JournalAfter(START, SAVE_BOTH[..2]) == Journal(false, 0, 2, BOTH, {})
  {
    var p, es := Plan(1, 2), SAVE_BOTH;
    assert Numel([2, 2]) == 2 * Numel([2]) && Numel([2]) == 2 * Numel([]) by {
      assert [2, 2][1..] == [2] && [2][1..] == [];
    }
    assert JournalAfter(START, es[..0]) == START && LegalRun(p, START, es[..0]);
    ExtendRun(p, START, es[..0], es[0]);
    assert es[..0] + [es[0]] == es[..1];
    assert JournalAfter(START, es[..1]) == Journal(false, 0, 1, BOTH[..1], {});
    assert Append(Journal(false, 0, 1, BOTH[..1], {}), TRANSPOSE).log == BOTH;
    ExtendRun(p, START, es[..1], es[1]);
    assert es[..1] + [es[1]] == es[..2];
  }

  lemma SaveBothForward()
    ensures LegalRun(Plan(1, 2), START, SAVE_BOTH[..4])
    ensures JournalAfter(START, SAVE_BOTH[..4]) == Journal(false, 2, 0, BOTH, {})
  {
    var p, es := Plan(1, 2), SAVE_BOTH;
    SaveFirstTwo();
    ExtendRun(p, START, es[..2], es[2]);
    assert es[..2] + [es[2]] == es[..3];
    ExtendRun(p, START, es[..3], es[3]);
    assert es[..3] + [es[3]] == es[..4];
  }

  lemma SaveBothLegal()
    ensures LegalRun(Plan(1, 2), START, SAVE_BOTH)
    ensures JournalAfter(START, SAVE_BOTH) == Journal(true, 0, 0, BOTH, {})
  {
    var p, es := Plan(1, 2), SAVE_BOTH;
    SaveBothForward();
    ExtendRun(p, START, es[..4], es[4]);
    assert es[..4] + [es[4]] == es[..5];
    ExtendRun(p, START, es[..5], es[5]);
    assert es[..5] + [es[5]] == es[..6] == es;
  }

  lemma TransposeDelivered()
    ensures Delivered(Plan(1, 2), BOTH, BOTH[1]) == MATRIX
  {
    assert BOTH[..1][..0] == [];
    assert FirstOf(BOTH[..1], 0) == map[Key(0, 0) := MATRIX];
    assert FirstOf(BOTH, 0) == map[Key(0, 0) := MATRIX];
  }

  lemma {:induction false} AnswersAt(p: Plan, j: Journal, events: seq<Event>, outs: seq<Option<Tensor>>, i: nat)
    requires p.Ok() && AnswersAll(p, j, events, outs) && i < |events|
    ensures Answers(p, JournalAfter(j, events[..i]), events[i], outs[i])
    decreases |events|
  {
    if i > 0 {
      AnswersAt(p, Next(j, events[0]), events[1..], outs[1..], i - 1);
      assert events[..i][1..] == events[1..][..i - 1];
    }
  }

  lemma SaveBothFeasible()
    ensures FeasibleRun(Plan(1, 2), START, SAVE_BOTH)
  {
    var p, es := Plan(1, 2), SAVE_BOTH;
    SaveBothForward();
    SaveBothLegal();
    assert es == es[..4] + es[4..];
    RunsJoin(p, START, es[..4], es[4..]);
    assert forall g :: SizesAgree(BOTH, g);
    CycleSucceedsIff(p, es[..4], es[4..]);
    FreshRunSafe(p, es);
  }

  /**
   So faithful delivery fails without agreement: a run goes through in which the transpose, saved second, comes
   back as the matrix.
   */
  lemma TransposedAlias()
    ensures LegalRun(Plan(1, 2), START, SAVE_BOTH + [EPop(Tag(0, 1))])
    ensures var r := PerformAll(Plan(1, 2), INITIAL, SAVE_BOTH + [EPop(Tag(0, 1))]);
      r.Some? && |r.value.1| == 7 && r.value.1[6] == Some(MATRIX)
    ensures !SameContents(MATRIX, TRANSPOSE)
  {
    var p, pop, j := Plan(1, 2), EPop(Tag(0, 1)), Journal(true, 0, 0, BOTH, {});
    var es := SAVE_BOTH + [pop];
    SaveBothLegal();
    assert BOTH[0].tag !in j.popped && BOTH[1].tag == Tag(0, 1);
    ExtendRun(p, START, SAVE_BOTH, pop);
    SaveBothFeasible();
    RunsJoin(p, START, SAVE_BOTH, [pop]);
    FreshRunSafe(p, es);
    var r := PerformAll(p, INITIAL, es);
    AnswersAt(p, START, es, r.value.1, 6);
    assert es[..6] == SAVE_BOTH;
    TransposeDelivered();
    assert MATRIX.elems[1] != TRANSPOSE.elems[1];
  }
}
