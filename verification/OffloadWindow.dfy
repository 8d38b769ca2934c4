/**
 When each group of layers is copied off the device and brought back: the arithmetic of
 `layer_window_map` and `offloaded_group_count` in verl/utils/activation_offload.py.
 */
module OffloadWindow {
  import opened Arithmetic
  import opened Sequences

  /** Number of offload groups G and of layers L. */
  datatype Plan = Plan(groups: nat, layers: nat) {
    predicate Ok() { 1 <= groups <= layers }
  }

  /** The entry the constructor's loop leaves at i. */
  function Window(p: Plan, i: int): int
    requires p.Ok()
  {
    (p.layers / p.groups) * (i + 1) - 1 + Min(i + 1, p.layers % p.groups)
  }

  function WindowMap(p: Plan): map<int, int>
    requires p.Ok()
  {
    map i | 0 <= i < p.groups :: Window(p, i)
  }

  /** The constructor's loop, with its running `constant`. */
  method BuildWindowMap(p: Plan) returns (window: map<int, int>)
    requires p.Ok()
    ensures window == WindowMap(p)
  {
    window := map[];
    var constant := 0;
    for i := 0 to p.groups
      invariant constant == Min(i, p.layers % p.groups)
      invariant window == map j | 0 <= j < i :: Window(p, j)
    {
      window := window[i := (p.layers / p.groups) * (i + 1) - 1];
      if i < p.layers % p.groups {
        window := window[i := window[i] + i + 1];
        constant := i + 1;
      } else {
        window := window[i := window[i] + constant];
      }
    }
  }

  lemma WindowStep(p: Plan, i: int)
    requires p.Ok()
    ensures Window(p, i) < Window(p, i + 1)
  {
    QuotientPositive(p.layers, p.groups);
    var q := p.layers / p.groups;
    assert q * (i + 2) == q * (i + 1) + q;
  }

  /** Later groups have strictly later windows. */
  lemma {:induction false} WindowIncreasing(p: Plan, i: int, j: int)
    requires p.Ok() && i < j
    ensures Window(p, i) < Window(p, j)
    decreases j - i
  {
    WindowStep(p, i);
    if i + 1 < j {
      WindowIncreasing(p, i + 1, j);
    }
  }

  /** A group's window never closes before the group's own layer has run. */
  lemma {:induction false} WindowAtLeast(p: Plan, i: nat)
    requires p.Ok()
    ensures Window(p, i) >= i
    ensures p.groups < p.layers && i < p.groups ==> Window(p, i) >= i + 1
  {
    QuotientPositive(p.layers, p.groups);
    var q, r := p.layers / p.groups, p.layers % p.groups;
    assert p.layers == p.groups * q + r;
    MulMonotonic(i + 1, 1, q);
    assert q * (i + 1) == (i + 1) * q;
    if q >= 2 {
      MulMonotonic(i + 1, 2, q);
    } else {
      assert q == 1;
      assert p.groups * q == p.groups;
    }
  }

  /** The last group's window closes with the last layer. */
  lemma WindowLast(p: Plan)
    requires p.Ok()
    ensures Window(p, p.groups - 1) == p.layers - 1
  {
    assert p.layers == p.groups * (p.layers / p.groups) + p.layers % p.groups;
  }

  /** Windows are L/G layers wide, and the first L%G of them one layer wider. */
  lemma WindowWidth(p: Plan, i: nat)
    requires p.Ok() && i < p.groups
    ensures var before := if i == 0 then -1 else Window(p, i - 1);
      Window(p, i) - before == p.layers / p.groups + if i < p.layers % p.groups then 1 else 0
  {
    var q := p.layers / p.groups;
    assert q * (i + 1) == q * i + q;
  }

  /** With as many groups as layers, group i's window closes with layer i. */
  lemma WindowTight(p: Plan, i: nat)
    requires p.Ok() && p.groups == p.layers
    ensures Window(p, i) == i
  {
    DivModUnique(p.layers, p.groups, 1, 0);
  }

  // ---------- the running count ----------

  /** Groups whose window has closed after c forward commits. */
  function Closed(p: Plan, c: nat): (n: nat)
    requires p.Ok()
    ensures n <= p.groups && n <= c
  {
    if c == 0 then 0
    else
      var n := Closed(p, c - 1);
      if n < p.groups && Window(p, n) == c - 1 then n + 1 else n
  }

  /** The count sits exactly between the closed windows and the open ones. */
  lemma {:induction false} ClosedBrackets(p: Plan, c: nat)
    requires p.Ok()
    ensures Closed(p, c) > 0 ==> Window(p, Closed(p, c) - 1) < c
    ensures Closed(p, c) < p.groups ==> Window(p, Closed(p, c)) >= c
  {
    if c == 0 {
      WindowAtLeast(p, 0);
    } else {
      ClosedBrackets(p, c - 1);
      var n := Closed(p, c - 1);
      if n < p.groups && Window(p, n) == c - 1 {
        WindowStep(p, n);
      }
    }
  }

  /** Group g's window is closed after c commits iff g is among the first Closed(c) groups. */
  lemma ClosedIff(p: Plan, c: nat, g: nat)
    requires p.Ok() && g < p.groups
    ensures Window(p, g) < c <==> g < Closed(p, c)
  {
    var n := Closed(p, c);
    ClosedBrackets(p, c);
    if g + 1 < n {
      WindowIncreasing(p, g, n - 1);
    } else if g > n {
      WindowIncreasing(p, n, g);
    }
  }

  /** What one more commit closes: the window of the first group whose window was open, if it is due. */
  lemma ClosesNext(p: Plan, c: nat, g: nat)
    requires p.Ok() && g < p.groups
    ensures Window(p, g) < c + 1 <==> Window(p, g) < c || (g == Closed(p, c) && Window(p, g) == c)
  {
    ClosedIff(p, c, g);
    ClosedIff(p, c + 1, g);
  }

  /** Every window is closed after the last forward commit, and none is missing before it. */
  lemma ClosedAtEnd(p: Plan, c: nat)
    requires p.Ok() && c <= p.layers
    ensures Closed(p, c) == p.groups <==> c == p.layers
  {
    WindowLast(p);
    ClosedIff(p, c, p.groups - 1);
  }

  /** The commit at which group g is copied off the device. */
  function CopyTime(p: Plan, g: nat): int
    requires p.Ok()
  {
    if g == 0 then 0 else Window(p, g - 1)
  }

  /** Whether anything of group g has been saved by the time it is copied. */
  predicate Offloadable(p: Plan, g: nat)
    requires p.Ok()
  {
    g < p.groups && g <= CopyTime(p, g)
  }

  /** With fewer groups than layers every group is offloaded; otherwise only the first one is. */
  lemma OffloadableIff(p: Plan, g: nat)
    requires p.Ok() && g < p.groups
    ensures Offloadable(p, g) <==> g == 0 || p.groups < p.layers
    ensures CopyTime(p, g) >= g - 1
  {
    if g > 0 {
      WindowAtLeast(p, g - 1);
      if p.groups == p.layers { WindowTight(p, g - 1); }
    }
  }

  /** A group is copied no later than its window closes. */
  lemma CopyBeforeClose(p: Plan, g: nat)
    requires p.Ok()
    ensures CopyTime(p, g) <= Window(p, g)
  {
    if g == 0 { WindowAtLeast(p, 0); } else { WindowIncreasing(p, g - 1, g); }
  }
}
