/**
 Context-parallel packing of verl/models/mcore/util.py: every rank stores, for each sequence, one slice
 from the front half and the mirrored slice from the back half; unpacking gathers the ranks' buffers.
 */
module PackedSeqs {
  import opened Arithmetic
  import opened Sequences
  import opened Wrappers

  /** Tensor- and context-parallel sizes. */
  datatype Mesh = Mesh(tp: nat, cp: nat) {
    predicate Ok() { tp >= 1 && cp >= 1 }
  }

  function AlignSize(m: Mesh): nat {
    if m.cp > 1 then m.tp * m.cp * 2 else m.tp
  }

  lemma AlignPositive(m: Mesh)
    requires m.Ok()
    ensures AlignSize(m) >= 1
  {
    MulMonotonic(m.tp, 1, m.cp);
  }

  /** A length rounded up to the alignment, as the code computes it. */
  function Padded(m: Mesh, s: nat): nat
    requires m.Ok()
  {
    AlignPositive(m);
    s + (AlignSize(m) - s % AlignSize(m)) % AlignSize(m)
  }

  lemma PaddedIsLeast(m: Mesh, s: nat) returns (q: nat)
    requires m.Ok()
    ensures Padded(m, s) == AlignSize(m) * q
    ensures s <= Padded(m, s) < s + AlignSize(m)
  {
    AlignPositive(m);
    var a := AlignSize(m);
    var d, r := s / a, s % a;
    assert s == a * d + r;
    if r == 0 {
      assert (a - r) % a == 0 by { DivModUnique(a, a, 1, 0); }
      q := d;
    } else {
      assert (a - r) % a == a - r by { DivModUnique(a - r, a, 0, a - r); }
      q := d + 1;
      assert a * q == a * d + a;
    }
  }

  lemma PaddedBounds(m: Mesh, s: nat)
    requires m.Ok()
    ensures s <= Padded(m, s) < s + AlignSize(m)
  {
    var q := PaddedIsLeast(m, s);
  }

  /** p is the least multiple of a that is at least s. */
  predicate RoundedUp(p: int, s: int, a: int)
    requires a >= 1
  {
    p % a == 0 && s <= p < s + a
  }

  /**
   A length is padded to a multiple of the tensor-parallel size, with context parallelism of twice the product of both
   sizes.
   */
  lemma PaddedRounds(m: Mesh, s: nat)
    requires m.Ok()
    ensures m.cp <= 1 ==> RoundedUp(Padded(m, s), s, m.tp)
    ensures m.cp > 1 ==> 2 * (m.tp * m.cp) >= 1 && RoundedUp(Padded(m, s), s, 2 * (m.tp * m.cp))
  {
    AlignPositive(m);
    var q := PaddedIsLeast(m, s);
    DivModUnique(Padded(m, s), AlignSize(m), q, 0);
    assert m.cp > 1 ==> AlignSize(m) == 2 * (m.tp * m.cp);
  }

  /** Half of one rank's share of a sequence. */
  function Half(m: Mesh, s: nat): nat
    requires m.Ok()
  {
    QuotientNonNegative(Padded(m, s), m.cp);
    Padded(m, s) / m.cp / 2
  }

  /** One rank's share of a sequence. */
  function Share(m: Mesh, s: nat): nat
    requires m.Ok()
  {
    QuotientNonNegative(Padded(m, s), m.cp);
    Padded(m, s) / m.cp
  }

  /** The shares are whole: 2*cp halves make up the padded length. */
  lemma HalvesFill(m: Mesh, s: nat)
    requires m.Ok()
    ensures Padded(m, s) == m.cp * Share(m, s)
    ensures m.cp > 1 ==> Share(m, s) == 2 * Half(m, s)
    ensures m.cp > 1 ==> Padded(m, s) == m.cp * Half(m, s) + m.cp * Half(m, s)
  {
    var q := PaddedIsLeast(m, s);
    if m.cp > 1 {
      var h := m.tp * q;
      assert Padded(m, s) == m.cp * (2 * h) by {
        assert m.tp * m.cp * 2 * q == m.cp * (2 * (m.tp * q));
      }
      DivModUnique(Padded(m, s), m.cp, 2 * h, 0);
      DivModUnique(2 * h, 2, h, 0);
      assert m.cp * (2 * h) == m.cp * h + m.cp * h;
    } else {
      DivModUnique(Padded(m, s), 1, Padded(m, s), 0);
    }
  }

  // ---------- boolean-mask indexing ----------

  /** `row[mask]` */
  function Compress<T>(row: seq<T>, mask: seq<bool>): (d: seq<T>)
    requires |row| == |mask|
    ensures |d| <= |row|
  {
    if row == [] then [] else (if mask[0] then [row[0]] else []) + Compress(row[1..], mask[1..])
  }

  function Count(mask: seq<bool>): nat {
    if mask == [] then 0 else (if mask[0] then 1 else 0) + Count(mask[1..])
  }

  lemma {:induction false} CompressLength<T>(row: seq<T>, mask: seq<bool>)
    requires |row| == |mask|
    ensures |Compress(row, mask)| == Count(mask)
  {
    if row != [] { CompressLength(row[1..], mask[1..]); }
  }

  /** `out[mask] = values` on a row of `pad`. */
  function Scatter<T>(mask: seq<bool>, values: seq<T>, pad: T): (r: seq<T>)
    requires |values| == Count(mask)
    ensures |r| == |mask|
  {
    if mask == [] then []
    else if mask[0] then [values[0]] + Scatter(mask[1..], values[1..], pad)
    else [pad] + Scatter(mask[1..], values, pad)
  }

  /** The row with every unmasked position blanked. */
  function Masked<T>(row: seq<T>, mask: seq<bool>, pad: T): (r: seq<T>)
    requires |row| == |mask|
    ensures |r| == |row| && forall i :: 0 <= i < |row| ==> r[i] == if mask[i] then row[i] else pad
  {
    seq(|row|, i requires 0 <= i < |row| => if mask[i] then row[i] else pad)
  }

  /** Scattering what was compressed restores the masked positions and blanks the others. */
  lemma {:induction false} ScatterCompress<T>(row: seq<T>, mask: seq<bool>, pad: T)
    requires |row| == |mask|
    ensures |Compress(row, mask)| == Count(mask)
    ensures Scatter(mask, Compress(row, mask), pad) == Masked(row, mask, pad)
  {
    CompressLength(row, mask);
    if row != [] {
      ScatterCompress(row[1..], mask[1..], pad);
      assert Masked(row, mask, pad)
          == [if mask[0] then row[0] else pad] + Masked(row[1..], mask[1..], pad);
      if mask[0] {
        assert Compress(row, mask)[1..] == Compress(row[1..], mask[1..]);
      } else {
        assert Compress(row, mask) == Compress(row[1..], mask[1..]);
      }
    }
  }

  // ---------- slice assignment ----------

  /** Python's `d[a:b]` for non-negative bounds. */
  function Slice<T>(d: seq<T>, a: nat, b: nat): seq<T>
    requires a <= b
  {
    d[Min(a, |d|)..Min(b, |d|)]
  }

  /** A right-hand side fits a slice of n places if it has n elements, or one, which is then repeated. */
  predicate Fits<T>(rhs: seq<T>, n: nat) {
    |rhs| == n || |rhs| == 1
  }

  function Spread<T>(rhs: seq<T>, n: nat): (r: seq<T>)
    requires Fits(rhs, n)
    ensures |r| == n
  {
    if |rhs| == n then rhs else Repeat(rhs[0], n)
  }

  /** `a[lo:hi] = rhs`, refused when the shapes cannot be matched. */
  method AssignSlice<T>(a: array<T>, lo: nat, hi: nat, rhs: seq<T>) returns (ok: bool)
    requires lo <= hi <= a.Length
    modifies a
    ensures ok <==> Fits(rhs, hi - lo)
    ensures ok ==> a[..lo] == old(a[..lo]) && a[lo..hi] == Spread(rhs, hi - lo) && a[hi..] == old(a[hi..])
    ensures !ok ==> a[..] == old(a[..])
  {
    if !Fits(rhs, hi - lo) {
      return false;
    }
    var values := Spread(rhs, hi - lo);
    for i := lo to hi
      invariant forall j :: 0 <= j < lo || hi <= j < a.Length ==> a[j] == old(a[j])
      invariant forall j :: lo <= j < i ==> a[j] == values[j - lo]
    {
      a[i] := values[i - lo];
    }
    return true;
  }

  // ---------- one sequence on one rank ----------

  /** A batch row's tokens can be written on every rank. */
  predicate Packable(m: Mesh, s: nat) {
    m.cp <= 1 || s == 0 || s >= m.tp * m.cp || (m.tp > 1 && s == m.tp * (m.cp - 1) + 1)
  }

  /** The front slice of rank r, as far as the tokens go. */
  function Front<T>(m: Mesh, d: seq<T>, r: nat): seq<T>
    requires m.Ok()
  {
    var h := Half(m, |d|);
    assert h * r <= h * (r + 1) by { MulMonotonic(h, r, r + 1); }
    Slice(d, h * r, h * (r + 1))
  }

  predicate Writable<T>(m: Mesh, d: seq<T>, r: nat)
    requires m.Ok()
  {
    m.cp > 1 ==> Fits(Front(m, d, r), Half(m, |d|))
  }

  /**
   The padded sequence whose slices the ranks hold: the tokens, then padding. In the one case where a
   single remaining token is spread over a whole slice, that token fills the slice up to the middle.
   */
  function Stretched<T>(m: Mesh, d: seq<T>, pad: T): (p: seq<T>)
    requires m.Ok()
    ensures |p| == Padded(m, |d|)
    ensures d <= p
  {
    PaddedBounds(m, |d|);
    HalvesFill(m, |d|);
    var middle := m.cp * Half(m, |d|);
    if m.cp > 1 && 0 < |d| < middle
    then d + Repeat(d[|d| - 1], middle - |d|) + Repeat(pad, Padded(m, |d|) - middle)
    else d + Repeat(pad, Padded(m, |d|) - |d|)
  }

  /** A slice counted from the front and its mirror image counted from the back. */
  function Cut<T>(p: seq<T>, from: nat, to: nat): (c: seq<T>)
    requires from <= to <= |p| - to
    ensures |c| == 2 * (to - from)
  {
    p[from..to] + p[|p| - to..|p| - from]
  }

  lemma BackSlice(m: Mesh, s: nat, r: nat)
    requires m.Ok() && m.cp > 1 && r < m.cp
    ensures var p, h := Padded(m, s), Half(m, s);
      0 <= h * r && h * (r + 1) == h * r + h && h * (r + 1) <= m.cp * h <= p - h * (r + 1)
  {
    HalvesFill(m, s);
    MulMonotonic(Half(m, s), r + 1, m.cp);
  }

  /** What rank r stores for the sequence: its front slice and the mirrored back slice. */
  function Segment<T>(m: Mesh, d: seq<T>, pad: T, r: nat): (g: seq<T>)
    requires m.Ok() && r < m.cp
    ensures |g| == Share(m, |d|)
  {
    HalvesFill(m, |d|);
    if m.cp <= 1 then Stretched(m, d, pad)
    else
      BackSlice(m, |d|, r);
      Cut(Stretched(m, d, pad), Half(m, |d|) * r, Half(m, |d|) * (r + 1))
  }

  // ---------- which lengths can be written ----------

  lemma SameFactor(a: int, x: int, y: int)
    requires a >= 1 && a * x == a * y
    ensures x == y
  {
    if x < y { MulMonotonic(a, x + 1, y); } else if y < x { MulMonotonic(a, y + 1, x); }
  }

  /** cp halves of h are q units, and s is at most two units below twice as many. */
  lemma OneUnitOrMore(cp: int, h: int, unit: int, q: int, s: int)
    requires unit >= 1 && s > 0 && cp * h == unit * q && 2 * (unit * q) - 2 * unit < s <= 2 * (unit * q)
    ensures q >= 1 && (s < cp * h ==> q == 1) && (s < unit ==> q == 1)
    ensures q == 1 ==> cp * h == unit
    ensures q >= 2 ==> s >= cp * h && s >= unit
  {
    if q <= 0 {
      MulMonotonic(unit, q, 0);
    } else if q >= 2 {
      MulMonotonic(unit, 2, q);
    }
  }

  /** Below the middle only one alignment unit is in play, so a half is tp tokens. */
  lemma ShortMeansOneUnit(m: Mesh, s: nat)
    requires m.Ok() && m.cp > 1 && 0 < s
    ensures s < m.cp * Half(m, s) <==> s < m.tp * m.cp
    ensures s < m.tp * m.cp ==> Half(m, s) == m.tp
  {
    var q := PaddedIsLeast(m, s);
    HalvesFill(m, s);
    var h, unit := Half(m, s), m.cp * m.tp;
    assert AlignSize(m) == 2 * unit;
    assert 2 * unit * q == 2 * (unit * q);
    MulMonotonic(m.cp, 1, m.tp);
    OneUnitOrMore(m.cp, h, unit, q, s);
    if q == 1 { SameFactor(m.cp, h, m.tp); }
  }

  lemma FrontLength<T>(m: Mesh, d: seq<T>, r: nat)
    requires m.Ok()
    ensures var h := Half(m, |d|);
      |Front(m, d, r)| == if h * (r + 1) <= |d| then h else if h * r <= |d| then |d| - h * r else 0
  {
    var h := Half(m, |d|);
    assert h * (r + 1) == h * r + h;
  }

  /** A long enough sequence fills every front slice. */
  lemma LongWritable<T>(m: Mesh, d: seq<T>, r: nat)
    requires m.Ok() && r < m.cp && m.cp > 1 && m.cp * Half(m, |d|) <= |d|
    ensures |Front(m, d, r)| == Half(m, |d|)
  {
    FrontLength(m, d, r);
    BackSlice(m, |d|, r);
  }

  /** In a short sequence only a single-token tail on the last rank can be written there. */
  lemma ShortLastRank<T>(m: Mesh, d: seq<T>)
    requires m.Ok() && m.cp > 1 && 0 < |d| < m.tp * m.cp
    ensures Writable(m, d, m.cp - 1) <==> m.tp > 1 && |d| == m.tp * (m.cp - 1) + 1
  {
    ShortMeansOneUnit(m, |d|);
    FrontLength(m, d, m.cp - 1);
    assert m.tp * m.cp == m.tp * (m.cp - 1) + m.tp;
  }

  lemma ShortOtherRank<T>(m: Mesh, d: seq<T>, r: nat)
    requires m.Ok() && m.cp > 1 && m.tp * (m.cp - 1) <= |d| < m.tp * m.cp && 0 < |d| && r < m.cp - 1
    ensures |Front(m, d, r)| == Half(m, |d|)
  {
    ShortMeansOneUnit(m, |d|);
    FrontLength(m, d, r);
    MulMonotonic(m.tp, r + 1, m.cp - 1);
  }

  lemma EmptyHalf(m: Mesh)
    requires m.Ok()
    ensures Padded(m, 0) == 0 && Half(m, 0) == 0
  {
    AlignPositive(m);
    DivModUnique(AlignSize(m), AlignSize(m), 1, 0);
    DivModUnique(0, AlignSize(m), 0, 0);
    DivModUnique(0, m.cp, 0, 0);
  }

  predicate WritableEverywhere<T>(m: Mesh, d: seq<T>)
    requires m.Ok()
  {
    forall r :: 0 <= r < m.cp ==> Writable(m, d, r)
  }

  lemma PackableWritable<T>(m: Mesh, d: seq<T>, r: nat)
    requires m.Ok() && Packable(m, |d|) && r < m.cp
    ensures Writable(m, d, r)
  {
    if m.cp > 1 {
      if |d| == 0 {
        EmptyHalf(m);
        FrontLength(m, d, r);
      } else if |d| >= m.tp * m.cp {
        ShortMeansOneUnit(m, |d|);
        LongWritable(m, d, r);
      } else if r < m.cp - 1 {
        ShortOtherRank(m, d, r);
      } else {
        ShortLastRank(m, d);
      }
    }
  }

  /** Exactly the packable lengths can be written on every rank. */
  lemma WritableIffPackable<T>(m: Mesh, d: seq<T>)
    requires m.Ok()
    ensures WritableEverywhere(m, d) <==> Packable(m, |d|)
  {
    if Packable(m, |d|) {
      forall r | 0 <= r < m.cp ensures Writable(m, d, r) { PackableWritable(m, d, r); }
    } else {
      ShortLastRank(m, d);
    }
  }

  // ---------- packing a batch on one rank ----------

  /** Tokens of each row, padding removed. */
  function Tokens<T>(rows: seq<seq<T>>, masks: seq<seq<bool>>): (ds: seq<seq<T>>)
    requires |rows| == |masks| && forall i :: 0 <= i < |rows| ==> |rows[i]| == |masks[i]|
    ensures |ds| == |rows| && forall i :: 0 <= i < |rows| ==> ds[i] == Compress(rows[i], masks[i])
  {
    seq(|rows|, i requires 0 <= i < |rows| => Compress(rows[i], masks[i]))
  }

  /** `cu_seqlens_padded[i]` */
  function CuPadded<T>(m: Mesh, ds: seq<seq<T>>, i: nat): nat
    requires m.Ok() && i <= |ds|
  {
    if i == 0 then 0 else CuPadded(m, ds, i - 1) + Padded(m, |ds[i - 1]|)
  }

  /** Where a rank's share of row i begins. */
  function Start<T>(m: Mesh, ds: seq<seq<T>>, i: nat): nat
    requires m.Ok() && i <= |ds|
  {
    if i == 0 then 0 else Start(m, ds, i - 1) + Share(m, |ds[i - 1]|)
  }

  /** The code's `cu_seqlens_padded[i] // cp_size` is the sum of the earlier shares. */
  lemma {:induction false} StartIsQuotient<T>(m: Mesh, ds: seq<seq<T>>, i: nat)
    requires m.Ok() && i <= |ds|
    ensures CuPadded(m, ds, i) == m.cp * Start(m, ds, i)
    ensures CuPadded(m, ds, i) / m.cp == Start(m, ds, i)
  {
    if i > 0 {
      StartIsQuotient(m, ds, i - 1);
      HalvesFill(m, |ds[i - 1]|);
      assert m.cp * (Start(m, ds, i - 1) + Share(m, |ds[i - 1]|))
          == m.cp * Start(m, ds, i - 1) + m.cp * Share(m, |ds[i - 1]|);
    }
    DivModUnique(CuPadded(m, ds, i), m.cp, Start(m, ds, i), 0);
  }

  function Segments<T>(m: Mesh, ds: seq<seq<T>>, pad: T, r: nat): (gs: seq<seq<T>>)
    requires m.Ok() && r < m.cp
    ensures |gs| == |ds| && forall i :: 0 <= i < |ds| ==> gs[i] == Segment(m, ds[i], pad, r)
  {
    seq(|ds|, i requires 0 <= i < |ds| => Segment(m, ds[i], pad, r))
  }

  /** The shares of a batch on rank r, one after the other. */
  function Packed<T>(m: Mesh, ds: seq<seq<T>>, pad: T, r: nat): seq<T>
    requires m.Ok() && r < m.cp
  {
    Flatten(Segments(m, ds, pad, r))
  }

  lemma {:induction false} StartIsOffset<T>(m: Mesh, ds: seq<seq<T>>, gs: seq<seq<T>>, i: nat)
    requires m.Ok() && |gs| == |ds| && i <= |ds|
    requires forall n :: 0 <= n < |ds| ==> |gs[n]| == Share(m, |ds[n]|)
    ensures Offset(gs, i) == Start(m, ds, i)
  {
    if i > 0 { StartIsOffset(m, ds, gs, i - 1); }
  }

  /** Pieces of the shares' sizes lie where the shares do. */
  lemma PieceAt<T>(m: Mesh, ds: seq<seq<T>>, gs: seq<seq<T>>, i: nat)
    requires m.Ok() && |gs| == |ds| && i < |ds|
    requires forall n :: 0 <= n < |ds| ==> |gs[n]| == Share(m, |ds[n]|)
    ensures |Flatten(gs)| == Start(m, ds, |ds|)
    ensures Start(m, ds, i + 1) == Start(m, ds, i) + |gs[i]| <= Start(m, ds, |ds|)
    ensures Flatten(gs)[Start(m, ds, i)..Start(m, ds, i + 1)] == gs[i]
  {
    FlattenAt(gs, i);
    StartIsOffset(m, ds, gs, i);
    StartIsOffset(m, ds, gs, i + 1);
    StartIsOffset(m, ds, gs, |ds|);
  }

  /** Row i's share occupies exactly its own stretch of the buffer, and the buffer has nothing else. */
  lemma PackedAt<T>(m: Mesh, ds: seq<seq<T>>, pad: T, r: nat, i: nat)
    requires m.Ok() && r < m.cp && i < |ds|
    ensures |Packed(m, ds, pad, r)| == Start(m, ds, |ds|)
    ensures Start(m, ds, i + 1) == Start(m, ds, i) + Share(m, |ds[i]|) <= Start(m, ds, |ds|)
    ensures Packed(m, ds, pad, r)[Start(m, ds, i)..Start(m, ds, i) + Share(m, |ds[i]|)] == Segment(m, ds[i], pad, r)
  {
    PieceAt(m, ds, Segments(m, ds, pad, r), i);
  }

  /** Place x of the padded row d: a token, or what fills the row up. */
  predicate PlaceHolds<T(==)>(m: Mesh, d: seq<T>, pad: T, x: nat, value: T)
    requires m.Ok()
  {
    if x < |d| then value == d[x]
    else if m.cp > 1 && 0 < |d| && 2 * x < Padded(m, |d|) then value == d[|d| - 1]
    else value == pad
  }

  lemma StretchedHolds<T>(m: Mesh, d: seq<T>, pad: T, x: nat)
    requires m.Ok() && x < Padded(m, |d|)
    ensures PlaceHolds(m, d, pad, x, Stretched(m, d, pad)[x])
  {
    HalvesFill(m, |d|);
    PaddedBounds(m, |d|);
  }

  lemma CutAt<T>(p: seq<T>, from: nat, to: nat, x: nat)
    requires from <= to <= |p| - to && x < 2 * (to - from)
    ensures Cut(p, from, to)[x] == p[if x < to - from then from + x else |p| - to + (x - (to - from))]
  {
  }

  /**
   The place in the padded row of what stands at x in rank r's share. With context parallelism the first half of the
   share are the places from h*r on, and the second half those that end h*r before the padded row does, h being the
   padded length over twice the ranks; without it the share is the padded row.
   */
  function PlaceOf(m: Mesh, s: nat, r: nat, x: nat): int
    requires m.Ok()
  {
    var h := Half(m, s);
    if m.cp <= 1 then x
    else if x < h then h * r + x
    else Padded(m, s) - h * (r + 1) + (x - h)
  }

  lemma SegmentToken<T>(m: Mesh, d: seq<T>, pad: T, r: nat, x: nat)
    requires m.Ok() && r < m.cp && x < Share(m, |d|)
    ensures 0 <= PlaceOf(m, |d|, r, x) < Padded(m, |d|)
    ensures Segment(m, d, pad, r)[x] == Stretched(m, d, pad)[PlaceOf(m, |d|, r, x)]
  {
    HalvesFill(m, |d|);
    if m.cp > 1 {
      BackSlice(m, |d|, r);
      CutAt(Stretched(m, d, pad), Half(m, |d|) * r, Half(m, |d|) * (r + 1), x);
    }
  }

  /** A rank's buffer holds its segment of the row at `start`. */
  ghost predicate HeldAt<T>(m: Mesh, d: seq<T>, pad: T, r: nat, piece: seq<T>, start: nat)
    requires m.Ok() && r < m.cp
  {
    start + Share(m, |d|) <= |piece| && piece[start..start + Share(m, |d|)] == Segment(m, d, pad, r)
  }

  lemma SegmentHeld<T>(m: Mesh, ds: seq<seq<T>>, pad: T, i: nat, r: nat)
    requires m.Ok() && i < |ds| && r < m.cp
    ensures HeldAt(m, ds[i], pad, r, Packed(m, ds, pad, r), Start(m, ds, i))
  {
    PackedAt(m, ds, pad, r, i);
  }

  lemma HeldPlace<T>(m: Mesh, d: seq<T>, pad: T, r: nat, piece: seq<T>, start: nat, x: nat)
    requires m.Ok() && r < m.cp && HeldAt(m, d, pad, r, piece, start) && x < Share(m, |d|)
    ensures start + x < |piece|
    ensures 0 <= PlaceOf(m, |d|, r, x) < Padded(m, |d|)
    ensures piece[start + x] == Stretched(m, d, pad)[PlaceOf(m, |d|, r, x)]
  {
    assert piece[start..start + Share(m, |d|)][x] == piece[start + x];
    SegmentToken(m, d, pad, r, x);
  }

  /** Wherever a rank's buffer holds its segment of a row, it holds the padded row at these places. */
  lemma HeldToken<T>(m: Mesh, d: seq<T>, pad: T, r: nat, piece: seq<T>, start: nat, x: nat)
    requires m.Ok() && r < m.cp && HeldAt(m, d, pad, r, piece, start) && x < Share(m, |d|)
    ensures 0 <= PlaceOf(m, |d|, r, x) < Padded(m, |d|) && start + x < |piece|
    ensures PlaceHolds(m, d, pad, PlaceOf(m, |d|, r, x), piece[start + x])
  {
    HeldPlace(m, d, pad, r, piece, start, x);
    StretchedHolds(m, d, pad, PlaceOf(m, |d|, r, x));
  }

  // ---------- preprocess_packed_seqs on one rank ----------

  /** The tokens of the mirrored back slice, as far as they go. */
  function BackTokens<T>(m: Mesh, d: seq<T>, r: nat): (w: seq<T>)
    requires m.Ok() && r < m.cp && m.cp > 1
    ensures |w| <= Half(m, |d|)
  {
    BackSlice(m, |d|, r);
    var h := Half(m, |d|);
    var remainStart := Padded(m, |d|) - h * (r + 1);
    var remainEnd := Min(Padded(m, |d|) - h * r, |d|);
    if remainEnd - remainStart > 0 then d[remainStart..remainEnd] else []
  }

  /** The two writes of one row: `front` over the first n places, `back` from place n on. */
  datatype RowWrite<T> = RowWrite(share: nat, n: nat, front: seq<T>, back: seq<T>) {
    predicate Ok() { n + |back| <= share }
    predicate CanWrite() { Fits(front, n) }

    /** Place x of the row's stretch of a blank buffer after the two writes. */
    function At(x: nat, pad: T): T
      requires CanWrite() && x < share
    {
      if x < n then (if |front| == n then front[x] else front[0])
      else if x < n + |back| then back[x - n] else pad
    }

    /** What they leave there, when they can be carried out. */
    function Result(pad: T): (w: seq<T>)
      requires CanWrite()
      ensures |w| == share
    {
      seq(share, x requires 0 <= x < share => At(x, pad))
    }
  }

  /** A row's slice assignments on rank r. */
  function WriteOf<T>(m: Mesh, d: seq<T>, r: nat): (w: RowWrite<T>)
    requires m.Ok() && r < m.cp
    ensures w.Ok()
  {
    HalvesFill(m, |d|);
    PaddedBounds(m, |d|);
    if m.cp <= 1 then RowWrite(Share(m, |d|), |d|, d, [])
    else RowWrite(Share(m, |d|), Half(m, |d|), Front(m, d, r), BackTokens(m, d, r))
  }

  lemma ResultIsPair<T>(w: RowWrite<T>, pad: T)
    requires w.Ok() && w.CanWrite()
    ensures w.Result(pad) == Spread(w.front, w.n) + (w.back + Repeat(pad, w.share - w.n - |w.back|))
  {
  }

  lemma RowJoins<T>(row: seq<T>, before: seq<T>, head: seq<T>, w: RowWrite<T>, pad: T)
    requires w.Ok() && w.CanWrite() && |row| == |before| + w.share
    requires head == before + Spread(w.front, w.n) && row[..|head|] == head
    requires row[|head|..] == w.back + Repeat(pad, w.share - w.n - |w.back|)
    ensures row == before + w.Result(pad)
  {
    ResultIsPair(w, pad);
    assert row == head + row[|head|..];
  }

  /** Writes the front tokens over places start..at. */
  method WriteFront<T>(buffer: array<T>, start: nat, at: nat, tokens: seq<T>, ghost pad: T) returns (ok: bool)
    requires start <= at <= buffer.Length
    requires forall i :: start <= i < buffer.Length ==> buffer[i] == pad
    modifies buffer
    ensures ok <==> Fits(tokens, at - start)
    ensures ok ==> buffer[..at] == old(buffer[..start]) + Spread(tokens, at - start)
    ensures ok ==> forall i :: at <= i < buffer.Length ==> buffer[i] == pad
  {
    ghost var was := buffer[..];
    ok := AssignSlice(buffer, start, at, tokens);
    if ok {
      assert forall i :: at <= i < buffer.Length ==> buffer[i] == buffer[at..][i - at] == was[i];
      assert buffer[..at] == buffer[..start] + buffer[start..at];
    }
  }

  /** Writes `tokens`, if any, over the first of n blank places. */
  method WriteBack<T>(buffer: array<T>, at: nat, n: nat, tokens: seq<T>, pad: T)
    requires at + n <= buffer.Length && |tokens| <= n
    requires forall i :: at <= i < buffer.Length ==> buffer[i] == pad
    modifies buffer
    ensures buffer[..at] == old(buffer[..at])
    ensures buffer[at..at + n] == tokens + Repeat(pad, n - |tokens|)
    ensures forall i :: at + n <= i < buffer.Length ==> buffer[i] == pad
  {
    if |tokens| > 0 {
      var end := at + |tokens|;
      ghost var was := buffer[..];
      var ok := AssignSlice(buffer, at, end, tokens);
      assert forall i :: end <= i < buffer.Length ==> buffer[i] == buffer[end..][i - end] == was[i];
      assert buffer[at..at + n] == buffer[at..end] + buffer[end..at + n];
    }
  }

  method WriteRow<T>(buffer: array<T>, start: nat, w: RowWrite<T>, pad: T) returns (ok: bool)
    requires w.Ok() && start + w.share <= buffer.Length
    requires forall i :: start <= i < buffer.Length ==> buffer[i] == pad
    modifies buffer
    ensures ok <==> w.CanWrite()
    ensures ok ==> buffer[..start + w.share] == old(buffer[..start]) + w.Result(pad)
    ensures ok ==> forall i :: start + w.share <= i < buffer.Length ==> buffer[i] == pad
  {
    var at := start + w.n;
    ok := WriteFront(buffer, start, at, w.front, pad);
    if !ok { return; }
    ghost var head := buffer[..at];
    WriteBack(buffer, at, w.share - w.n, w.back, pad);
    RowJoins(buffer[..start + w.share], old(buffer[..start]), head, w, pad);
  }

  /** Where the first i rows' stretches end. */
  function EndOf<T>(ws: seq<RowWrite<T>>, i: nat): nat
    requires i <= |ws|
  {
    if i == 0 then 0 else EndOf(ws, i - 1) + ws[i - 1].share
  }

  lemma {:induction false} EndMonotonic<T>(ws: seq<RowWrite<T>>, i: nat, j: nat)
    requires i <= j <= |ws|
    ensures EndOf(ws, i) <= EndOf(ws, j)
  {
    if i < j { EndMonotonic(ws, i, j - 1); }
  }

  predicate AllCanWrite<T>(ws: seq<RowWrite<T>>) {
    forall i :: 0 <= i < |ws| ==> ws[i].CanWrite()
  }

  /** The buffer after the first i rows. */
  function Content<T>(ws: seq<RowWrite<T>>, i: nat, pad: T): (c: seq<T>)
    requires i <= |ws| && forall n :: 0 <= n < i ==> ws[n].CanWrite()
    ensures |c| == EndOf(ws, i)
  {
    if i == 0 then [] else Content(ws, i - 1, pad) + ws[i - 1].Result(pad)
  }

  /** The loop over the rows; `starts` are the code's `start_idx` values. */
  method PackInto<T>(buffer: array<T>, starts: seq<nat>, ws: seq<RowWrite<T>>, pad: T) returns (ok: bool)
    requires |starts| == |ws| && (forall i {:trigger starts[i]} :: 0 <= i < |ws| ==> starts[i] == EndOf(ws, i))
    requires buffer.Length == EndOf(ws, |ws|) && forall x :: 0 <= x < buffer.Length ==> buffer[x] == pad
    requires forall i :: 0 <= i < |ws| ==> ws[i].Ok()
    modifies buffer
    ensures ok <==> AllCanWrite(ws)
    ensures ok ==> buffer[..] == Content(ws, |ws|, pad)
  {
    for i := 0 to |ws|
      invariant EndOf(ws, i) <= buffer.Length
      invariant forall n :: 0 <= n < i ==> ws[n].CanWrite()
      invariant buffer[..EndOf(ws, i)] == Content(ws, i, pad)
      invariant forall x :: EndOf(ws, i) <= x < buffer.Length ==> buffer[x] == pad
    {
      EndMonotonic(ws, i + 1, |ws|);
      ok := WriteRow(buffer, starts[i], ws[i], pad);
      if !ok { return; }
    }
    ok := true;
    assert buffer[..] == buffer[..buffer.Length];
  }

  lemma StretchedAt<T>(m: Mesh, d: seq<T>, pad: T, x: nat)
    requires m.Ok() && x < Padded(m, |d|)
    ensures Stretched(m, d, pad)[x]
         == if x < |d| then d[x]
            else if m.cp > 1 && 0 < |d| && x < m.cp * Half(m, |d|) then d[|d| - 1] else pad
  {
  }

  /** A front slice, spread if it is a lone token, is the front slice of the stretched sequence. */
  lemma FrontIsSlice<T>(m: Mesh, d: seq<T>, pad: T, r: nat)
    requires m.Ok() && r < m.cp && m.cp > 1 && Packable(m, |d|) && Writable(m, d, r)
    ensures var h := Half(m, |d|);
      0 <= h * r <= h * (r + 1) <= Padded(m, |d|) &&
      Spread(Front(m, d, r), h) == Stretched(m, d, pad)[h * r..h * (r + 1)]
  {
    var p, h, front := Stretched(m, d, pad), Half(m, |d|), Front(m, d, r);
    BackSlice(m, |d|, r);
    FrontLength(m, d, r);
    if |front| != h {
      assert |d| < m.cp * h && |d| == h * r + 1;
      forall x | h * r <= x < h * (r + 1) ensures p[x] == d[|d| - 1] {
        StretchedAt(m, d, pad, x);
      }
    }
  }

  lemma BackIsSlice<T>(m: Mesh, d: seq<T>, pad: T, r: nat)
    requires m.Ok() && r < m.cp && m.cp > 1
    ensures var h := Half(m, |d|); var p := Padded(m, |d|); var back := BackTokens(m, d, r);
      0 <= p - h * (r + 1) <= p - h * r <= p &&
      back + Repeat(pad, h - |back|) == Stretched(m, d, pad)[p - h * (r + 1)..p - h * r]
  {
    var h, p, back := Half(m, |d|), Padded(m, |d|), BackTokens(m, d, r);
    BackSlice(m, |d|, r);
    var from := p - h * (r + 1);
    var w := back + Repeat(pad, h - |back|);
    forall x | 0 <= x < h ensures w[x] == Stretched(m, d, pad)[from + x] {
      StretchedAt(m, d, pad, from + x);
    }
  }

  lemma WriteOfWritable<T>(m: Mesh, d: seq<T>, r: nat)
    requires m.Ok() && r < m.cp
    ensures WriteOf(m, d, r).CanWrite() <==> Writable(m, d, r)
  {
  }

  lemma SplitWriteIsSegment<T>(m: Mesh, d: seq<T>, pad: T, r: nat)
    requires m.Ok() && r < m.cp && m.cp > 1 && Packable(m, |d|) && Writable(m, d, r)
    ensures WriteOf(m, d, r).CanWrite() && WriteOf(m, d, r).Result(pad) == Segment(m, d, pad, r)
  {
    HalvesFill(m, |d|);
    FrontIsSlice(m, d, pad, r);
    BackIsSlice(m, d, pad, r);
    BackSlice(m, |d|, r);
    ResultIsPair(WriteOf(m, d, r), pad);
  }

  lemma WholeWriteIsSegment<T>(m: Mesh, d: seq<T>, pad: T, r: nat)
    requires m.Ok() && r < m.cp && m.cp <= 1
    ensures WriteOf(m, d, r).CanWrite() && WriteOf(m, d, r).Result(pad) == Segment(m, d, pad, r)
  {
    HalvesFill(m, |d|);
    PaddedBounds(m, |d|);
    var blanks := Repeat(pad, Share(m, |d|) - |d|);
    assert [] + blanks == blanks;
  }

  /** For packable lengths the two writes store exactly the rank's segment. */
  lemma WriteIsSegment<T>(m: Mesh, d: seq<T>, pad: T, r: nat)
    requires m.Ok() && r < m.cp && Packable(m, |d|)
    ensures WriteOf(m, d, r).CanWrite()
    ensures WriteOf(m, d, r).Result(pad) == Segment(m, d, pad, r)
  {
    PackableWritable(m, d, r);
    WriteOfWritable(m, d, r);
    if m.cp > 1 { SplitWriteIsSegment(m, d, pad, r); } else { WholeWriteIsSegment(m, d, pad, r); }
  }

  function Writes<T>(m: Mesh, ds: seq<seq<T>>, r: nat): (ws: seq<RowWrite<T>>)
    requires m.Ok() && r < m.cp
    ensures |ws| == |ds| && forall i :: 0 <= i < |ds| ==> ws[i] == WriteOf(m, ds[i], r)
  {
    seq(|ds|, i requires 0 <= i < |ds| => WriteOf(m, ds[i], r))
  }

  lemma {:induction false} EndIsStart<T>(m: Mesh, ds: seq<seq<T>>, r: nat, i: nat)
    requires m.Ok() && r < m.cp && i <= |ds|
    ensures EndOf(Writes(m, ds, r), i) == Start(m, ds, i)
  {
    if i > 0 { EndIsStart(m, ds, r, i - 1); }
  }

  /** `start_idx` */
  function StartIdx<T>(m: Mesh, ds: seq<seq<T>>, i: nat): nat
    requires m.Ok() && i <= |ds|
  {
    QuotientNonNegative(CuPadded(m, ds, i), m.cp);
    CuPadded(m, ds, i) / m.cp
  }

  function Starts<T>(m: Mesh, ds: seq<seq<T>>): (ss: seq<nat>)
    requires m.Ok()
    ensures |ss| == |ds| && forall i {:trigger ss[i]} :: 0 <= i < |ds| ==> ss[i] == StartIdx(m, ds, i)
  {
    seq(|ds|, i requires 0 <= i < |ds| => StartIdx(m, ds, i))
  }

  /** The code's start index of a row is where the stretches of the rows before it end. */
  lemma StartsTile<T>(m: Mesh, ds: seq<seq<T>>, r: nat, i: nat)
    requires m.Ok() && r < m.cp && i <= |ds|
    ensures StartIdx(m, ds, i) == EndOf(Writes(m, ds, r), i)
  {
    StartIsQuotient(m, ds, i);
    EndIsStart(m, ds, r, i);
  }

  /** A batch with rows, all of a packable length; the maximum taken over no rows is an error. */
  predicate AllPackable<T>(m: Mesh, ds: seq<seq<T>>) {
    |ds| > 0 && forall i :: 0 <= i < |ds| ==> Packable(m, |ds[i]|)
  }

  /** There are rows, and every row's slice assignments fit on rank r. */
  predicate RankPacks<T>(m: Mesh, ds: seq<seq<T>>, r: nat)
    requires m.Ok() && r < m.cp
  {
    |ds| > 0 && AllCanWrite(Writes(m, ds, r))
  }

  /** All ranks can pack the batch exactly when every row's length is packable. */
  lemma PackSucceedsIff<T>(m: Mesh, ds: seq<seq<T>>)
    requires m.Ok()
    ensures (forall r :: 0 <= r < m.cp ==> RankPacks(m, ds, r)) <==> AllPackable(m, ds)
  {
    if AllPackable(m, ds) {
      forall r, i | 0 <= r < m.cp && 0 <= i < |ds| ensures Writes(m, ds, r)[i].CanWrite() {
        PackableWritable(m, ds[i], r);
        WriteOfWritable(m, ds[i], r);
      }
    }
    if forall r :: 0 <= r < m.cp ==> RankPacks(m, ds, r) {
      assert RankPacks(m, ds, 0);
      forall i | 0 <= i < |ds| ensures Packable(m, |ds[i]|) {
        forall r | 0 <= r < m.cp ensures Writable(m, ds[i], r) {
          assert RankPacks(m, ds, r) && Writes(m, ds, r)[i].CanWrite();
          WriteOfWritable(m, ds[i], r);
        }
        WritableIffPackable(m, ds[i]);
      }
    }
  }

  lemma {:induction false} ContentIsFlatten<T>(ws: seq<RowWrite<T>>, gs: seq<seq<T>>, i: nat, pad: T)
    requires i <= |ws| == |gs|
    requires forall n :: 0 <= n < |ws| ==> ws[n].CanWrite() && ws[n].Result(pad) == gs[n]
    ensures Content(ws, i, pad) == Flatten(gs[..i])
  {
    if i > 0 {
      ContentIsFlatten(ws, gs, i - 1, pad);
      FlattenTake(gs, i);
    }
  }

  /** ... and then each rank stores exactly its segments. */
  lemma ContentIsPacked<T>(m: Mesh, ds: seq<seq<T>>, pad: T, r: nat)
    requires m.Ok() && r < m.cp && AllPackable(m, ds)
    ensures RankPacks(m, ds, r) && Content(Writes(m, ds, r), |ds|, pad) == Packed(m, ds, pad, r)
  {
    var ws, gs := Writes(m, ds, r), Segments(m, ds, pad, r);
    forall i | 0 <= i < |ds| ensures ws[i].CanWrite() && ws[i].Result(pad) == gs[i] {
      WriteIsSegment(m, ds[i], pad, r);
    }
    ContentIsFlatten(ws, gs, |ds|, pad);
    TakeAll(gs, |ds|);
  }

  /** The padded row boundaries, as carried in the packing parameters. */
  function Boundaries<T>(m: Mesh, ds: seq<seq<T>>): (cu: seq<nat>)
    requires m.Ok()
    ensures |cu| == |ds| + 1 && forall i {:trigger cu[i]} :: 0 <= i <= |ds| ==> cu[i] == CuPadded(m, ds, i)
  {
    seq(|ds| + 1, i requires 0 <= i <= |ds| => CuPadded(m, ds, i))
  }

  /** The row boundaries begin at 0 and are apart by the rows' lengths, rounded up. */
  lemma BoundariesRound<T>(m: Mesh, ds: seq<seq<T>>, i: nat)
    requires m.Ok() && i < |ds|
    ensures Boundaries(m, ds)[0] == 0
    ensures var width := Boundaries(m, ds)[i + 1] - Boundaries(m, ds)[i];
      if m.cp <= 1 then RoundedUp(width, |ds[i]|, m.tp)
      else 2 * (m.tp * m.cp) >= 1 && RoundedUp(width, |ds[i]|, 2 * (m.tp * m.cp))
  {
    PaddedRounds(m, |ds[i]|);
  }

  /** Buffers of the size that the code computes, one per rank, have room for all padded rows, and no more. */
  lemma BufferRoom<T>(m: Mesh, ds: seq<seq<T>>)
    requires m.Ok()
    ensures m.cp * StartIdx(m, ds, |ds|) == Boundaries(m, ds)[|ds|]
  {
    StartIsQuotient(m, ds, |ds|);
  }

  /** `preprocess_packed_seqs` on rank r, given each row's tokens. */
  method PackRank<T(0)>(m: Mesh, ds: seq<seq<T>>, pad: T, r: nat) returns (packed: Option<seq<T>>)
    requires m.Ok() && r < m.cp
    ensures packed.Some? <==> RankPacks(m, ds, r)
    ensures AllPackable(m, ds) ==> packed.Some? && packed.value == Packed(m, ds, pad, r)
    ensures packed.Some? ==> |packed.value| == StartIdx(m, ds, |ds|)
  {
    if |ds| == 0 { return None; }
    var buffer := new T[StartIdx(m, ds, |ds|)](_ => pad);
    var starts := Starts(m, ds);
    forall i | 0 <= i < |ds| ensures starts[i] == EndOf(Writes(m, ds, r), i) { StartsTile(m, ds, r, i); }
    StartsTile(m, ds, r, |ds|);
    var ok := PackInto(buffer, starts, Writes(m, ds, r), pad);
    if AllPackable(m, ds) { ContentIsPacked(m, ds, pad, r); }
    return if ok then Some(buffer[..]) else None;
  }

  // ---------- postprocess_packed_seqs ----------

  /** The front halves of the first j ranks' chunks, in rank order. */
  function Fronts<T>(chunks: seq<seq<T>>, h: nat, j: nat): (f: seq<T>)
    requires j <= |chunks| && AllOfSize(chunks, 2 * h)
  {
    if j == 0 then [] else Fronts(chunks, h, j - 1) + chunks[j - 1][..h]
  }

  /** Their back halves, in reverse rank order. */
  function Backs<T>(chunks: seq<seq<T>>, h: nat, j: nat): (b: seq<T>)
    requires j <= |chunks| && AllOfSize(chunks, 2 * h)
  {
    if j == 0 then [] else chunks[j - 1][h..] + Backs(chunks, h, j - 1)
  }

  /** The padded row that the ranks' chunks were cut from. */
  function Joined<T>(chunks: seq<seq<T>>, h: nat): (p: seq<T>)
    requires AllOfSize(chunks, 2 * h)
  {
    Fronts(chunks, h, |chunks|) + Backs(chunks, h, |chunks|)
  }

  lemma {:induction false} JoinedSizes<T>(chunks: seq<seq<T>>, h: nat, j: nat)
    requires j <= |chunks| && AllOfSize(chunks, 2 * h)
    ensures |Fronts(chunks, h, j)| == |Backs(chunks, h, j)| == j * h
  {
    if j > 0 {
      JoinedSizes(chunks, h, j - 1);
      assert j * h == (j - 1) * h + h;
    }
  }

  lemma SlotBounds(h: nat, j: nat, cp: nat)
    requires j < cp
    ensures (j + 1) * h == j * h + h <= cp * h && 0 <= j * h
    ensures 2 * h * cp == cp * h + cp * h
  {
    MulMonotonic(h, j + 1, cp);
  }

  /** Rank j's two slice assignments. */
  method JoinSlot<T>(tmp: array<T>, from: nat, to: nat, chunk: seq<T>, h: nat)
    requires to == from + h && |chunk| == 2 * h && 2 * to <= tmp.Length
    modifies tmp
    ensures tmp[..to] == old(tmp[..from]) + chunk[..h]
    ensures tmp[tmp.Length - to..] == chunk[h..] + old(tmp[tmp.Length - from..])
  {
    var p := tmp.Length;
    ghost var was := tmp[..];
    var ok := AssignSlice(tmp, from, to, chunk[..h]);
    ghost var mid := tmp[..];
    assert mid[..to] == was[..from] + chunk[..h] by { assert mid[..to] == tmp[..from] + tmp[from..to]; }
    assert mid[p - from..] == was[p - from..] by {
      assert mid[p - from..] == tmp[to..][p - from - to..] && was[p - from..] == was[to..][p - from - to..];
    }
    ok := AssignSlice(tmp, p - to, p - from, chunk[h..]);
    assert tmp[..to] == tmp[..p - to][..to] == mid[..to];
    assert tmp[p - to..] == tmp[p - to..p - from] + tmp[p - from..];
  }

  lemma HalvesJoin<T>(s: seq<T>, half: nat)
    requires |s| == half + half
    ensures s == s[..half] + s[|s| - half..]
  {
  }

  /** The loop over the ranks that fills `tmp` from both ends towards the middle. */
  method JoinChunks<T(0)>(chunks: seq<seq<T>>, h: nat) returns (joined: seq<T>)
    requires |chunks| >= 1 && AllOfSize(chunks, 2 * h)
    ensures joined == Joined(chunks, h)
  {
    SlotBounds(h, 0, |chunks|);
    var tmp := new T[2 * h * |chunks|];
    var p := tmp.Length;
    for j := 0 to |chunks|
      invariant 0 <= j * h <= p - j * h
      invariant tmp[..j * h] == Fronts(chunks, h, j)
      invariant tmp[p - j * h..] == Backs(chunks, h, j)
    {
      SlotBounds(h, j, |chunks|);
      JoinSlot(tmp, j * h, (j + 1) * h, chunks[j], h);
    }
    joined := tmp[..];
    SlotBounds(h, |chunks| - 1, |chunks|);
    HalvesJoin(joined, |chunks| * h);
  }

  /** A row of s tokens laid out over places from..to of the padded batch can be read back. */
  predicate RowReadable<T>(m: Mesh, pieces: seq<seq<T>>, from: nat, to: nat, s: nat) {
    && m.Ok() && |pieces| == m.cp && from + s <= to
    && if m.cp <= 1 then to <= |pieces[0]|
       else
         var share := (to - from) / m.cp;
         share * m.cp == to - from && share % 2 == 0 && forall j :: 0 <= j < m.cp ==> from / m.cp + share <= |pieces[j]|
  }

  /** Every rank's chunk of the row. */
  function ChunksOf<T>(m: Mesh, pieces: seq<seq<T>>, from: nat, to: nat): (chunks: seq<seq<T>>)
    requires RowReadable(m, pieces, from, to, 0) && m.cp > 1
    ensures |chunks| == m.cp && AllOfSize(chunks, (to - from) / m.cp)
  {
    QuotientNonNegative(from, m.cp);
    QuotientNonNegative(to - from, m.cp);
    seq(m.cp, j requires 0 <= j < m.cp => pieces[j][from / m.cp..from / m.cp + (to - from) / m.cp])
  }

  /** The s values of a row, read from the gathered buffers. */
  function RowValues<T>(m: Mesh, pieces: seq<seq<T>>, from: nat, to: nat, s: nat): (values: seq<T>)
    requires RowReadable(m, pieces, from, to, s)
    ensures |values| == s
  {
    if m.cp <= 1 then pieces[0][from..from + s]
    else
      QuotientNonNegative(to - from, m.cp);
      var h := (to - from) / m.cp / 2;
      var chunks := ChunksOf(m, pieces, from, to);
      JoinedSizes(chunks, h, m.cp);
      SlotBounds(h, m.cp - 1, m.cp);
      Joined(chunks, h)[..s]
  }

  method ReadRow<T(0)>(m: Mesh, pieces: seq<seq<T>>, from: nat, to: nat, s: nat) returns (values: seq<T>)
    requires RowReadable(m, pieces, from, to, s)
    ensures values == RowValues(m, pieces, from, to, s)
  {
    if m.cp <= 1 {
      return pieces[0][from..from + s];
    }
    QuotientNonNegative(to - from, m.cp);
    var h := (to - from) / m.cp / 2;
    var tmp := JoinChunks(ChunksOf(m, pieces, from, to), h);
    JoinedSizes(ChunksOf(m, pieces, from, to), h, m.cp);
    SlotBounds(h, m.cp - 1, m.cp);
    return tmp[..s];
  }

  /** What `postprocess_packed_seqs` is handed: the padded row boundaries fit the masks and the buffers. */
  predicate Readable<T>(m: Mesh, pieces: seq<seq<T>>, cu: seq<nat>, masks: seq<seq<bool>>) {
    && |cu| == |masks| + 1
    && forall i {:trigger masks[i]} :: 0 <= i < |masks| ==> RowReadable(m, pieces, cu[i], cu[i + 1], Count(masks[i]))
  }

  function RowRestored<T>(m: Mesh, pieces: seq<seq<T>>, from: nat, to: nat, mask: seq<bool>, blank: T): (row: seq<T>)
    requires RowReadable(m, pieces, from, to, Count(mask))
    ensures |row| == |mask|
  {
    Scatter(mask, RowValues(m, pieces, from, to, Count(mask)), blank)
  }

  /** `postprocess_packed_seqs`, given the gathered buffers. */
  method Unpack<T(0)>(m: Mesh, pieces: seq<seq<T>>, cu: seq<nat>, masks: seq<seq<bool>>, blank: T)
    returns (rows: seq<seq<T>>)
    requires Readable(m, pieces, cu, masks)
    ensures |rows| == |masks|
    ensures forall i {:trigger rows[i]} :: 0 <= i < |masks| ==>
      rows[i] == RowRestored(m, pieces, cu[i], cu[i + 1], masks[i], blank)
  {
    var output := new seq<T>[|masks|](i requires 0 <= i < |masks| => Repeat(blank, |masks[i]|));
    for i := 0 to |masks|
      invariant forall n {:trigger output[n]} :: 0 <= n < i ==>
        output[n] == RowRestored(m, pieces, cu[n], cu[n + 1], masks[n], blank)
    {
      var values := ReadRow(m, pieces, cu[i], cu[i + 1], Count(masks[i]));
      output[i] := Scatter(masks[i], values, blank);
    }
    return output[..];
  }

  // ---------- packing, then unpacking ----------

  ghost predicate CutFrom<T>(p: seq<T>, h: nat, j: nat, chunk: seq<T>) {
    var from, to := h * j, h * (j + 1);
    0 <= from <= to <= |p| - to && chunk == Cut(p, from, to)
  }

  lemma SlicesMeet<T>(p: seq<T>, from: nat, to: nat, chunk: seq<T>)
    requires from <= to <= |p| - to && chunk == Cut(p, from, to)
    ensures p[..from] + chunk[..to - from] == p[..to]
    ensures chunk[to - from..] + p[|p| - from..] == p[|p| - to..]
  {
    assert chunk[..to - from] == p[from..to];
    assert chunk[to - from..] == p[|p| - to..|p| - from];
  }

  lemma CutsJoinStep<T>(p: seq<T>, h: nat, chunks: seq<seq<T>>, j: nat, from: nat, to: nat)
    requires 0 < j <= |chunks| && AllOfSize(chunks, 2 * h) && to == from + h && 2 * to <= |p|
    requires Fronts(chunks, h, j - 1) == p[..from] && Backs(chunks, h, j - 1) == p[|p| - from..]
    requires chunks[j - 1] == Cut(p, from, to)
    ensures Fronts(chunks, h, j) == p[..to] && Backs(chunks, h, j) == p[|p| - to..]
  {
    SlicesMeet(p, from, to, chunks[j - 1]);
  }

  lemma NextCut<T>(p: seq<T>, h: nat, j: nat, chunk: seq<T>)
    requires CutFrom(p, h, j, chunk)
    ensures 0 <= h * j && h * (j + 1) == h * j + h && h * (j + 1) <= |p| - h * (j + 1)
    ensures chunk == Cut(p, h * j, h * (j + 1))
  {
  }

  /** The first j chunks join to the two ends of the sequence. */
  predicate EndsJoined<T(==)>(p: seq<T>, h: nat, chunks: seq<seq<T>>, j: nat)
    requires j <= |chunks| && AllOfSize(chunks, 2 * h)
  {
    0 <= h * j <= |p| - h * j &&
    Fronts(chunks, h, j) == p[..h * j] && Backs(chunks, h, j) == p[|p| - h * j..]
  }

  lemma CutsJoinNext<T>(p: seq<T>, h: nat, chunks: seq<seq<T>>, j: nat)
    requires j < |chunks| && AllOfSize(chunks, 2 * h) && EndsJoined(p, h, chunks, j) && CutFrom(p, h, j, chunks[j])
    ensures EndsJoined(p, h, chunks, j + 1)
  {
    NextCut(p, h, j, chunks[j]);
    CutsJoinStep(p, h, chunks, j + 1, h * j, h * (j + 1));
  }

  lemma CutsJoinTo<T>(p: seq<T>, h: nat, chunks: seq<seq<T>>)
    requires AllOfSize(chunks, 2 * h)
    requires forall n :: 0 <= n < |chunks| ==> CutFrom(p, h, n, chunks[n])
    ensures EndsJoined(p, h, chunks, |chunks|)
  {
    assert h * 0 == 0;
    for j := 0 to |chunks|
      invariant EndsJoined(p, h, chunks, j)
    {
      CutsJoinNext(p, h, chunks, j);
    }
  }

  /** Chunks cut from one even sequence join to that sequence. */
  lemma CutsJoin<T>(p: seq<T>, h: nat, chunks: seq<seq<T>>)
    requires AllOfSize(chunks, 2 * h) && |p| == h * |chunks| + h * |chunks|
    requires forall j :: 0 <= j < |chunks| ==> CutFrom(p, h, j, chunks[j])
    ensures Joined(chunks, h) == p
  {
    CutsJoinTo(p, h, chunks);
    assert p == p[..h * |chunks|] + p[h * |chunks|..];
  }

  /** The ranks' segments of a row, joined, are the stretched row again. */
  lemma SegmentsJoin<T>(m: Mesh, d: seq<T>, pad: T, chunks: seq<seq<T>>)
    requires m.Ok() && m.cp > 1 && |chunks| == m.cp
    requires AllOfSize(chunks, 2 * Half(m, |d|))
    requires forall j :: 0 <= j < m.cp ==> chunks[j] == Segment(m, d, pad, j)
    ensures Joined(chunks, Half(m, |d|)) == Stretched(m, d, pad)
  {
    HalvesFill(m, |d|);
    forall j | 0 <= j < m.cp ensures CutFrom(Stretched(m, d, pad), Half(m, |d|), j, chunks[j]) {
      BackSlice(m, |d|, j);
    }
    CutsJoin(Stretched(m, d, pad), Half(m, |d|), chunks);
  }

  /** The buffers gathered after every rank has packed the batch. */
  ghost predicate Gathered<T>(m: Mesh, ds: seq<seq<T>>, pad: T, pieces: seq<seq<T>>)
    requires m.Ok()
  {
    |pieces| == m.cp && forall r :: 0 <= r < m.cp ==> pieces[r] == Packed(m, ds, pad, r)
  }

  lemma BoundaryShare<T>(m: Mesh, ds: seq<seq<T>>, i: nat)
    requires m.Ok() && i < |ds|
    ensures CuPadded(m, ds, i + 1) - CuPadded(m, ds, i) == Padded(m, |ds[i]|) == Share(m, |ds[i]|) * m.cp
    ensures CuPadded(m, ds, i) / m.cp == Start(m, ds, i)
  {
    HalvesFill(m, |ds[i]|);
    StartIsQuotient(m, ds, i);
  }

  /** Reading a row whose chunks all lie at `start`. */
  lemma ReadsFrom<T>(m: Mesh, pieces: seq<seq<T>>, from: nat, to: nat, s: nat, start: nat, share: nat)
    requires m.Ok() && |pieces| == m.cp && from + s <= to && (m.cp > 1 ==> share % 2 == 0)
    requires from / m.cp == start && to - from == share * m.cp && (m.cp <= 1 ==> from == start)
    requires forall j :: 0 <= j < m.cp ==> start + share <= |pieces[j]|
    ensures (to - from) / m.cp == share
    ensures RowReadable(m, pieces, from, to, s)
  {
    DivModUnique(to - from, m.cp, share, 0);
  }

  lemma RowChunks<T>(m: Mesh, d: seq<T>, pad: T, pieces: seq<seq<T>>, from: nat, to: nat, start: nat, share: nat)
    requires m.Ok() && |pieces| == m.cp && share == Share(m, |d|)
    requires from / m.cp == start && to - from == share * m.cp && (m.cp <= 1 ==> from == start)
    requires forall j :: 0 <= j < m.cp ==> HeldAt(m, d, pad, j, pieces[j], start)
    ensures RowReadable(m, pieces, from, to, |d|) && RowValues(m, pieces, from, to, |d|) == d
  {
    HalvesFill(m, |d|);
    PaddedBounds(m, |d|);
    ReadsFrom(m, pieces, from, to, |d|, start, share);
    if m.cp <= 1 {
      assert HeldAt(m, d, pad, 0, pieces[0], start);
      assert pieces[0][start..start + |d|] == pieces[0][start..start + share][..|d|];
    } else {
      var chunks := ChunksOf(m, pieces, from, to);
      forall j | 0 <= j < m.cp ensures chunks[j] == Segment(m, d, pad, j) {
        assert HeldAt(m, d, pad, j, pieces[j], start);
      }
      SegmentsJoin(m, d, pad, chunks);
    }
  }

  /** Reading a packed row back yields its tokens. */
  lemma PackedReadsBack<T>(m: Mesh, ds: seq<seq<T>>, pad: T, pieces: seq<seq<T>>, i: nat)
    requires m.Ok() && i < |ds| && Gathered(m, ds, pad, pieces)
    ensures RowReadable(m, pieces, CuPadded(m, ds, i), CuPadded(m, ds, i + 1), |ds[i]|)
    ensures RowValues(m, pieces, CuPadded(m, ds, i), CuPadded(m, ds, i + 1), |ds[i]|) == ds[i]
  {
    BoundaryShare(m, ds, i);
    StartIsQuotient(m, ds, i);
    forall j | 0 <= j < m.cp ensures HeldAt(m, ds[i], pad, j, pieces[j], Start(m, ds, i)) {
      SegmentHeld(m, ds, pad, i, j);
    }
    RowChunks(m, ds[i], pad, pieces, CuPadded(m, ds, i), CuPadded(m, ds, i + 1), Start(m, ds, i), Share(m, |ds[i]|));
  }

  /**
   Packing and unpacking are inverse: whatever the padding, a batch packed on every rank and unpacked from
   the gathered buffers gives back each row's masked positions, with blanks elsewhere.
   */
  lemma PackUnpackRoundTrip<T>(m: Mesh, rows: seq<seq<T>>, masks: seq<seq<bool>>, pad: T, blank: T,
      pieces: seq<seq<T>>)
    requires m.Ok() && |rows| == |masks| && forall i :: 0 <= i < |rows| ==> |rows[i]| == |masks[i]|
    requires Gathered(m, Tokens(rows, masks), pad, pieces)
    ensures var cu := Boundaries(m, Tokens(rows, masks));
      Readable(m, pieces, cu, masks) && forall i {:trigger cu[i]} :: 0 <= i < |rows| ==>
        RowRestored(m, pieces, cu[i], cu[i + 1], masks[i], blank) == Masked(rows[i], masks[i], blank)
  {
    var ds := Tokens(rows, masks);
    var cu := Boundaries(m, ds);
    forall i | 0 <= i < |rows|
      ensures RowReadable(m, pieces, cu[i], cu[i + 1], Count(masks[i]))
      ensures RowRestored(m, pieces, cu[i], cu[i + 1], masks[i], blank) == Masked(rows[i], masks[i], blank)
    {
      CompressLength(rows[i], masks[i]);
      PackedReadsBack(m, ds, pad, pieces, i);
      ScatterCompress(rows[i], masks[i], blank);
    }
  }

  function AllPacked<T>(m: Mesh, ds: seq<seq<T>>, pad: T): (pieces: seq<seq<T>>)
    requires m.Ok()
    ensures |pieces| == m.cp && forall r :: 0 <= r < m.cp ==> pieces[r] == Packed(m, ds, pad, r)
  {
    seq(m.cp, r requires 0 <= r < m.cp => Packed(m, ds, pad, r))
  }

  lemma TakeNext<T>(s: seq<T>, n: nat)
    requires n < |s|
    ensures s[..n + 1] == s[..n] + [s[n]]
  {
  }

  /** A rank that stops the exchange, if there is one. */
  lemma FailingRank<T>(m: Mesh, ds: seq<seq<T>>) returns (r: nat)
    requires m.Ok()
    ensures !AllPackable(m, ds) ==> r < m.cp && !RankPacks(m, ds, r)
  {
    PackSucceedsIff(m, ds);
    if AllPackable(m, ds) {
      r := 0;
    } else {
      r :| r < m.cp && !RankPacks(m, ds, r);
    }
  }

  /** Packing on one of the ranks, one of which stops the exchange if any does. */
  method PackNextRank<T(0)>(m: Mesh, ds: seq<seq<T>>, pad: T, r: nat, ghost failing: nat)
    returns (packed: Option<seq<T>>)
    requires m.Ok() && r < m.cp && (!AllPackable(m, ds) ==> failing < m.cp && !RankPacks(m, ds, failing))
    ensures AllPackable(m, ds) ==> packed == Some(AllPacked(m, ds, pad)[r])
    ensures !AllPackable(m, ds) && r == failing ==> packed.None?
  {
    packed := PackRank(m, ds, pad, r);
  }

  /** Every rank packs the batch and the buffers are gathered. */
  method PackAllRanks<T(0)>(m: Mesh, ds: seq<seq<T>>, pad: T) returns (pieces: Option<seq<seq<T>>>)
    requires m.Ok()
    ensures pieces.Some? <==> AllPackable(m, ds)
    ensures pieces.Some? ==> Gathered(m, ds, pad, pieces.value)
  {
    var gathered: seq<seq<T>> := [];
    ghost var all := AllPacked(m, ds, pad);
    ghost var failing := FailingRank(m, ds);
    for r := 0 to m.cp
      invariant AllPackable(m, ds) || r <= failing
      invariant AllPackable(m, ds) ==> gathered == all[..r]
    {
      var packed := PackNextRank(m, ds, pad, r, failing);
      if packed.None? { return None; }
      TakeNext(all, r);
      gathered := gathered + [packed.value];
    }
    return Some(gathered);
  }

  /** A whole exchange: pack on every rank, gather, unpack. */
  method PackAndUnpack<T(0)>(m: Mesh, rows: seq<seq<T>>, masks: seq<seq<bool>>, pad: T)
    returns (restored: Option<seq<seq<T>>>)
    requires m.Ok() && |rows| == |masks| && forall i :: 0 <= i < |rows| ==> |rows[i]| == |masks[i]|
    ensures restored.Some? <==> |masks| > 0 && forall i :: 0 <= i < |masks| ==> Packable(m, Count(masks[i]))
    ensures restored.Some? ==> |restored.value| == |rows|
    ensures restored.Some? ==> forall i :: 0 <= i < |rows| ==> restored.value[i] == Masked(rows[i], masks[i], pad)
  {
    var ds := Tokens(rows, masks);
    forall i | 0 <= i < |rows| ensures |ds[i]| == Count(masks[i]) { CompressLength(rows[i], masks[i]); }
    var pieces := PackAllRanks(m, ds, pad);
    if pieces.None? { return None; }
    PackUnpackRoundTrip(m, rows, masks, pad, pad, pieces.value);
    var output := Unpack(m, pieces.value, Boundaries(m, ds), masks, pad);
    return Some(output);
  }

  /** One token on two context-parallel ranks with no tensor parallelism is refused. */
  lemma SingleTokenRefused<T>(token: T)
    ensures !Packable(Mesh(1, 2), 1)
    ensures !Writable(Mesh(1, 2), [token], 1)
  {
    ShortLastRank(Mesh(1, 2), [token]);
  }
}
