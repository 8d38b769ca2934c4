/**
 Sequence parallelism of verl/utils/ulysses.py, seen over all ranks of a group at once. A tensor is a sequence
 of rows (tokens), a row a sequence of heads; a world is one local tensor per rank.
 */
module Ulysses {
  import opened Arithmetic
  import opened Sequences
  import opened Blocks

  type Matrix<T> = seq<seq<T>>

  predicate IsMatrix<T>(x: Matrix<T>, rows: nat, heads: nat) {
    |x| == rows && AllOfSize(x, heads)
  }

  /** Every rank holds a tensor of this shape. */
  predicate IsWorld<T>(w: seq<Matrix<T>>, rows: nat, heads: nat) {
    forall r :: 0 <= r < |w| ==> IsMatrix(w[r], rows, heads)
  }

  // ---------- splitting, exchanging, joining ----------

  /** Heads of block i, for every token. */
  function HeadBlock<T>(x: Matrix<T>, h: nat, p: nat, i: nat): (y: Matrix<T>)
    requires AllOfSize(x, p * h) && i < p
    ensures IsMatrix(y, |x|, h) && forall t :: 0 <= t < |x| ==> y[t] == Block(x[t], h, p, i)
  {
    seq(|x|, t requires 0 <= t < |x| => Block(x[t], h, p, i))
  }

  /** `torch.tensor_split` along the heads, into p blocks of h. */
  function SplitHeads<T>(x: Matrix<T>, h: nat, p: nat): (ys: seq<Matrix<T>>)
    requires AllOfSize(x, p * h)
    ensures |ys| == p && IsWorld(ys, |x|, h) && forall i :: 0 <= i < p ==> ys[i] == HeadBlock(x, h, p, i)
  {
    seq(p, i requires 0 <= i < p => HeadBlock(x, h, p, i))
  }

  /** Token t of every piece. */
  function RowsAt<T>(ys: seq<Matrix<T>>, rows: nat, h: nat, t: nat): (r: seq<seq<T>>)
    requires IsWorld(ys, rows, h) && t < rows
    ensures |r| == |ys| && AllOfSize(r, h) && forall i :: 0 <= i < |ys| ==> r[i] == ys[i][t]
  {
    seq(|ys|, i requires 0 <= i < |ys| => ys[i][t])
  }

  /** `torch.cat` along the heads. */
  function CatHeads<T>(ys: seq<Matrix<T>>, rows: nat, h: nat): (x: Matrix<T>)
    requires IsWorld(ys, rows, h)
    ensures |x| == rows && forall t :: 0 <= t < rows ==> x[t] == Flatten(RowsAt(ys, rows, h, t))
  {
    seq(rows, t requires 0 <= t < rows => Flatten(RowsAt(ys, rows, h, t)))
  }

  lemma CatOfSplitHeads<T>(x: Matrix<T>, h: nat, p: nat)
    requires AllOfSize(x, p * h)
    ensures CatHeads(SplitHeads(x, h, p), |x|, h) == x
  {
    var ys := SplitHeads(x, h, p);
    forall t | 0 <= t < |x| ensures CatHeads(ys, |x|, h)[t] == x[t] {
      assert RowsAt(ys, |x|, h, t) == Cut(x[t], h, p);
      FlattenOfCut(x[t], h, p);
    }
  }

  /** `dist.all_to_all`: piece i of rank j becomes piece j of rank i. */
  function Exchange<M>(lists: seq<seq<M>>, p: nat): (r: seq<seq<M>>)
    requires |lists| == p && AllOfSize(lists, p)
    ensures |r| == p && AllOfSize(r, p) && forall i, j :: 0 <= i < p && 0 <= j < p ==> r[i][j] == lists[j][i]
  {
    seq(p, i requires 0 <= i < p => seq(p, j requires 0 <= j < p => lists[j][i]))
  }

  /** Exchanging twice gives everything back. */
  lemma ExchangeTwice<M>(lists: seq<seq<M>>, p: nat)
    requires |lists| == p && AllOfSize(lists, p)
    ensures Exchange(Exchange(lists, p), p) == lists
  {
    var r := Exchange(Exchange(lists, p), p);
    forall i | 0 <= i < p ensures r[i] == lists[i] {
      assert forall j :: 0 <= j < p ==> r[i][j] == lists[i][j];
    }
  }

  function AllSplitHeads<T>(w: seq<Matrix<T>>, rows: nat, h: nat): (r: seq<seq<Matrix<T>>>)
    requires IsWorld(w, rows, |w| * h)
    ensures |r| == |w| && AllOfSize(r, |w|) && forall j :: 0 <= j < |w| ==> r[j] == SplitHeads(w[j], h, |w|)
  {
    seq(|w|, j requires 0 <= j < |w| => SplitHeads(w[j], h, |w|))
  }

  function AllSplitRows<T>(w: seq<Matrix<T>>, s: nat, h: nat): (r: seq<seq<Matrix<T>>>)
    requires IsWorld(w, |w| * s, h)
    ensures |r| == |w| && AllOfSize(r, |w|) && forall j :: 0 <= j < |w| ==> r[j] == Cut(w[j], s, |w|)
  {
    seq(|w|, j requires 0 <= j < |w| => Cut(w[j], s, |w|))
  }

  /** `all_to_all_tensor` scattering the heads and gathering the tokens. */
  function HeadsToSeq<T>(w: seq<Matrix<T>>, rows: nat, h: nat): (r: seq<Matrix<T>>)
    requires IsWorld(w, rows, |w| * h)
    ensures |r| == |w|
  {
    var got := Exchange(AllSplitHeads(w, rows, h), |w|);
    seq(|w|, i requires 0 <= i < |w| => Flatten(got[i]))
  }

  lemma PiecesShaped<T>(w: seq<Matrix<T>>, s: nat, h: nat)
    requires IsWorld(w, |w| * s, h)
    ensures forall i :: 0 <= i < |w| ==> IsWorld(Exchange(AllSplitRows(w, s, h), |w|)[i], s, h)
  {
    forall i, j | 0 <= i < |w| && 0 <= j < |w| ensures IsMatrix(Exchange(AllSplitRows(w, s, h), |w|)[i][j], s, h) {
      SlotInRange(s, i, |w|);
    }
  }

  /** `all_to_all_tensor` scattering the tokens and gathering the heads. */
  function SeqToHeads<T>(w: seq<Matrix<T>>, s: nat, h: nat): (r: seq<Matrix<T>>)
    requires IsWorld(w, |w| * s, h)
    ensures |r| == |w|
  {
    var got := Exchange(AllSplitRows(w, s, h), |w|);
    PiecesShaped(w, s, h);
    seq(|w|, i requires 0 <= i < |w| => CatHeads(got[i], s, h))
  }

  /** Taking a head block commutes with joining tokens. */
  lemma {:induction false} HeadBlockOfJoined<T>(w: seq<Matrix<T>>, ys: seq<Matrix<T>>, rows: nat, h: nat, p: nat,
      i: nat, n: nat)
    requires IsWorld(w, rows, p * h) && i < p && n <= |w| == |ys|
    requires forall j :: 0 <= j < |w| ==> ys[j] == HeadBlock(w[j], h, p, i)
    ensures AllOfSize(Flatten(w[..n]), p * h)
    ensures Flatten(ys[..n]) == HeadBlock(Flatten(w[..n]), h, p, i)
  {
    if n > 0 {
      HeadBlockOfJoined(w, ys, rows, h, p, i, n - 1);
      FlattenTake(w, n);
      FlattenTake(ys, n);
    }
  }

  /** Scattering heads leaves rank i with the whole joined sequence, restricted to head block i. */
  lemma HeadsToSeqIs<T>(w: seq<Matrix<T>>, rows: nat, h: nat, i: nat)
    requires IsWorld(w, rows, |w| * h) && i < |w|
    ensures AllOfSize(Flatten(w), |w| * h)
    ensures HeadsToSeq(w, rows, h)[i] == HeadBlock(Flatten(w), h, |w|, i)
  {
    var ys := Exchange(AllSplitHeads(w, rows, h), |w|)[i];
    HeadBlockOfJoined(w, ys, rows, h, |w|, i, |w|);
    TakeAll(w, |w|);
    TakeAll(ys, |w|);
  }

  /** The ranks hold the head blocks of one tensor. */
  ghost predicate HoldsHeadBlocks<T>(w: seq<Matrix<T>>, x: Matrix<T>, h: nat)
    requires AllOfSize(x, |w| * h)
  {
    forall i :: 0 <= i < |w| ==> w[i] == HeadBlock(x, h, |w|, i)
  }

  lemma BlockOfHeadBlock<T>(x: Matrix<T>, s: nat, h: nat, p: nat, i: nat, r: nat)
    requires |x| == p * s && AllOfSize(x, p * h) && i < p && r < p
    ensures AllOfSize(Block(x, s, p, r), p * h)
    ensures Block(HeadBlock(x, h, p, i), s, p, r) == HeadBlock(Block(x, s, p, r), h, p, i)
  {
    SlotInRange(s, r, p);
  }

  /** Scattering tokens leaves rank r with token block r, all heads restored. */
  lemma SeqToHeadsIs<T>(w: seq<Matrix<T>>, x: Matrix<T>, s: nat, h: nat, r: nat)
    requires |x| == |w| * s && AllOfSize(x, |w| * h) && HoldsHeadBlocks(w, x, h) && r < |w|
    ensures IsWorld(w, |w| * s, h) && SeqToHeads(w, s, h)[r] == Block(x, s, |w|, r)
  {
    var p, mine := |w|, Block(x, s, |w|, r);
    SlotInRange(s, r, p);
    PiecesShaped(w, s, h);
    var got := Exchange(AllSplitRows(w, s, h), p)[r];
    forall i | 0 <= i < p ensures got[i] == HeadBlock(mine, h, p, i) {
      BlockOfHeadBlock(x, s, h, p, i, r);
    }
    assert got == SplitHeads(mine, h, p);
    CatOfSplitHeads(mine, h, p);
  }

  // ---------- padding ----------

  /** `(sp_size - n % sp_size) % sp_size` */
  function PadSize(n: nat, p: nat): nat
    requires p >= 1
  {
    (p - n % p) % p
  }

  /** n rows, padded to a multiple of p, make s rows for each of p ranks. */
  predicate Covers(n: nat, s: nat, p: nat) {
    p >= 1 && n <= p * s < n + p
  }

  /** The padding that the code computes is what is missing. */
  lemma PadExact(n: nat, s: nat, p: nat)
    requires Covers(n, s, p)
    ensures n % p == 0 <==> n == p * s
    ensures n % p != 0 ==> n + (p - n % p) == p * s
    ensures n + PadSize(n, p) == p * s
  {
    if n == p * s {
      DivModUnique(n, p, s, 0);
      DivModUnique(p, p, 1, 0);
    } else {
      var d := p * s - n;
      assert n == p * (s - 1) + (p - d);
      DivModUnique(n, p, s - 1, p - d);
      DivModUnique(d, p, 0, d);
    }
  }

  /** Python's `x[0:end]`: a negative end counts from the back. */
  function FirstTo<T>(x: seq<T>, end: int): (r: seq<T>) {
    if end < 0 then x[..Max(0, |x| + end)] else x[..Min(end, |x|)]
  }

  /** `_unpad_tensor`, which leaves nothing for k = 0. */
  function Unpad<T>(x: seq<T>, k: int): (r: seq<T>) {
    FirstTo(x, -k)
  }

  /** The last step of `gather_seq_scatter_heads` on one rank; 0 is the default for `unpadded`. */
  function MaybeUnpad<T>(x: seq<T>, unpadded: int, p: nat): (r: seq<T>)
    requires p >= 1
  {
    if unpadded != 0 && unpadded % p != 0 then Unpad(x, |x| - unpadded) else x
  }

  /**
   How many of `total` gathered rows are kept: a multiple of p, 0 included, leaves the padding on, and a number
   beyond the total keeps as many rows as it is beyond it.
   */
  function KeptRows(n: int, total: nat, p: nat): (m: nat)
    requires p >= 1
    ensures m <= total
  {
    if n % p == 0 then total else if n < total then Max(0, n) else Min(n - total, total)
  }

  lemma MaybeUnpadIs<T>(x: seq<T>, n: int, p: nat)
    requires p >= 1 && |x| % p == 0
    ensures MaybeUnpad(x, n, p) == x[..KeptRows(n, |x|, p)]
  {
    if n == 0 { DivModUnique(0, p, 0, 0); }
  }

  /** Where the padding is the least possible, exactly the n true rows are kept. */
  lemma KeptExactly(n: nat, s: nat, p: nat)
    requires Covers(n, s, p)
    ensures p * s >= 0 && KeptRows(n, p * s, p) == n
  {
    PadExact(n, s, p);
  }

  /** The rows per rank that m rows, padded, make. */
  function Share(m: nat, p: nat): (s: nat)
    requires p >= 1
    ensures Covers(m, s, p)
  {
    QuotientNonNegative(m, p);
    assert m == p * (m / p) + m % p && p * (m / p + 1) == p * (m / p) + p;
    if m % p == 0 then m / p else m / p + 1
  }

  lemma ShareUnique(m: nat, s: nat, p: nat)
    requires Covers(m, s, p)
    ensures Share(m, p) == s
  {
    var t := Share(m, p);
    if s < t { MulMonotonic(p, s + 1, t); } else if t < s { MulMonotonic(p, t + 1, s); }
  }

  /** The first step of `gather_heads_scatter_seq` on one rank. */
  function MaybePad<T>(x: seq<T>, p: nat, zero: T): (r: seq<T>)
    requires p >= 1
  {
    if |x| % p != 0 then x + Repeat(zero, p - |x| % p) else x
  }

  lemma MaybePadIs<T>(x: seq<T>, s: nat, p: nat, zero: T)
    requires Covers(|x|, s, p)
    ensures MaybePad(x, p, zero) == x + Repeat(zero, p * s - |x|)
  {
    PadExact(|x|, s, p);
  }

  lemma JoinedSize<T>(w: seq<Matrix<T>>, s: nat, h: nat)
    requires IsWorld(w, s, |w| * h)
    ensures |Flatten(w)| == |w| * s && |HeadsToSeq(w, s, h)| == |w|
    ensures forall i :: 0 <= i < |w| ==> |HeadsToSeq(w, s, h)[i]| == |w| * s
  {
    FlattenSize(w, s);
    forall i | 0 <= i < |w| ensures |HeadsToSeq(w, s, h)[i]| == |w| * s { HeadsToSeqIs(w, s, h, i); }
  }

  /** `gather_seq_scatter_heads` on every rank, called with n as `unpadded_dim_size`. */
  function GatherSeqScatterHeads<T>(w: seq<Matrix<T>>, s: nat, h: nat, n: int): (r: seq<Matrix<T>>)
    requires |w| >= 1 && IsWorld(w, s, |w| * h)
    ensures |r| == |w|
  {
    var y := HeadsToSeq(w, s, h);
    seq(|w|, i requires 0 <= i < |w| => MaybeUnpad(y[i], n, |w|))
  }

  function AllPadded<T>(w: seq<Matrix<T>>, p: nat, zero: seq<T>): (r: seq<Matrix<T>>)
    requires p >= 1
    ensures |r| == |w| && forall i :: 0 <= i < |w| ==> r[i] == MaybePad(w[i], p, zero)
  {
    seq(|w|, i requires 0 <= i < |w| => MaybePad(w[i], p, zero))
  }

  lemma AllPaddedShaped<T>(w: seq<Matrix<T>>, s: nat, h: nat, n: nat, zero: seq<T>)
    requires IsWorld(w, n, h) && Covers(n, s, |w|) && |zero| == h
    ensures IsWorld(AllPadded(w, |w|, zero), |w| * s, h)
  {
    forall i | 0 <= i < |w| ensures IsMatrix(AllPadded(w, |w|, zero)[i], |w| * s, h) {
      MaybePadIs(w[i], s, |w|, zero);
    }
  }

  /** `gather_heads_scatter_seq` on every rank; `zero` is a row of zeros. */
  function GatherHeadsScatterSeq<T>(w: seq<Matrix<T>>, s: nat, h: nat, n: nat, zero: seq<T>): (r: seq<Matrix<T>>)
    requires IsWorld(w, n, h) && Covers(n, s, |w|) && |zero| == h
    ensures |r| == |w|
  {
    AllPaddedShaped(w, s, h, n, zero);
    SeqToHeads(AllPadded(w, |w|, zero), s, h)
  }

  /** The rows that the ranks have after gathering. */
  function Kept<T>(w: seq<Matrix<T>>, s: nat, h: nat, n: int): (x: Matrix<T>)
    requires |w| >= 1 && IsWorld(w, s, |w| * h)
    ensures |Flatten(w)| == |w| * s && |x| == KeptRows(n, |w| * s, |w|) && AllOfSize(x, |w| * h)
  {
    JoinedSize(w, s, h);
    HeadsToSeqIs(w, s, h, 0);
    Flatten(w)[..KeptRows(n, |w| * s, |w|)]
  }

  /** Each rank gets the rows kept of the whole sequence, for its own block of heads. */
  lemma GatherSeqIs<T>(w: seq<Matrix<T>>, s: nat, h: nat, n: int, i: nat)
    requires IsWorld(w, s, |w| * h) && i < |w|
    ensures GatherSeqScatterHeads(w, s, h, n)[i] == HeadBlock(Kept(w, s, h, n), h, |w|, i)
  {
    var p := |w|;
    JoinedSize(w, s, h);
    HeadsToSeqIs(w, s, h, i);
    DivModUnique(p * s, p, s, 0);
    MaybeUnpadIs(HeadsToSeq(w, s, h)[i], n, p);
  }

  /** A tensor with rows of zeros appended. */
  function ZeroPadded<T>(x: Matrix<T>, rows: nat, zero: seq<T>): (y: Matrix<T>)
    requires |x| <= rows
    ensures |y| == rows
  {
    x + Repeat(zero, rows - |x|)
  }

  /** Each rank gets its block of the padded tokens, with all heads. */
  lemma GatherHeadsIs<T>(w: seq<Matrix<T>>, x: Matrix<T>, s: nat, h: nat, zero: seq<T>, wide: seq<T>, r: nat)
    requires Covers(|x|, s, |w|) && AllOfSize(x, |w| * h) && HoldsHeadBlocks(w, x, h) && r < |w|
    requires |zero| == h && |wide| == |w| * h && forall i :: 0 <= i < |w| ==> Block(wide, h, |w|, i) == zero
    ensures IsWorld(w, |x|, h)
    ensures GatherHeadsScatterSeq(w, s, h, |x|, zero)[r] == Block(ZeroPadded(x, |w| * s, wide), s, |w|, r)
  {
    var p, y := |w|, ZeroPadded(x, |w| * s, wide);
    var padded := AllPadded(w, p, zero);
    AllPaddedShaped(w, s, h, |x|, zero);
    forall i | 0 <= i < p ensures padded[i] == HeadBlock(y, h, p, i) {
      MaybePadIs(w[i], s, p, zero);
    }
    SeqToHeadsIs(padded, y, s, h, r);
  }

  lemma GatheredShaped<T>(w: seq<Matrix<T>>, s: nat, h: nat, n: int)
    requires |w| >= 1 && IsWorld(w, s, |w| * h)
    ensures IsWorld(GatherSeqScatterHeads(w, s, h, n), KeptRows(n, |w| * s, |w|), h)
    ensures HoldsHeadBlocks(GatherSeqScatterHeads(w, s, h, n), Kept(w, s, h, n), h)
  {
    forall i | 0 <= i < |w|
      ensures GatherSeqScatterHeads(w, s, h, n)[i] == HeadBlock(Kept(w, s, h, n), h, |w|, i)
    {
      GatherSeqIs(w, s, h, n, i);
    }
  }

  /** All ranks' tensors after scattering the heads and gathering them again. */
  function ThereAndBack<T>(w: seq<Matrix<T>>, s: nat, h: nat, n: int, zero: seq<T>): (r: seq<Matrix<T>>)
    requires |w| >= 1 && IsWorld(w, s, |w| * h) && |zero| == h
    ensures |r| == |w|
  {
    var m := KeptRows(n, |w| * s, |w|);
    GatheredShaped(w, s, h, n);
    GatherHeadsScatterSeq(GatherSeqScatterHeads(w, s, h, n), Share(m, |w|), h, m, zero)
  }

  /** Going there and back keeps the rows kept and pads them with zeros to the next multiple. */
  lemma ThereAndBackIs<T>(w: seq<Matrix<T>>, s: nat, h: nat, n: int, zero: seq<T>, wide: seq<T>)
    requires |w| >= 1 && IsWorld(w, s, |w| * h)
    requires |zero| == h && |wide| == |w| * h && forall i :: 0 <= i < |w| ==> Block(wide, h, |w|, i) == zero
    ensures var x, s2 := Kept(w, s, h, n), Share(KeptRows(n, |w| * s, |w|), |w|);
      ThereAndBack(w, s, h, n, zero) == Cut(ZeroPadded(x, |w| * s2, wide), s2, |w|)
  {
    var p, y, back := |w|, GatherSeqScatterHeads(w, s, h, n), ThereAndBack(w, s, h, n, zero);
    var x := Kept(w, s, h, n);
    var s2 := Share(|x|, p);
    GatheredShaped(w, s, h, n);
    var all := ZeroPadded(x, p * s2, wide);
    forall r | 0 <= r < p ensures back[r] == Block(all, s2, p, r) {
      GatherHeadsIs(y, x, s2, h, zero, wide, r);
    }
    assert back == Cut(all, s2, p);
  }

  lemma ZeroPaddedIs<T>(x: Matrix<T>, n: nat, zero: seq<T>)
    requires n <= |x|
    ensures ZeroPadded(x[..n], |x|, zero) == x <==> forall t :: n <= t < |x| ==> x[t] == zero
  {
    var y := ZeroPadded(x[..n], |x|, zero);
    forall t | n <= t < |x| ensures y[t] == zero {
    }
    if forall t :: n <= t < |x| ==> x[t] == zero {
      assert y == x;
    }
  }

  /** Tensors of the same world are equal if they are joined. */
  lemma SameJoined<T>(w: seq<Matrix<T>>, y: Matrix<T>, s: nat, s2: nat)
    requires |w| >= 1 && AllOfSize(w, s) && |y| == |w| * s2
    ensures Cut(y, s2, |w|) == w <==> s2 == s && y == Flatten(w)
  {
    FlattenOfCut(y, s2, |w|);
    CutOfFlatten(w, s);
    if Cut(y, s2, |w|) == w { assert |Cut(y, s2, |w|)[0]| == s2; }
  }

  lemma ShareIs(m: nat, s: nat, p: nat)
    requires p >= 1 && m <= p * s
    ensures Share(m, p) == s <==> p * s < m + p
  {
    if p * s < m + p { ShareUnique(m, s, p); }
  }

  /** A world cut to its first m rows, padded with zero rows and dealt out again. */
  lemma PaddedBackIff<T>(w: seq<Matrix<T>>, s: nat, m: nat, wide: seq<T>)
    requires |w| >= 1 && AllOfSize(w, s) && m <= |Flatten(w)| == |w| * s
    ensures var s2 := Share(m, |w|);
      Cut(ZeroPadded(Flatten(w)[..m], |w| * s2, wide), s2, |w|) == w <==>
      |w| * s < m + |w| && forall t :: m <= t < |Flatten(w)| ==> Flatten(w)[t] == wide
  {
    var s2 := Share(m, |w|);
    SameJoined(w, ZeroPadded(Flatten(w)[..m], |w| * s2, wide), s, s2);
    ShareIs(m, s, |w|);
    ZeroPaddedIs(Flatten(w), m, wide);
  }

  /**
   The two exchanges undo each other, whatever number of true tokens they are given, exactly if fewer rows than
   there are ranks were cut off, and these were zero.
   */
  lemma RoundTripIff<T>(w: seq<Matrix<T>>, s: nat, h: nat, n: int, zero: seq<T>, wide: seq<T>)
    requires |w| >= 1 && IsWorld(w, s, |w| * h)
    requires |zero| == h && |wide| == |w| * h && forall i :: 0 <= i < |w| ==> Block(wide, h, |w|, i) == zero
    ensures var m := KeptRows(n, |w| * s, |w|);
      ThereAndBack(w, s, h, n, zero) == w <==>
      |w| * s < m + |w| && forall t :: m <= t < |Flatten(w)| ==> Flatten(w)[t] == wide
  {
    ThereAndBackIs(w, s, h, n, zero, wide);
    PaddedBackIff(w, s, KeptRows(n, |w| * s, |w|), wide);
  }

  /** With the default of `unpadded_dim_size` nothing is cut off, and every world comes back. */
  lemma RoundTripByDefault<T>(w: seq<Matrix<T>>, s: nat, h: nat, zero: seq<T>, wide: seq<T>)
    requires |w| >= 1 && IsWorld(w, s, |w| * h)
    requires |zero| == h && |wide| == |w| * h && forall i :: 0 <= i < |w| ==> Block(wide, h, |w|, i) == zero
    ensures ThereAndBack(w, s, h, 0, zero) == w
  {
    DivModUnique(0, |w|, 0, 0);
    JoinedSize(w, s, h);
    RoundTripIff(w, s, h, 0, zero, wide);
  }

  /** One token over two ranks: what stood in the padding row of the second rank does not come back. */
  lemma PaddingRowLost()
    ensures ThereAndBack([[[7, 7]], [[5, 5]]], 1, 1, 1, [0]) != [[[7, 7]], [[5, 5]]]
  {
    var w: seq<Matrix<int>> := [[[7, 7]], [[5, 5]]];
    assert Flatten(w) == w[0] + (w[1] + Flatten(w[2..]));
    assert Flatten(w)[1] == [5, 5];
    RoundTripIff(w, 1, 1, 1, [0], [0, 0]);
  }

  /** One token on two ranks with two rows each: zero padding rows are not enough, a row per rank goes missing. */
  lemma PaddingTooLong()
    ensures var w := [[[7, 7], [0, 0]], [[0, 0], [0, 0]]];
      ThereAndBack(w, 2, 1, 1, [0]) != w
  {
    RoundTripIff([[[7, 7], [0, 0]], [[0, 0], [0, 0]]], 2, 1, 1, [0], [0, 0]);
  }

  /** Two tokens on two ranks with two rows each: as 2 is a multiple of 2, the padding is not removed. */
  lemma PaddingKept(w: seq<Matrix<int>>)
    requires |w| == 2 && IsWorld(w, 2, 2)
    ensures |GatherSeqScatterHeads(w, 2, 1, 2)[0]| == 4
  {
    GatherSeqIs(w, 2, 1, 2, 0);
  }

  // ---------- pad, slice, gather, unpad ----------

  /** `ulysses_pad` on a token sequence: the padded sequence and the number of padding tokens. */
  function UlyssesPad<T>(x: seq<T>, p: nat, zero: T): (r: (seq<T>, nat)) {
    if p <= 1 then (x, 0)
    else if PadSize(|x|, p) > 0 then (x + Repeat(zero, PadSize(|x|, p)), PadSize(|x|, p))
    else (x, 0)
  }

  lemma SliceBounds(size: nat, p: nat, r: nat)
    requires p >= 1 && r < p
    ensures 0 <= r * (size / p) <= (r + 1) * (size / p) <= size
  {
    QuotientNonNegative(size, p);
    SlotInRange(size / p, r, p);
    assert size == p * (size / p) + size % p;
  }

  /** `slice_input_tensor` on every rank; `padding` says whether a ragged tensor is padded first. */
  function SliceInput<T>(x: seq<T>, p: nat, padding: bool, zero: T): (slices: seq<seq<T>>)
    requires p >= 1
    ensures |slices| == p
  {
    var y := if padding then MaybePad(x, p, zero) else x;
    QuotientNonNegative(|y|, p);
    var parts := |y| / p;
    seq(p, r requires 0 <= r < p => SliceBounds(|y|, p, r); y[r * parts..(r + 1) * parts])
  }

  /** `gather_outputs_and_unpad` along the tokens. */
  function GatherAndUnpad<T>(slices: seq<seq<T>>, k: nat): seq<T>
    requires k <= |Flatten(slices)|
  {
    if k == 0 then Flatten(slices) else Unpad(Flatten(slices), k)
  }

  /** Slicing an even sequence and gathering the slices gives the sequence. */
  lemma SlicesGather<T>(y: seq<T>, s: nat, p: nat, zero: T)
    requires p >= 1 && |y| == p * s
    ensures Flatten(SliceInput(y, p, false, zero)) == y
  {
    DivModUnique(|y|, p, s, 0);
    assert SliceInput(y, p, false, zero) == Cut(y, s, p);
    FlattenOfCut(y, s, p);
  }

  /** Padding, slicing over the ranks, gathering and unpadding give back every sequence. */
  lemma PadSliceGatherUnpad<T>(x: seq<T>, p: nat, zero: T)
    requires p >= 1
    ensures var (padded, k) := UlyssesPad(x, p, zero);
      var gathered := Flatten(SliceInput(padded, p, false, zero));
      k < p && gathered == padded && GatherAndUnpad(SliceInput(padded, p, false, zero), k) == x
  {
    var s := Share(|x|, p);
    PadExact(|x|, s, p);
    var (padded, k) := UlyssesPad(x, p, zero);
    SlicesGather(padded, s, p, zero);
  }

  /** The slicing function may as well do the padding itself. */
  lemma SlicePadsAlike<T>(x: seq<T>, p: nat, zero: T)
    requires p >= 1
    ensures SliceInput(x, p, true, zero) == SliceInput(UlyssesPad(x, p, zero).0, p, false, zero)
  {
    var s := Share(|x|, p);
    PadExact(|x|, s, p);
    MaybePadIs(x, s, p, zero);
    assert x + Repeat(zero, 0) == x;
  }
}
