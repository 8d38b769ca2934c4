/** Sequences cut into equal blocks, and the in-place copies that lay blocks out. */
module Blocks {
  import opened Arithmetic
  import opened Sequences

  lemma SlotInRange(b: nat, j: nat, n: nat)
    requires j < n
    ensures 0 <= j * b && (j + 1) * b == j * b + b <= n * b
  {
    MulMonotonic(b, j + 1, n);
  }

  /** Block j of a sequence cut into n blocks of size b. */
  function Block<T>(s: seq<T>, b: nat, n: nat, j: nat): (r: seq<T>)
    requires |s| == n * b && j < n
    ensures |r| == b
  {
    SlotInRange(b, j, n);
    s[j * b..(j + 1) * b]
  }

  function Cut<T>(s: seq<T>, b: nat, n: nat): (ss: seq<seq<T>>)
    requires |s| == n * b
    ensures |ss| == n && AllOfSize(ss, b) && forall j :: 0 <= j < n ==> ss[j] == Block(s, b, n, j)
  {
    seq(n, j requires 0 <= j < n => Block(s, b, n, j))
  }

  lemma {:induction false} OffsetOfUniform<T>(ss: seq<seq<T>>, b: nat, j: nat)
    requires AllOfSize(ss, b) && j <= |ss|
    ensures Offset(ss, j) == j * b
  {
    if j > 0 { OffsetOfUniform(ss, b, j - 1); }
  }

  lemma FlattenSize<T>(ss: seq<seq<T>>, b: nat)
    requires AllOfSize(ss, b)
    ensures |Flatten(ss)| == |ss| * b
  {
    FlattenPrefix(ss, |ss|);
    TakeAll(ss, |ss|);
    OffsetOfUniform(ss, b, |ss|);
  }

  /** Block j of joined blocks is the j-th of them. */
  lemma BlockOfFlatten<T>(ss: seq<seq<T>>, b: nat, j: nat)
    requires AllOfSize(ss, b) && j < |ss|
    ensures |Flatten(ss)| == |ss| * b && Block(Flatten(ss), b, |ss|, j) == ss[j]
  {
    FlattenSize(ss, b);
    FlattenAt(ss, j);
    OffsetOfUniform(ss, b, j);
    OffsetOfUniform(ss, b, j + 1);
  }

  lemma CutOfFlatten<T>(ss: seq<seq<T>>, b: nat)
    requires AllOfSize(ss, b)
    ensures |Flatten(ss)| == |ss| * b && Cut(Flatten(ss), b, |ss|) == ss
  {
    FlattenSize(ss, b);
    forall j | 0 <= j < |ss| ensures Cut(Flatten(ss), b, |ss|)[j] == ss[j] { BlockOfFlatten(ss, b, j); }
  }

  lemma {:induction false} FlattenOfCutTo<T>(s: seq<T>, b: nat, n: nat, j: nat)
    requires |s| == n * b && j <= n
    ensures 0 <= j * b <= |s| && Flatten(Cut(s, b, n)[..j]) == s[..j * b]
  {
    if j > 0 {
      FlattenOfCutTo(s, b, n, j - 1);
      FlattenTake(Cut(s, b, n), j);
      SlotInRange(b, j - 1, n);
      assert s[..j * b] == s[..(j - 1) * b] + s[(j - 1) * b..j * b];
    }
  }

  /** Cutting and joining are inverse. */
  lemma {:induction false} FlattenOfCut<T>(s: seq<T>, b: nat, n: nat)
    requires |s| == n * b
    ensures Flatten(Cut(s, b, n)) == s
  {
    FlattenOfCutTo(s, b, n, n);
    TakeAll(Cut(s, b, n), n);
  }

  lemma NestedSlots(b: nat, n: nat, m: nat, i: nat, j: nat)
    requires i < m && j < n
    ensures 0 <= i * n + j < m * n
    ensures m * (n * b) == m * n * b
    ensures (i * n + j) * b == i * (n * b) + j * b
    ensures (i * n + j + 1) * b == i * (n * b) + j * b + b
  {
    SlotInRange(n, i, m);
    assert i * (n * b) == i * n * b;
    assert (i * n + j) * b == i * n * b + j * b;
  }

  lemma SliceOfSlice<T>(s: seq<T>, from: nat, to: nat, lo: nat, hi: nat)
    requires from <= to <= |s| && lo <= hi <= to - from
    ensures s[from..to][lo..hi] == s[from + lo..from + hi]
  {
    var x, y := s[from..to][lo..hi], s[from + lo..from + hi];
    assert |x| == |y|;
    assert forall i :: 0 <= i < |x| ==> x[i] == s[from..to][lo + i] == y[i];
  }

  /** A block of a block: cutting in two stages is cutting once. */
  lemma BlockInBlock<T>(s: seq<T>, b: nat, n: nat, m: nat, i: nat, j: nat)
    requires |s| == m * (n * b) && |s| == m * n * b && i < m && j < n && 0 <= i * n + j < m * n
    ensures Block(Block(s, n * b, m, i), b, n, j) == Block(s, b, m * n, i * n + j)
  {
    NestedSlots(b, n, m, i, j);
    SlotInRange(b, j, n);
    SlotInRange(n * b, i, m);
    SliceOfSlice(s, i * (n * b), (i + 1) * (n * b), j * b, (j + 1) * b);
  }

  lemma ChunkSizePositive(size: nat, n: nat)
    requires n >= 1 && size >= 1
    ensures (size + n - 1) / n >= 1
  {
    QuotientPositive(size + n - 1, n);
  }

  function Pieces<T>(s: seq<T>, size: nat): (ss: seq<seq<T>>)
    requires size >= 1
  {
    if |s| <= size then [s] else [s[..size]] + Pieces(s[size..], size)
  }

  /** `torch.chunk`: pieces of the length divided by n, rounded up. */
  function TorchChunk<T>(s: seq<T>, n: nat): (ss: seq<seq<T>>)
    requires n >= 1 && s != []
  {
    ChunkSizePositive(|s|, n);
    Pieces(s, (|s| + n - 1) / n)
  }

  lemma {:induction false} PiecesEven<T>(s: seq<T>, b: nat, n: nat)
    requires n >= 1 && b >= 1 && |s| == n * b
    ensures Pieces(s, b) == Cut(s, b, n)
  {
    if n == 1 {
      assert Block(s, b, 1, 0) == s;
    } else {
      assert n * b == (n - 1) * b + b;
      MulMonotonic(b, 1, n - 1);
      PiecesEven(s[b..], b, n - 1);
      forall j | 0 < j < n ensures Block(s, b, n, j) == Block(s[b..], b, n - 1, j - 1) {
        SlotInRange(b, j - 1, n - 1);
        SlotInRange(b, j, n);
        assert j * b == (j - 1) * b + b;
      }
      assert Block(s, b, n, 0) == s[..b];
    }
  }

  /** On a length that n divides it cuts into n equal blocks. */
  lemma ChunkEven<T>(s: seq<T>, b: nat, n: nat)
    requires n >= 1 && b >= 1 && |s| == n * b
    ensures s != [] && TorchChunk(s, n) == Cut(s, b, n)
  {
    MulMonotonic(b, 1, n);
    assert |s| + n - 1 == n * b + (n - 1);
    DivModUnique(|s| + n - 1, n, b, n - 1);
    PiecesEven(s, b, n);
  }

  /** `a[lo : lo + len(values)].copy_(values)` */
  method CopySlice<T>(a: array<T>, lo: nat, values: seq<T>)
    requires lo + |values| <= a.Length
    modifies a
    ensures a[..lo + |values|] == old(a[..lo]) + values
    ensures a[lo + |values|..] == old(a[lo + |values|..])
  {
    for i := 0 to |values|
      invariant a[..lo + i] == old(a[..lo]) + values[..i]
      invariant a[lo + |values|..] == old(a[lo + |values|..])
    {
      a[lo + i] := values[i];
    }
  }
}
