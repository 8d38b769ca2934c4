/** Sequence vocabulary shared by the component models. */
module Sequences {

  function Sum(s: seq<int>): int {
    if s == [] then 0 else s[0] + Sum(s[1..])
  }

  lemma {:induction false} SumAppend(a: seq<int>, b: seq<int>)
    ensures Sum(a + b) == Sum(a) + Sum(b)
  {
    if a == [] {
      assert a + b == b;
    } else {
      assert (a + b)[1..] == a[1..] + b;
      SumAppend(a[1..], b);
    }
  }

  lemma SumSnoc(s: seq<int>, x: int)
    ensures Sum(s + [x]) == Sum(s) + x
  {
    SumAppend(s, [x]);
    assert Sum([x]) == x + Sum([]);
  }

  function Flatten<T>(ss: seq<seq<T>>): seq<T> {
    if ss == [] then [] else ss[0] + Flatten(ss[1..])
  }

  lemma {:induction false} FlattenAppend<T>(a: seq<seq<T>>, b: seq<seq<T>>)
    ensures Flatten(a + b) == Flatten(a) + Flatten(b)
  {
    if a == [] {
      assert a + b == b;
    } else {
      assert (a + b)[1..] == a[1..] + b;
      FlattenAppend(a[1..], b);
    }
  }

  lemma FlattenSnoc<T>(a: seq<seq<T>>, x: seq<T>)
    ensures Flatten(a + [x]) == Flatten(a) + x
  {
    FlattenAppend(a, [x]);
    assert Flatten([x]) == x + Flatten<T>([]);
  }

  /** Where piece i begins in the concatenation. */
  function Offset<T>(ss: seq<seq<T>>, i: nat): nat
    requires i <= |ss|
  {
    if i == 0 then 0 else Offset(ss, i - 1) + |ss[i - 1]|
  }

  lemma {:induction false} OffsetMonotonic<T>(ss: seq<seq<T>>, i: nat, j: nat)
    requires i <= j <= |ss|
    ensures Offset(ss, i) <= Offset(ss, j)
  {
    if i < j { OffsetMonotonic(ss, i, j - 1); }
  }

  lemma {:induction false} FlattenPrefix<T>(ss: seq<seq<T>>, i: nat)
    requires i <= |ss|
    ensures |Flatten(ss[..i])| == Offset(ss, i)
    ensures Offset(ss, i) <= |Flatten(ss)| && Flatten(ss)[..Offset(ss, i)] == Flatten(ss[..i])
  {
    assert ss == ss[..i] + ss[i..];
    FlattenAppend(ss[..i], ss[i..]);
    if i > 0 {
      FlattenPrefix(ss, i - 1);
      assert ss[..i] == ss[..i - 1] + [ss[i - 1]];
      FlattenSnoc(ss[..i - 1], ss[i - 1]);
    }
  }

  /** Each piece occupies its own stretch of the concatenation. */
  lemma FlattenAt<T>(ss: seq<seq<T>>, i: nat)
    requires i < |ss|
    ensures |Flatten(ss)| == Offset(ss, |ss|)
    ensures Offset(ss, i + 1) == Offset(ss, i) + |ss[i]| <= |Flatten(ss)|
    ensures Flatten(ss)[Offset(ss, i)..Offset(ss, i + 1)] == ss[i]
  {
    assert ss[..|ss|] == ss;
    FlattenPrefix(ss, |ss|);
    FlattenPrefix(ss, i);
    FlattenPrefix(ss, i + 1);
    assert ss[..i + 1] == ss[..i] + [ss[i]];
    FlattenSnoc(ss[..i], ss[i]);
  }

  lemma FlattenTake<T>(ss: seq<seq<T>>, i: nat)
    requires 0 < i <= |ss|
    ensures Flatten(ss[..i]) == Flatten(ss[..i - 1]) + ss[i - 1]
  {
    FlattenSnoc(ss[..i - 1], ss[i - 1]);
    assert ss[..i] == ss[..i - 1] + [ss[i - 1]];
  }

  lemma TakeAll<T>(s: seq<T>, n: nat)
    requires n == |s|
    ensures s[..n] == s
  {
  }

  lemma ConcatAssociates<T>(a: seq<T>, b: seq<T>, c: seq<T>)
    ensures a + (b + c) == a + b + c
  {
  }

  function Repeat<T>(x: T, n: nat): (r: seq<T>)
    ensures |r| == n && forall i :: 0 <= i < n ==> r[i] == x
  {
    seq(n, _ => x)
  }

  predicate AllOfSize<T>(ss: seq<seq<T>>, n: nat) {
    forall j :: 0 <= j < |ss| ==> |ss[j]| == n
  }

  function RemoveAt<T>(s: seq<T>, i: nat): (r: seq<T>)
    requires i < |s|
    ensures |r| == |s| - 1
  {
    s[..i] + s[i + 1..]
  }

  lemma RemoveAtMultiset<T>(s: seq<T>, i: nat)
    requires i < |s|
    ensures multiset(s) == multiset(RemoveAt(s, i)) + multiset{s[i]}
  {
    assert s == s[..i] + [s[i]] + s[i + 1..];
  }

  predicate IsPermutation<T(==)>(a: seq<T>, b: seq<T>) {
    multiset(a) == multiset(b)
  }

  /** Where an element of one arrangement stands in the other. */
  lemma PermutationFind<T>(a: seq<T>, b: seq<T>, i: nat) returns (j: nat)
    requires IsPermutation(a, b) && i < |a|
    ensures j < |b| && b[j] == a[i]
  {
    assert a[i] in multiset(a);
    assert a[i] in multiset(b);
    j :| j < |b| && b[j] == a[i];
  }

  lemma PermutationSize<T>(a: seq<T>, b: seq<T>)
    requires IsPermutation(a, b)
    ensures |a| == |b|
  {
    assert |a| == |multiset(a)| == |multiset(b)| == |b|;
  }

  /** Taking the first element off one arrangement matches taking it out of the other. */
  lemma PermutationStep<T>(a: seq<T>, b: seq<T>) returns (j: nat)
    requires IsPermutation(a, b) && a != []
    ensures j < |b| && b[j] == a[0] && IsPermutation(a[1..], RemoveAt(b, j))
  {
    j := PermutationFind(a, b, 0);
    RemoveAtMultiset(b, j);
    assert a == [a[0]] + a[1..];
    assert multiset(a[1..]) == multiset(a) - multiset{a[0]};
    assert multiset(RemoveAt(b, j)) == multiset(b) - multiset{a[0]};
  }

  /** r lists the elements of s at the places `at`, which ascend. */
  predicate ListedFrom<T(==)>(s: seq<T>, at: seq<nat>, r: seq<T>) {
    && |at| == |r| && (forall j :: 0 <= j < |at| ==> at[j] < |s| && r[j] == s[at[j]])
    && (forall i, j :: 0 <= i < j < |at| ==> at[i] < at[j])
  }

  lemma ListedFromMore<T>(s: seq<T>, at: seq<nat>, r: seq<T>, last: T)
    requires ListedFrom(s, at, r)
    ensures ListedFrom(s + [last], at, r) && ListedFrom(s + [last], at + [|s|], r + [last])
  {
  }

  /** 0, 1, ..., n-1. */
  function Range(n: nat): seq<nat> {
    seq(n, i => i)
  }

  lemma RangeSnoc(n: nat)
    ensures Range(n + 1) == Range(n) + [n]
    ensures multiset(Range(n + 1)) == multiset(Range(n)) + multiset{n}
  {
    assert Range(n + 1) == Range(n) + [n];
  }

  function Max(a: int, b: int): int { if a < b then b else a }

  function Min(a: int, b: int): int { if a < b then a else b }
}
