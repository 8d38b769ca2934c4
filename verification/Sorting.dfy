/**
 Python's stable sort as an insertion sort, for any order: `ahead(a, b)` says that a may stand before b.
 Which sorting algorithm is used does not matter: what the lemmas say determines the result.
 */
module Sorting {
  import opened Sequences

  function Insert<T>(x: T, s: seq<T>, ahead: (T, T) -> bool): (r: seq<T>)
    ensures |r| == |s| + 1
  {
    if s == [] || ahead(x, s[0]) then [x] + s else [s[0]] + Insert(x, s[1..], ahead)
  }

  function Sort<T>(s: seq<T>, ahead: (T, T) -> bool): (r: seq<T>)
    ensures |r| == |s|
  {
    if s == [] then [] else Insert(s[0], Sort(s[1..], ahead), ahead)
  }

  // ---------- the same elements ----------

  lemma {:induction false} InsertPermutes<T>(x: T, s: seq<T>, ahead: (T, T) -> bool)
    ensures IsPermutation(Insert(x, s, ahead), [x] + s)
  {
    if s != [] && !ahead(x, s[0]) {
      InsertPermutes(x, s[1..], ahead);
      assert s == [s[0]] + s[1..];
    }
  }

  lemma {:induction false} SortPermutes<T>(s: seq<T>, ahead: (T, T) -> bool)
    ensures IsPermutation(Sort(s, ahead), s)
  {
    if s != [] {
      SortPermutes(s[1..], ahead);
      InsertPermutes(s[0], Sort(s[1..], ahead), ahead);
      assert s == [s[0]] + s[1..];
    }
  }

  // ---------- in order ----------

  /** Any two elements may stand one way or the other, and the order is transitive. */
  ghost predicate Orders<T(!new)>(ahead: (T, T) -> bool) {
    && (forall a, b :: ahead(a, b) || ahead(b, a))
    && forall a, b, c :: ahead(a, b) && ahead(b, c) ==> ahead(a, c)
  }

  predicate InOrder<T>(s: seq<T>, ahead: (T, T) -> bool) {
    forall i, j {:trigger ahead(s[i], s[j])} :: 0 <= i < j < |s| ==> ahead(s[i], s[j])
  }

  lemma {:induction false} InsertInOrder<T(!new)>(x: T, s: seq<T>, ahead: (T, T) -> bool)
    requires Orders(ahead) && InOrder(s, ahead)
    ensures InOrder(Insert(x, s, ahead), ahead)
  {
    if s == [] {
    } else if ahead(x, s[0]) {
      forall j | 0 <= j < |s| ensures ahead(x, s[j]) {
        if j > 0 { assert ahead(s[0], s[j]); }
      }
    } else {
      InsertInOrder(x, s[1..], ahead);
      InsertPermutes(x, s[1..], ahead);
      var r := Insert(x, s[1..], ahead);
      forall j | 0 <= j < |r| ensures ahead(s[0], r[j]) {
        var n := PermutationFind(r, [x] + s[1..], j);
        if n > 0 { assert ahead(s[0], s[n]); }
      }
    }
  }

  lemma {:induction false} SortInOrder<T(!new)>(s: seq<T>, ahead: (T, T) -> bool)
    requires Orders(ahead)
    ensures InOrder(Sort(s, ahead), ahead)
  {
    if s != [] {
      SortInOrder(s[1..], ahead);
      InsertInOrder(s[0], Sort(s[1..], ahead), ahead);
    }
  }

  // ---------- stable ----------

  function Filter<T>(s: seq<T>, keep: T -> bool): seq<T> {
    if s == [] then [] else (if keep(s[0]) then [s[0]] else []) + Filter(s[1..], keep)
  }

  /** The elements kept are ties. */
  ghost predicate Ties<T(!new)>(keep: T -> bool, ahead: (T, T) -> bool) {
    forall a, b :: keep(a) && keep(b) ==> ahead(a, b)
  }

  lemma FilterCons<T>(x: T, s: seq<T>, keep: T -> bool)
    ensures Filter([x] + s, keep) == (if keep(x) then [x] else []) + Filter(s, keep)
  {
    assert ([x] + s)[1..] == s;
  }

  lemma {:induction false} InsertStable<T(!new)>(x: T, s: seq<T>, keep: T -> bool, ahead: (T, T) -> bool)
    requires Ties(keep, ahead)
    ensures Filter(Insert(x, s, ahead), keep) == Filter([x] + s, keep)
  {
    if s != [] && !ahead(x, s[0]) {
      assert !(keep(x) && keep(s[0]));
      InsertStable(x, s[1..], keep, ahead);
      FilterCons(s[0], Insert(x, s[1..], ahead), keep);
      FilterCons(x, s[1..], keep);
      FilterCons(x, s, keep);
    }
  }

  /** Elements that tie keep their order. */
  lemma {:induction false} SortStable<T(!new)>(s: seq<T>, keep: T -> bool, ahead: (T, T) -> bool)
    requires Ties(keep, ahead)
    ensures Filter(Sort(s, ahead), keep) == Filter(s, keep)
  {
    if s != [] {
      SortStable(s[1..], keep, ahead);
      InsertStable(s[0], Sort(s[1..], ahead), keep, ahead);
      FilterCons(s[0], Sort(s[1..], ahead), keep);
    }
  }

  /** The first of the input comes first if it may stand before all others. */
  lemma SortKeepsFirst<T>(s: seq<T>, ahead: (T, T) -> bool)
    requires s != [] && forall i :: 0 < i < |s| ==> ahead(s[0], s[i])
    ensures Sort(s, ahead)[0] == s[0]
  {
    var rest := Sort(s[1..], ahead);
    if rest != [] {
      SortPermutes(s[1..], ahead);
      var j := PermutationFind(rest, s[1..], 0);
      assert s[1..][j] == s[j + 1];
    }
  }
}
