/**
 Reasoning-path scoring of reward_func.py: the reference path is flattened with an explicit stack, the
 extracted triplets are deduplicated, and the share of reference triplets that they match is the score.
 */
module RewardScore {
  import opened Sequences

  type Triple = (string, string, string)

  /** A value of the nested reference path: an atom with its text, or a list. */
  datatype Node = Atom(text: string) | List(items: seq<Node>)

  /** `[subject, relation, object, ...]` with no list among the first three. */
  predicate IsTriplet(items: seq<Node>) {
    |items| >= 3 && items[0].Atom? && items[1].Atom? && items[2].Atom?
  }

  // ---------- flattening ----------

  /** The triplets of a nested list, from left to right. */
  function Preorder(node: Node): (r: seq<Triple>) {
    match node
    case Atom(_) => []
    case List(items) =>
      if IsTriplet(items) then [(items[0].text, items[1].text, items[2].text)] else PreorderAll(items)
  }

  function PreorderAll(nodes: seq<Node>): (r: seq<Triple>) {
    if nodes == [] then [] else Preorder(nodes[0]) + PreorderAll(nodes[1..])
  }

  /** A list whose first three items are the texts of t. */
  predicate Spells(node: Node, t: Triple) {
    && node.List? && IsTriplet(node.items)
    && node.items[0] == Atom(t.0) && node.items[1] == Atom(t.1) && node.items[2] == Atom(t.2)
  }

  /** A list of triplets flattens to exactly those triplets: subject, relation, object, in the order given. */
  lemma {:induction false} TripletsFlattened(items: seq<Node>, ts: seq<Triple>)
    requires |items| == |ts| && forall i :: 0 <= i < |ts| ==> Spells(items[i], ts[i])
    ensures PreorderAll(items) == ts && Preorder(List(items)) == ts
  {
    if ts != [] {
      assert Spells(items[0], ts[0]);
      TripletsFlattened(items[1..], ts[1..]);
      assert ts == [ts[0]] + ts[1..];
    }
  }

  lemma {:induction false} PreorderAllAppend(a: seq<Node>, b: seq<Node>)
    ensures PreorderAll(a + b) == PreorderAll(a) + PreorderAll(b)
  {
    if a == [] {
      assert a + b == b;
    } else {
      assert (a + b)[1..] == a[1..] + b;
      PreorderAllAppend(a[1..], b);
      ConcatAssociates(Preorder(a[0]), PreorderAll(a[1..]), PreorderAll(b));
    }
  }

  lemma PreorderAllOne(node: Node)
    ensures PreorderAll([node]) == Preorder(node)
  {
    assert PreorderAll([node]) == Preorder(node) + PreorderAll([node][1..]);
  }

  /** A nested list that is no triplet counts as its items put in its place; an atom among lists as nothing. */
  lemma NestingIgnored(before: seq<Node>, inner: seq<Node>, after: seq<Node>, text: string)
    requires !IsTriplet(inner)
    ensures PreorderAll(before + [List(inner)] + after) == PreorderAll(before + inner + after)
    ensures PreorderAll(before + [Atom(text)] + after) == PreorderAll(before + after)
  {
    PreorderAllAppend(before + [List(inner)], after);
    PreorderAllAppend(before, [List(inner)]);
    PreorderAllOne(List(inner));
    PreorderAllAppend(before + inner, after);
    PreorderAllAppend(before, inner);
    PreorderAllAppend(before + [Atom(text)], after);
    PreorderAllAppend(before, [Atom(text)]);
    PreorderAllOne(Atom(text));
    PreorderAllAppend(before, after);
  }

  function Size(node: Node): (n: nat)
    ensures n >= 1
  {
    match node
    case Atom(_) => 1
    case List(items) => 1 + SizeAll(items)
  }

  function SizeAll(nodes: seq<Node>): nat {
    if nodes == [] then 0 else Size(nodes[0]) + SizeAll(nodes[1..])
  }

  function Reverse<T>(s: seq<T>): (r: seq<T>)
    ensures |r| == |s|
  {
    if s == [] then [] else Reverse(s[1..]) + [s[0]]
  }

  /** What popping the whole stack will yield; its top is the last entry. */
  function Pending(stack: seq<Node>): (r: seq<Triple>) {
    if stack == [] then [] else Preorder(stack[|stack| - 1]) + Pending(stack[..|stack| - 1])
  }

  lemma {:induction false} SizeAllSnoc(nodes: seq<Node>, n: Node)
    ensures SizeAll(nodes + [n]) == SizeAll(nodes) + Size(n)
  {
    if nodes == [] {
      assert nodes + [n] == [n];
      assert SizeAll([n]) == Size(n) + SizeAll([n][1..]);
    } else {
      assert (nodes + [n])[1..] == nodes[1..] + [n];
      SizeAllSnoc(nodes[1..], n);
    }
  }

  lemma PendingSnoc(stack: seq<Node>, n: Node)
    ensures Pending(stack + [n]) == Preorder(n) + Pending(stack)
  {
    assert (stack + [n])[..|stack|] == stack;
  }

  /** Pushing a list's items in reverse leaves their triplets pending in order. */
  lemma {:induction false} PendingReversed(rest: seq<Node>, items: seq<Node>)
    ensures Pending(rest + Reverse(items)) == PreorderAll(items) + Pending(rest)
  {
    if items == [] {
      assert rest + [] == rest;
    } else {
      var below := rest + Reverse(items[1..]);
      PendingReversed(rest, items[1..]);
      assert rest + Reverse(items) == below + [items[0]];
      PendingSnoc(below, items[0]);
      ConcatAssociates(Preorder(items[0]), PreorderAll(items[1..]), Pending(rest));
    }
  }

  lemma {:induction false} SizeReversed(rest: seq<Node>, items: seq<Node>)
    ensures SizeAll(rest + Reverse(items)) == SizeAll(rest) + SizeAll(items)
  {
    if items == [] {
      assert rest + [] == rest;
    } else {
      var below := rest + Reverse(items[1..]);
      SizeReversed(rest, items[1..]);
      assert rest + Reverse(items) == below + [items[0]];
      SizeAllSnoc(below, items[0]);
    }
  }

  /** `flatten_reasoning_path` */
  method FlattenReasoningPath(root: Node) returns (flattened: seq<Triple>)
    ensures flattened == Preorder(root)
  {
    flattened := [];
    var stack := [root];
    assert Pending(stack) == Preorder(root) + Pending([]);
    while stack != []
      invariant flattened + Pending(stack) == Preorder(root)
      decreases SizeAll(stack)
    {
      var node, rest := stack[|stack| - 1], stack[..|stack| - 1];
      assert stack == rest + [node];
      SizeAllSnoc(rest, node);
      stack := rest;
      match node {
        case Atom(_) =>
        case List(items) =>
          if IsTriplet(items) {
            flattened := flattened + [(items[0].text, items[1].text, items[2].text)];
          } else {
            PendingReversed(rest, items);
            SizeReversed(rest, items);
            ConcatAssociates(flattened, PreorderAll(items), Pending(rest));
            stack := stack + Reverse(items);
          }
      }
    }
  }

  // ---------- deduplication ----------

  /** `str.lower` and `str.strip` are any functions. */
  datatype Text = Text(lower: string -> string, strip: string -> string) {
    function Lower(t: Triple): Triple { (lower(t.0), lower(t.1), lower(t.2)) }

    function Key(t: Triple): Triple { (strip(lower(t.0)), strip(lower(t.1)), strip(lower(t.2))) }
  }

  /** No two triplets with one key. */
  ghost predicate KeysDiffer(text: Text, ts: seq<Triple>) {
    forall i, j :: 0 <= i < j < |ts| ==> text.Key(ts[i]) != text.Key(ts[j])
  }

  predicate HasKey(text: Text, ts: seq<Triple>, key: Triple) {
    exists i :: 0 <= i < |ts| && text.Key(ts[i]) == key
  }

  /** The first triplet of every key, in order. */
  function FirstPerKey(text: Text, ts: seq<Triple>): (r: seq<Triple>) {
    if ts == [] then []
    else
      var before, last := FirstPerKey(text, ts[..|ts| - 1]), ts[|ts| - 1];
      if HasKey(text, before, text.Key(last)) then before else before + [last]
  }

  lemma KeyAdded(text: Text, before: seq<Triple>, t: Triple, key: Triple)
    ensures HasKey(text, before + [t], key) <==> HasKey(text, before, key) || text.Key(t) == key
  {
    var after := before + [t];
    if HasKey(text, before, key) {
      var i :| 0 <= i < |before| && text.Key(before[i]) == key;
      assert after[i] == before[i];
    }
    assert after[|before|] == t;
  }

  /** Deduplicating keeps one triplet of every key, and invents none. */
  lemma {:induction false} FirstPerKeyOk(text: Text, ts: seq<Triple>)
    ensures KeysDiffer(text, FirstPerKey(text, ts)) && forall t :: t in FirstPerKey(text, ts) ==> t in ts
    ensures forall t :: t in ts ==> HasKey(text, FirstPerKey(text, ts), text.Key(t))
  {
    if ts != [] {
      var before, last := FirstPerKey(text, ts[..|ts| - 1]), ts[|ts| - 1];
      FirstPerKeyOk(text, ts[..|ts| - 1]);
      forall t | t in ts ensures HasKey(text, FirstPerKey(text, ts), text.Key(t)) {
        assert t == last || t in ts[..|ts| - 1];
        KeyAdded(text, before, last, text.Key(t));
      }
    }
  }

  /** The fields of both are the same once lower-cased and stripped. */
  predicate SameFields(text: Text, a: Triple, b: Triple) {
    && text.strip(text.lower(a.0)) == text.strip(text.lower(b.0))
    && text.strip(text.lower(a.1)) == text.strip(text.lower(b.1))
    && text.strip(text.lower(a.2)) == text.strip(text.lower(b.2))
  }

  /** No triplet before the i-th has the same fields. */
  predicate IsFirst(text: Text, ts: seq<Triple>, i: nat) {
    i < |ts| && forall j :: 0 <= j < i ==> !SameFields(text, ts[j], ts[i])
  }

  ghost predicate AreFirsts(text: Text, ts: seq<Triple>, at: seq<nat>) {
    forall i: nat :: i in at <==> IsFirst(text, ts, i)
  }

  lemma IsFirstLast(text: Text, ts: seq<Triple>, last: Triple)
    ensures IsFirst(text, ts + [last], |ts|) <==> !HasKey(text, FirstPerKey(text, ts), text.Key(last))
  {
    FirstPerKeyOk(text, ts);
    var firsts, all := FirstPerKey(text, ts), ts + [last];
    if HasKey(text, firsts, text.Key(last)) {
      var i :| 0 <= i < |firsts| && text.Key(firsts[i]) == text.Key(last);
      assert firsts[i] in ts;
      var j :| 0 <= j < |ts| && ts[j] == firsts[i];
      assert SameFields(text, all[j], all[|ts|]);
    } else {
      forall j | 0 <= j < |ts| ensures !SameFields(text, all[j], all[|ts|]) {
        assert ts[j] in ts && HasKey(text, firsts, text.Key(ts[j]));
      }
    }
  }

  lemma IsFirstBefore(text: Text, ts: seq<Triple>, last: Triple, i: nat)
    requires i < |ts|
    ensures IsFirst(text, ts + [last], i) <==> IsFirst(text, ts, i)
  {
    var all := ts + [last];
    assert forall j :: 0 <= j <= i ==> all[j] == ts[j];
    if IsFirst(text, all, i) {
      forall j | 0 <= j < i ensures !SameFields(text, ts[j], ts[i]) { assert !SameFields(text, all[j], all[i]); }
    }
  }

  lemma AreFirstsNext(text: Text, ts: seq<Triple>, at: seq<nat>, last: Triple)
    requires AreFirsts(text, ts, at)
    ensures AreFirsts(text, ts + [last],
                      if HasKey(text, FirstPerKey(text, ts), text.Key(last)) then at else at + [|ts|])
  {
    IsFirstLast(text, ts, last);
    forall i: nat
      ensures i in (if HasKey(text, FirstPerKey(text, ts), text.Key(last)) then at else at + [|ts|])
        <==> IsFirst(text, ts + [last], i)
    {
      assert i in at <==> IsFirst(text, ts, i);
      if i < |ts| { IsFirstBefore(text, ts, last, i); }
    }
  }

  /** Kept are exactly the triplets with no earlier one of the same fields, in their order. */
  lemma {:induction false} FirstsKept(text: Text, ts: seq<Triple>) returns (at: seq<nat>)
    ensures ListedFrom(ts, at, FirstPerKey(text, ts)) && AreFirsts(text, ts, at)
  {
    if ts == [] {
      at := [];
    } else {
      var front, last := ts[..|ts| - 1], ts[|ts| - 1];
      assert ts == front + [last];
      at := FirstsKept(text, front);
      AreFirstsNext(text, front, at, last);
      ListedFromMore(front, at, FirstPerKey(text, front), last);
      if !HasKey(text, FirstPerKey(text, front), text.Key(last)) { at := at + [|front|]; }
    }
  }

  /** The dedup at the end of `extract_triplets_from_reasoning`. */
  method UniqueTriplets(text: Text, triplets: seq<Triple>) returns (unique: seq<Triple>)
    ensures unique == FirstPerKey(text, triplets)
  {
    var seen: set<Triple> := {};
    unique := [];
    for n := 0 to |triplets|
      invariant forall k :: k in seen <==> HasKey(text, unique, k)
      invariant unique == FirstPerKey(text, triplets[..n])
    {
      assert triplets[..n + 1][..n] == triplets[..n];
      var key := text.Key(triplets[n]);
      if key !in seen {
        ghost var before, were := unique, seen;
        seen := seen + {key};
        unique := unique + [triplets[n]];
        forall k ensures k in seen <==> HasKey(text, unique, k) { KeyAdded(text, before, triplets[n], k); }
      }
    }
    TakeAll(triplets, |triplets|);
  }

  // ---------- matching ----------

  function Lowered(text: Text, ts: seq<Triple>): (r: set<Triple>) {
    set i | 0 <= i < |ts| :: text.Lower(ts[i])
  }

  lemma {:induction false} LoweredSize(text: Text, ts: seq<Triple>)
    ensures |Lowered(text, ts)| <= |ts|
    ensures KeysDiffer(text, ts) ==> |Lowered(text, ts)| == |ts|
  {
    if ts != [] {
      var front, last := ts[..|ts| - 1], ts[|ts| - 1];
      LoweredSize(text, front);
      assert Lowered(text, ts) == Lowered(text, front) + {text.Lower(last)};
      if KeysDiffer(text, ts) {
        assert text.Lower(last) !in Lowered(text, front) by {
          forall i | 0 <= i < |front| ensures text.Lower(front[i]) != text.Lower(last) {
            assert text.Key(ts[i]) != text.Key(ts[|ts| - 1]);
          }
        }
      }
    }
  }

  /** Each field of `low` is the lower case of that field of t. */
  predicate IsLowerOf(text: Text, low: Triple, t: Triple) {
    low.0 == text.lower(t.0) && low.1 == text.lower(t.1) && low.2 == text.lower(t.2)
  }

  lemma LoweredHas(text: Text, ts: seq<Triple>, low: Triple)
    ensures low in Lowered(text, ts) <==> exists i :: 0 <= i < |ts| && IsLowerOf(text, low, ts[i])
  {
    if low in Lowered(text, ts) {
      var i :| 0 <= i < |ts| && low == text.Lower(ts[i]);
      assert IsLowerOf(text, low, ts[i]);
    }
    if i :| 0 <= i < |ts| && IsLowerOf(text, low, ts[i]) {
      assert low == text.Lower(ts[i]);
    }
  }

  /** The inner loop of the count: does some reference triplet equal this one in lower case? */
  method Matches(text: Text, t: Triple, path: seq<Triple>) returns (found: bool)
    ensures found <==> text.Lower(t) in Lowered(text, path)
  {
    for i := 0 to |path|
      invariant forall j :: 0 <= j < i ==> text.Lower(path[j]) != text.Lower(t)
    {
      if text.lower(t.0) == text.lower(path[i].0) && text.lower(t.1) == text.lower(path[i].1)
         && text.lower(t.2) == text.lower(path[i].2) {
        return true;
      }
    }
    return false;
  }

  lemma CommonOneMore(before: set<Triple>, t: Triple, all: set<Triple>)
    requires t !in before
    ensures |(before + {t}) * all| == |before * all| + if t in all then 1 else 0
  {
    assert (before + {t}) * all == if t in all then before * all + {t} else before * all;
  }

  lemma MatchOneMore(text: Text, extracted: seq<Triple>, path: seq<Triple>, n: nat)
    requires n < |extracted| && KeysDiffer(text, extracted)
    ensures |Lowered(text, extracted[..n + 1]) * Lowered(text, path)|
      == |Lowered(text, extracted[..n]) * Lowered(text, path)|
         + if text.Lower(extracted[n]) in Lowered(text, path) then 1 else 0
  {
    var t, all := text.Lower(extracted[n]), Lowered(text, path);
    var before, after := Lowered(text, extracted[..n]), Lowered(text, extracted[..n + 1]);
    assert extracted[..n + 1][..n] == extracted[..n] && extracted[..n + 1][n] == extracted[n];
    assert after == before + {t};
    assert t !in before by {
      forall i | 0 <= i < n ensures text.Lower(extracted[..n][i]) != t {
        assert text.Key(extracted[i]) != text.Key(extracted[n]);
      }
    }
    CommonOneMore(before, t, all);
  }

  /** The matched count: how many different reference triplets, up to case, were extracted. */
  method CountMatches(text: Text, extracted: seq<Triple>, path: seq<Triple>) returns (matched: nat)
    requires KeysDiffer(text, extracted)
    ensures matched == |Lowered(text, extracted) * Lowered(text, path)| <= |path|
  {
    matched := 0;
    for n := 0 to |extracted|
      invariant matched == |Lowered(text, extracted[..n]) * Lowered(text, path)|
    {
      var found := Matches(text, extracted[n], path);
      MatchOneMore(text, extracted, path, n);
      if found { matched := matched + 1; }
    }
    TakeAll(extracted, |extracted|);
    LoweredSize(text, path);
    var both, all := Lowered(text, extracted) * Lowered(text, path), Lowered(text, path);
    assert all == both + (all - both);
  }

  lemma ShareAtMostOne(part: nat, whole: nat)
    requires part <= whole && whole > 0
    ensures 0.0 <= part as real / whole as real <= 1.0
  {
  }

  /**
   `evaluate_reasoning_path_match`, from the triplets found in the text: the number of different ones among
   the deduplicated triplets that occur in the reference, over the length of the reference; at most one.
   */
  method EvaluatePathMatch(text: Text, triplets: seq<Triple>, root: Node) returns (score: real)
    ensures 0.0 <= score <= 1.0
    ensures Preorder(root) == [] ==> score == 0.0
    ensures Preorder(root) != [] ==>
      score == |Lowered(text, FirstPerKey(text, triplets)) * Lowered(text, Preorder(root))| as real
               / |Preorder(root)| as real
  {
    var extracted := UniqueTriplets(text, triplets);
    if extracted == [] {
      assert Lowered(text, extracted) * Lowered(text, Preorder(root)) == {};
      return 0.0;
    }
    var path := FlattenReasoningPath(root);
    if path == [] { return 0.0; }
    FirstPerKeyOk(text, triplets);
    var matched := CountMatches(text, extracted, path);
    ShareAtMostOne(matched, |path|);
    return matched as real / |path| as real;
  }

  /** Where stripping does not change a lower-cased field, deduplication loses nothing that could match. */
  lemma DedupLosesNothing(text: Text, triplets: seq<Triple>)
    requires forall t :: t in triplets ==> text.Key(t) == text.Lower(t)
    ensures Lowered(text, FirstPerKey(text, triplets)) == Lowered(text, triplets)
  {
    var unique := FirstPerKey(text, triplets);
    FirstPerKeyOk(text, triplets);
    forall k ensures k in Lowered(text, unique) <==> k in Lowered(text, triplets) {
      if k in Lowered(text, unique) {
        var i :| 0 <= i < |unique| && text.Lower(unique[i]) == k;
        assert unique[i] in triplets;
      }
      if k in Lowered(text, triplets) {
        var i :| 0 <= i < |triplets| && text.Lower(triplets[i]) == k;
        assert triplets[i] in triplets;
        assert HasKey(text, unique, text.Key(triplets[i]));
        var j :| 0 <= j < |unique| && text.Key(unique[j]) == k;
        assert unique[j] in triplets;
      }
    }
  }

  // ---------- the F1 score of the answers ----------

  /** `evaluate_f1_score`, on the normalised answer sets. */
  function F1(pred: set<string>, gold: set<string>): real {
    if |pred| == 0 && |gold| == 0 then 1.0
    else if |pred| == 0 || |gold| == 0 then 0.0
    else
      var precision := |pred * gold| as real / |pred| as real;
      var recall := |pred * gold| as real / |gold| as real;
      if precision + recall == 0.0 then 0.0 else 2.0 * precision * recall / (precision + recall)
  }

  lemma HarmonicMean(i: real, p: real, g: real)
    requires i > 0.0 && p > 0.0 && g > 0.0
    ensures i / p > 0.0 && i / g > 0.0
    ensures 2.0 * (i / p) * (i / g) / (i / p + i / g) == 2.0 * i / (p + g)
  {
    var a, b := i / p, i / g;
    assert a * p == i && b * g == i;
    assert a * b * (p + g) == i * (a + b);
    assert 2.0 * a * b * (p + g) == 2.0 * i * (a + b);
  }

  /** The score is the share of common answers in both sets together. */
  lemma F1IsShare(pred: set<string>, gold: set<string>)
    requires |pred| + |gold| > 0
    ensures F1(pred, gold) == 2.0 * |pred * gold| as real / (|pred| + |gold|) as real
  {
    if |pred| == 0 || |gold| == 0 {
      assert pred * gold == {};
    } else if |pred * gold| > 0 {
      HarmonicMean(|pred * gold| as real, |pred| as real, |gold| as real);
    }
  }

  lemma CommonSize(a: set<string>, b: set<string>)
    ensures |a * b| <= |a| && |a * b| <= |b| && a * b == b * a
    ensures |a * b| == |a| == |b| <==> a == b
  {
    assert a == a * b + (a - b) && b == a * b + (b - a);
    if a == b { assert a * b == a; }
  }

  lemma ShareOfTwo(common: nat, p: nat, g: nat)
    requires common <= p && common <= g && p + g > 0
    ensures 0.0 <= 2.0 * common as real / (p + g) as real <= 1.0
    ensures 2.0 * common as real / (p + g) as real == 1.0 <==> common == p == g
  {
    var n, d := 2.0 * common as real, (p + g) as real;
    assert n <= d && d > 0.0;
    assert n / d == 1.0 <==> n == d;
  }

  /** It lies between 0 and 1, is symmetric, and is 1 exactly for equal sets. */
  lemma F1Bounds(pred: set<string>, gold: set<string>)
    ensures 0.0 <= F1(pred, gold) <= 1.0
    ensures F1(pred, gold) == F1(gold, pred)
    ensures F1(pred, gold) == 1.0 <==> pred == gold
  {
    CommonSize(pred, gold);
    if |pred| + |gold| > 0 {
      F1IsShare(pred, gold);
      F1IsShare(gold, pred);
      ShareOfTwo(|pred * gold|, |pred|, |gold|);
    } else {
      assert pred == {} == gold;
    }
  }
}
