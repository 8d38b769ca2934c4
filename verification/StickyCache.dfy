/**
 The least-recently-used cache that verl/experimental/agent_loop/agent_loop.py keeps from request ids to
 servers: reading a key renews it, storing a new key in a full cache drops the key renewed longest ago.
 */
module StickyCache {

  datatype Entry<+K, +V> = Entry(key: K, value: V)

  /** Entries from the least to the most recently renewed. */
  type Cache<K, V> = seq<Entry<K, V>>

  function Find<K(==), V>(c: Cache<K, V>, key: K): (i: nat)
    ensures i <= |c| && (i < |c| ==> c[i].key == key)
    ensures forall j :: 0 <= j < i ==> c[j].key != key
  {
    if c == [] || c[0].key == key then 0 else 1 + Find(c[1..], key)
  }

  predicate Holds<K(==), V>(c: Cache<K, V>, key: K) {
    Find(c, key) < |c|
  }

  predicate Unique<K(==), V>(c: Cache<K, V>) {
    forall i, j :: 0 <= i < j < |c| ==> c[i].key != c[j].key
  }

  predicate Ok<K(==), V>(c: Cache<K, V>, max: nat) {
    Unique(c) && |c| <= max
  }

  /** Reading a key makes it the most recent. */
  function Renew<K(==), V>(c: Cache<K, V>, key: K): (r: Cache<K, V>)
    requires Holds(c, key)
    ensures |r| == |c|
  {
    var i := Find(c, key);
    c[..i] + c[i + 1..] + [c[i]]
  }

  /** Storing a key that is not held, dropping the oldest entry of a full cache. */
  function Store<K(==), V>(c: Cache<K, V>, key: K, value: V, max: nat): (r: Cache<K, V>)
    requires |c| <= max && max >= 1
    ensures |r| <= max
  {
    (if |c| == max then c[1..] else c) + [Entry(key, value)]
  }

  /** A request: served from the cache if possible, otherwise by `offered`, which is then remembered. */
  function Access<K(==), V>(c: Cache<K, V>, key: K, offered: V, max: nat): Cache<K, V>
    requires |c| <= max && max >= 1
  {
    if Holds(c, key) then Renew(c, key) else Store(c, key, offered, max)
  }

  function Served<K(==), V>(c: Cache<K, V>, key: K, offered: V): V {
    if Holds(c, key) then c[Find(c, key)].value else offered
  }

  lemma AccessOk<K, V>(c: Cache<K, V>, key: K, offered: V, max: nat)
    requires Ok(c, max) && max >= 1
    ensures Ok(Access(c, key, offered, max), max)
    ensures var r := Access(c, key, offered, max);
      |r| >= 1 && r[|r| - 1] == Entry(key, Served(c, key, offered))
  {
    var r := Access(c, key, offered, max);
    if Holds(c, key) {
      var i := Find(c, key);
      assert forall j :: 0 <= j < |r| ==> r[j] == if j < i then c[j] else if j < |c| - 1 then c[j + 1] else c[i];
    } else {
      var d := if |c| == max then 1 else 0;
      assert forall j :: 0 <= j < |r| - 1 ==> r[j] == c[j + d];
    }
  }

  /** The cache after the first n requests of a run; `offered[i]` is the server a miss at i would get. */
  function After<K(==), V>(c: Cache<K, V>, keys: seq<K>, offered: seq<V>, max: nat, n: nat): (r: Cache<K, V>)
    requires |c| <= max && max >= 1 && n <= |keys| && n <= |offered|
    ensures |r| <= max
  {
    if n == 0 then c else Access(After(c, keys, offered, max, n - 1), keys[n - 1], offered[n - 1], max)
  }

  /** The server that request n gets. */
  function ServedAt<K(==), V>(c: Cache<K, V>, keys: seq<K>, offered: seq<V>, max: nat, n: nat): V
    requires |c| <= max && max >= 1 && n < |keys| && n < |offered|
  {
    Served(After(c, keys, offered, max, n), keys[n], offered[n])
  }

  /** The first n requests do not depend on what later ones are offered. */
  lemma {:induction false} AfterExtends<K, V>(c: Cache<K, V>, keys: seq<K>, offered: seq<V>, more: seq<V>, max: nat,
      n: nat)
    requires |c| <= max && max >= 1 && n <= |keys| && n <= |offered| <= |more| && more[..|offered|] == offered
    ensures After(c, keys, more, max, n) == After(c, keys, offered, max, n)
    ensures n < |keys| && n < |offered| ==> ServedAt(c, keys, more, max, n) == ServedAt(c, keys, offered, max, n)
  {
    assert forall i :: 0 <= i < |offered| ==> more[i] == more[..|offered|][i];
    if n > 0 { AfterExtends(c, keys, offered, more, max, n - 1); }
  }

  lemma {:induction false} AfterOk<K, V>(c: Cache<K, V>, keys: seq<K>, offered: seq<V>, max: nat, n: nat)
    requires Ok(c, max) && max >= 1 && |keys| == |offered| && n <= |keys|
    ensures Ok(After(c, keys, offered, max, n), max)
  {
    if n > 0 {
      AfterOk(c, keys, offered, max, n - 1);
      AccessOk(After(c, keys, offered, max, n - 1), keys[n - 1], offered[n - 1], max);
    }
  }

  /** `key` is held with `value`, and everything renewed later is among `since`. */
  ghost predicate KeptAt<K, V>(c: Cache<K, V>, key: K, value: V, since: set<K>, p: nat) {
    && p < |c| && c[p] == Entry(key, value)
    && forall i :: p < i < |c| ==> c[i].key in since
  }

  ghost predicate Kept<K, V>(c: Cache<K, V>, key: K, value: V, since: set<K>) {
    exists p: nat :: KeptAt(c, key, value, since, p)
  }

  /** Distinct keys behind a position cannot outnumber the set they come from. */
  lemma {:induction false} KeysFit<K, V>(c: Cache<K, V>, p: nat, since: set<K>)
    requires Unique(c) && p <= |c| && forall i :: p <= i < |c| ==> c[i].key in since
    ensures |c| - p <= |since|
    decreases |c| - p
  {
    if p < |c| {
      KeysFit(c, p + 1, since - {c[p].key});
    }
  }

  /** Another request leaves the key in the cache as long as few enough distinct ones have been made. */
  lemma AccessKeeps<K, V>(c: Cache<K, V>, other: K, offered: V, max: nat, key: K, value: V, since: set<K>)
    requires Ok(c, max) && max >= 1 && other != key && key !in since && Kept(c, key, value, since)
    requires |since + {other}| < max
    ensures Kept(Access(c, other, offered, max), key, value, since + {other})
  {
    var p: nat :| KeptAt(c, key, value, since, p);
    var r := Access(c, other, offered, max);
    if Holds(c, other) {
      var i := Find(c, other);
      var q := if i < p then p - 1 else p;
      assert KeptAt(r, key, value, since + {other}, q);
    } else if |c| == max {
      if p == 0 { KeysFit(c, 1, since - {other}); }
      assert KeptAt(r, key, value, since + {other}, p - 1);
    } else {
      assert KeptAt(r, key, value, since + {other}, p);
    }
  }

  /** Asking for the key itself renews it with the same value. */
  lemma AccessRenews<K, V>(c: Cache<K, V>, key: K, offered: V, max: nat, value: V, since: set<K>)
    requires Ok(c, max) && max >= 1 && Kept(c, key, value, since)
    ensures Served(c, key, offered) == value
    ensures Kept(Access(c, key, offered, max), key, value, since)
  {
    var p: nat :| KeptAt(c, key, value, since, p);
    assert Find(c, key) == p;
    assert KeptAt(Access(c, key, offered, max), key, value, since, |c| - 1);
  }

  /** The distinct keys other than keys[i] that are requested between i and n. */
  function Others<K(==)>(keys: seq<K>, i: nat, n: nat): (r: set<K>)
    requires i < n <= |keys|
    ensures keys[i] !in r
  {
    if n == i + 1 then {}
    else if keys[n - 1] == keys[i] then Others(keys, i, n - 1)
    else Others(keys, i, n - 1) + {keys[n - 1]}
  }

  lemma OneMoreIsMore<K>(a: set<K>, x: K)
    ensures |a| <= |a + {x}|
  {
    if x in a {
      assert a + {x} == a;
    } else {
      assert |a + {x}| == |a| + 1;
    }
  }

  lemma {:induction false} OthersGrow<K>(keys: seq<K>, i: nat, m: nat, n: nat)
    requires i < m <= n <= |keys|
    ensures Others(keys, i, m) <= Others(keys, i, n) && |Others(keys, i, m)| <= |Others(keys, i, n)|
  {
    if m < n {
      OthersGrow(keys, i, m, n - 1);
      OneMoreIsMore(Others(keys, i, n - 1), keys[n - 1]);
    }
  }

  lemma {:induction false} KeptSince<K, V>(c: Cache<K, V>, keys: seq<K>, offered: seq<V>, max: nat, i: nat, n: nat)
    requires Ok(c, max) && max >= 1 && |keys| == |offered| && i < n <= |keys|
    requires |Others(keys, i, n)| < max
    ensures Kept(After(c, keys, offered, max, n), keys[i], ServedAt(c, keys, offered, max, i), Others(keys, i, n))
  {
    var value, before := ServedAt(c, keys, offered, max, i), After(c, keys, offered, max, n - 1);
    AfterOk(c, keys, offered, max, n - 1);
    AccessOk(before, keys[n - 1], offered[n - 1], max);
    if n == i + 1 {
      var r := After(c, keys, offered, max, n);
      assert KeptAt(r, keys[i], value, {}, |r| - 1);
    } else {
      OthersGrow(keys, i, n - 1, n);
      KeptSince(c, keys, offered, max, i, n - 1);
      if keys[n - 1] == keys[i] {
        AccessRenews(before, keys[i], offered[n - 1], max, value, Others(keys, i, n - 1));
      } else {
        AccessKeeps(before, keys[n - 1], offered[n - 1], max, keys[i], value, Others(keys, i, n - 1));
      }
    }
  }

  /**
   Multi-turn requests stick to their server: whatever servers the misses in between are offered, a request
   is served like the previous one with its id as long as fewer than `max` other ids came in between.
   */
  lemma Sticky<K, V>(c: Cache<K, V>, keys: seq<K>, offered: seq<V>, max: nat, i: nat, j: nat)
    requires Ok(c, max) && max >= 1 && |keys| == |offered| && i < j < |keys| && keys[i] == keys[j]
    requires |Others(keys, i, j)| < max
    ensures ServedAt(c, keys, offered, max, j) == ServedAt(c, keys, offered, max, i)
  {
    KeptSince(c, keys, offered, max, i, j);
    AfterOk(c, keys, offered, max, j);
    AccessRenews(After(c, keys, offered, max, j), keys[j], offered[j], max,
                 ServedAt(c, keys, offered, max, i), Others(keys, i, j));
  }

  // ---------- exactly when ----------

  /** The keys of the entries from position p on. */
  function KeysFrom<K(==), V>(c: Cache<K, V>, p: nat): set<K> {
    set q | p <= q < |c| :: c[q].key
  }

  lemma {:induction false} KeysFromFew<K, V>(c: Cache<K, V>, p: nat, some: set<K>)
    requires p <= |c| && some <= KeysFrom(c, p)
    ensures |some| <= |c| - p
    decreases |c| - p
  {
    if p == |c| {
      assert some == {};
    } else {
      var x := c[p].key;
      assert some - {x} <= KeysFrom(c, p + 1);
      KeysFromFew(c, p + 1, some - {x});
      assert some <= some - {x} + {x};
    }
  }

  /** These keys have all been renewed later than `key`. */
  predicate NewerThan<K(==), V>(c: Cache<K, V>, key: K, some: set<K>) {
    some <= KeysFrom(c, Find(c, key) + 1)
  }

  lemma FoundAt<K, V>(c: Cache<K, V>, key: K, p: nat)
    requires Unique(c) && p < |c| && c[p].key == key
    ensures Find(c, key) == p
  {
  }

  /** Renewing entry i puts it behind entry p, and nothing that was behind p in front of it. */
  lemma RenewAges<K, V>(c: Cache<K, V>, i: nat, p: nat, since: set<K>)
    requires i < |c| && p < |c| && i != p && since <= KeysFrom(c, p + 1)
    ensures var r, f := c[..i] + c[i + 1..] + [c[i]], if i < p then p - 1 else p;
      r[f] == c[p] && since + {c[i].key} <= KeysFrom(r, f + 1)
  {
    var r, f := c[..i] + c[i + 1..] + [c[i]], if i < p then p - 1 else p;
    assert r[|c| - 1] == c[i];
    forall k | k in since ensures k in KeysFrom(r, f + 1) {
      var q :| p + 1 <= q < |c| && c[q].key == k;
      var n := if q < i then q else if q == i then |c| - 1 else q - 1;
      assert r[n] == c[q] && f + 1 <= n;
    }
  }

  lemma StoreAges<K, V>(c: Cache<K, V>, d: nat, e: Entry<K, V>, p: nat, since: set<K>)
    requires d <= p < |c| && since <= KeysFrom(c, p + 1)
    ensures var r, f := c[d..] + [e], p - d;
      r[f] == c[p] && since + {e.key} <= KeysFrom(r, f + 1)
  {
    var r := c[d..] + [e];
    assert r[|c| - d] == e;
    forall k | k in since ensures k in KeysFrom(r, p - d + 1) {
      var q :| p + 1 <= q < |c| && c[q].key == k;
      assert r[q - d] == c[q];
    }
  }

  lemma RenewedAt<K, V>(c: Cache<K, V>, i: nat, f: nat)
    requires i < |c| && f < |c| - 1
    ensures (c[..i] + c[i + 1..] + [c[i]])[f] == c[if f < i then f else f + 1]
  {
  }

  lemma RenewedHad<K, V>(c: Cache<K, V>, other: K, key: K)
    requires Unique(c) && other != key && Holds(c, other) && Holds(Renew(c, other), key)
    ensures Holds(c, key)
  {
    var i, f := Find(c, other), Find(Renew(c, other), key);
    assert Renew(c, other)[|c| - 1] == c[i];
    RenewedAt(c, i, f);
    FoundAt(c, key, if f < i then f else f + 1);
  }

  lemma StoredHad<K, V>(c: Cache<K, V>, d: nat, e: Entry<K, V>, key: K)
    requires Unique(c) && d <= |c| && e.key != key && Holds(c[d..] + [e], key)
    ensures d <= Find(c, key) < |c|
  {
    var f := Find(c[d..] + [e], key);
    assert (c[d..] + [e])[|c| - d] == e;
    assert (c[d..] + [e])[f] == c[d + f];
    FoundAt(c, key, d + f);
  }

  lemma RenewMakesNewer<K, V>(c: Cache<K, V>, other: K, key: K, since: set<K>)
    requires Unique(c) && other != key && Holds(c, other) && Holds(c, key) && NewerThan(c, key, since)
    requires Unique(Renew(c, other))
    ensures NewerThan(Renew(c, other), key, since + {other})
  {
    var i, p := Find(c, other), Find(c, key);
    RenewAges(c, i, p, since);
    FoundAt(Renew(c, other), key, if i < p then p - 1 else p);
  }

  lemma StoreMakesNewer<K, V>(c: Cache<K, V>, d: nat, e: Entry<K, V>, key: K, since: set<K>)
    requires Unique(c) && d <= Find(c, key) < |c| && NewerThan(c, key, since)
    requires Unique(c[d..] + [e])
    ensures NewerThan(c[d..] + [e], key, since + {e.key})
  {
    var p := Find(c, key);
    StoreAges(c, d, e, p, since);
    FoundAt(c[d..] + [e], key, p - d);
  }

  /** If the key is still held, these have all been renewed later. */
  predicate Aged<K(==), V>(c: Cache<K, V>, key: K, since: set<K>) {
    Holds(c, key) ==> NewerThan(c, key, since)
  }

  /** A request for another key puts that key behind, and nothing that was behind in front. */
  lemma AccessAges<K, V>(c: Cache<K, V>, other: K, offered: V, max: nat, key: K, since: set<K>)
    requires Ok(c, max) && max >= 1 && other != key && Aged(c, key, since)
    ensures Aged(Access(c, other, offered, max), key, since + {other})
  {
    AccessOk(c, other, offered, max);
    if !Holds(Access(c, other, offered, max), key) {
    } else if Holds(c, other) {
      RenewedHad(c, other, key);
      RenewMakesNewer(c, other, key, since);
    } else {
      var d, e := if |c| == max then 1 else 0, Entry(other, offered);
      assert Access(c, other, offered, max) == c[d..] + [e];
      StoredHad(c, d, e, key);
      StoreMakesNewer(c, d, e, key, since);
    }
  }

  predicate NotAgain<K(==)>(keys: seq<K>, i: nat, j: nat)
    requires i < j <= |keys|
  {
    forall m :: i < m < j ==> keys[m] != keys[i]
  }

  lemma OthersNext<K>(keys: seq<K>, i: nat, m: nat)
    requires i < m < |keys| && NotAgain(keys, i, m + 1)
    ensures keys[m] != keys[i] && Others(keys, i, m + 1) == Others(keys, i, m) + {keys[m]}
  {
  }

  lemma NotAgainBefore<K>(keys: seq<K>, i: nat, m: nat, n: nat)
    requires i < m <= n <= |keys| && NotAgain(keys, i, n)
    ensures NotAgain(keys, i, m)
  {
  }

  lemma AgedNext<K, V>(c: Cache<K, V>, keys: seq<K>, offered: seq<V>, max: nat, i: nat, m: nat, key: K,
      others: set<K>)
    requires Ok(c, max) && max >= 1 && |keys| == |offered| && i < m < |keys| && NotAgain(keys, i, m + 1)
    requires Aged(After(c, keys, offered, max, m), keys[i], Others(keys, i, m))
    requires key == keys[i] && others == Others(keys, i, m + 1)
    ensures Aged(After(c, keys, offered, max, m + 1), key, others)
  {
    AfterOk(c, keys, offered, max, m);
    OthersNext(keys, i, m);
    AccessAges(After(c, keys, offered, max, m), keys[m], offered[m], max, keys[i], Others(keys, i, m));
  }

  lemma {:induction false} AgedUntil<K, V>(c: Cache<K, V>, keys: seq<K>, offered: seq<V>, max: nat, i: nat, n: nat)
    requires Ok(c, max) && max >= 1 && |keys| == |offered| && i < n <= |keys| && NotAgain(keys, i, n)
    ensures Aged(After(c, keys, offered, max, n), keys[i], Others(keys, i, n))
  {
    if n > i + 1 {
      NotAgainBefore(keys, i, n - 1, n);
      AgedUntil(c, keys, offered, max, i, n - 1);
      AgedNext(c, keys, offered, max, i, n - 1, keys[i], Others(keys, i, n));
    }
  }

  /** An id is remembered exactly as long as fewer than `max` other ids have come since its last request. */
  lemma HeldIff<K, V>(c: Cache<K, V>, keys: seq<K>, offered: seq<V>, max: nat, i: nat, j: nat)
    requires Ok(c, max) && max >= 1 && |keys| == |offered| && i < j <= |keys| && NotAgain(keys, i, j)
    ensures Holds(After(c, keys, offered, max, j), keys[i]) <==> |Others(keys, i, j)| < max
  {
    var now := After(c, keys, offered, max, j);
    AfterOk(c, keys, offered, max, j);
    if |Others(keys, i, j)| < max {
      KeptSince(c, keys, offered, max, i, j);
      var p: nat :| KeptAt(now, keys[i], ServedAt(c, keys, offered, max, i), Others(keys, i, j), p);
      FoundAt(now, keys[i], p);
    }
    if Holds(now, keys[i]) {
      AgedUntil(c, keys, offered, max, i, j);
      KeysFromFew(now, Find(now, keys[i]) + 1, Others(keys, i, j));
    }
  }

  /** So the next request with an id stays with its server in exactly these cases, and else takes the one offered. */
  lemma StickyIff<K, V>(c: Cache<K, V>, keys: seq<K>, offered: seq<V>, max: nat, i: nat, j: nat)
    requires Ok(c, max) && max >= 1 && |keys| == |offered| && i < j < |keys| && keys[i] == keys[j]
    requires NotAgain(keys, i, j)
    ensures ServedAt(c, keys, offered, max, j)
         == if |Others(keys, i, j)| < max then ServedAt(c, keys, offered, max, i) else offered[j]
  {
    HeldIff(c, keys, offered, max, i, j);
    if |Others(keys, i, j)| < max { Sticky(c, keys, offered, max, i, j); }
  }

  /** With as many other ids as the cache has places, the server can change. */
  lemma StickyBoundTight<V>(a: V, b: V)
    requires a != b
    ensures var keys, offered := ["x", "y", "x"], [a, a, b];
      |Others(keys, 0, 2)| == 1 &&
      ServedAt<string, V>([], keys, offered, 1, 0) == a && ServedAt<string, V>([], keys, offered, 1, 2) == b
  {
    var keys, offered := ["x", "y", "x"], [a, a, b];
    var c1, c2 := After<string, V>([], keys, offered, 1, 1), After<string, V>([], keys, offered, 1, 2);
    assert After<string, V>([], keys, offered, 1, 0) == [];
    assert c1 == [Entry("x", a)];
    assert c2 == [Entry("y", a)] by { assert Find(c1, "y") == 1; }
    assert Find(c2, "x") == 1;
    assert Others(keys, 0, 2) == Others(keys, 0, 1) + {"y"} == {"y"};
  }

  /** A run that starts from c: after n requests the cache is `now` and `servers` have been handed out. */
  ghost predicate IsRun<K, V>(c: Cache<K, V>, keys: seq<K>, offered: seq<V>, max: nat, now: Cache<K, V>,
      servers: seq<V>)
    requires |c| <= max && max >= 1
  {
    && |servers| == |offered| <= |keys|
    && now == After(c, keys, offered, max, |offered|)
    && forall i :: 0 <= i < |servers| ==> servers[i] == ServedAt(c, keys, offered, max, i)
  }

  lemma RunGrows<K, V>(c: Cache<K, V>, keys: seq<K>, offered: seq<V>, max: nat, now: Cache<K, V>, servers: seq<V>,
      o: V)
    requires |c| <= max && max >= 1 && IsRun(c, keys, offered, max, now, servers) && |offered| < |keys|
    ensures |now| <= max
    ensures var key := keys[|offered|];
      IsRun(c, keys, offered + [o], max, Access(now, key, o, max), servers + [Served(now, key, o)])
  {
    var more := offered + [o];
    forall i | 0 <= i < |offered| ensures ServedAt(c, keys, more, max, i) == ServedAt(c, keys, offered, max, i) {
      AfterExtends(c, keys, offered, more, max, i);
    }
    AfterExtends(c, keys, offered, more, max, |offered|);
  }

  /** Sticky, for the servers that a run has handed out. */
  lemma RunSticky<K, V>(c: Cache<K, V>, keys: seq<K>, offered: seq<V>, max: nat, now: Cache<K, V>, servers: seq<V>,
      i: nat, j: nat)
    requires Ok(c, max) && max >= 1 && IsRun(c, keys, offered, max, now, servers) && |offered| == |keys|
    requires i < j < |keys| && keys[i] == keys[j] && |Others(keys, i, j)| < max
    ensures servers[i] == servers[j]
  {
    Sticky(c, keys, offered, max, i, j);
  }

  /** StickyIff, for the servers that a run has handed out. */
  lemma RunStickyIff<K, V>(c: Cache<K, V>, keys: seq<K>, offered: seq<V>, max: nat, now: Cache<K, V>, servers: seq<V>,
      i: nat, j: nat)
    requires Ok(c, max) && max >= 1 && IsRun(c, keys, offered, max, now, servers) && |offered| == |keys|
    requires i < j < |keys| && keys[i] == keys[j] && NotAgain(keys, i, j)
    ensures servers[j] == if |Others(keys, i, j)| < max then servers[i] else offered[j]
  {
    StickyIff(c, keys, offered, max, i, j);
  }
}
