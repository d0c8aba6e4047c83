/** One replica's in-memory cache tier: entries with a deadline and a size, a
    recency list with its index, an entry limit and a byte budget. */
module L1Cache {
  import opened CacheKeys

  datatype Entry = Entry(value: string, expiresAt: int, size: nat)

  datatype Limits = Limits(maxEntries: int, maxBytes: int)

  /** `lru` runs from the most to the least recently used key; `index` is the set
      of keys that have a list element; `cur` is the running byte count. */
  datatype L1 = L1(entries: map<Key, Entry>, lru: seq<Key>, index: set<Key>, cur: int)

  const EMPTY := L1(map[], [], {}, 0)

  // ---------------------------------------------------------------------------
  // Recency lists and byte totals
  // ---------------------------------------------------------------------------

  predicate NoDuplicates(s: seq<Key>) {
    forall i, j :: 0 <= i < j < |s| ==> s[i] != s[j]
  }

  function Keep(s: seq<Key>, ks: set<Key>): seq<Key> {
    if s == [] then [] else (if s[0] in ks then [s[0]] else []) + Keep(s[1..], ks)
  }

  function Drop(s: seq<Key>, ks: set<Key>): seq<Key> {
    if s == [] then [] else (if s[0] in ks then [] else [s[0]]) + Drop(s[1..], ks)
  }

  function Bytes(s: seq<Key>, m: map<Key, Entry>): nat {
    if s == [] then 0 else (if s[0] in m then m[s[0]].size else 0) + Bytes(s[1..], m)
  }

  lemma {:induction false} DropMembers(s: seq<Key>, ks: set<Key>)
    ensures forall x :: x in Drop(s, ks) <==> x in s && x !in ks
    ensures NoDuplicates(s) ==> NoDuplicates(Drop(s, ks))
    ensures |Drop(s, ks)| <= |s|
  {
    if s != [] {
      DropMembers(s[1..], ks);
      assert s == [s[0]] + s[1..];
    }
  }

  lemma {:induction false} DropNothing(s: seq<Key>, ks: set<Key>)
    requires forall x :: x in s ==> x !in ks
    ensures Drop(s, ks) == s && Keep(s, ks) == []
  {
    if s != [] {
      DropNothing(s[1..], ks);
    }
  }

  lemma {:induction false} DropTwice(s: seq<Key>, a: set<Key>, b: set<Key>)
    ensures Drop(Drop(s, a), b) == Drop(s, a + b)
  {
    if s != [] {
      DropTwice(s[1..], a, b);
      if s[0] in a {
        assert Drop(s, a) == Drop(s[1..], a);
      } else {
        assert Drop(s, a)[1..] == Drop(s[1..], a);
      }
    }
  }

  lemma {:induction false} BytesSplit(s: seq<Key>, ks: set<Key>, m: map<Key, Entry>)
    ensures Bytes(s, m) == Bytes(Drop(s, ks), m) + Bytes(Keep(s, ks), m)
  {
    if s != [] {
      BytesSplit(s[1..], ks, m);
      if s[0] in ks {
        assert Keep(s, ks)[1..] == Keep(s[1..], ks);
        assert Drop(s, ks) == Drop(s[1..], ks);
      } else {
        assert Drop(s, ks)[1..] == Drop(s[1..], ks);
        assert Keep(s, ks) == Keep(s[1..], ks);
      }
    }
  }

  lemma {:induction false} BytesAgree(s: seq<Key>, m: map<Key, Entry>, n: map<Key, Entry>)
    requires forall x :: x in s ==> (x in m <==> x in n) && (x in m ==> m[x].size == n[x].size)
    ensures Bytes(s, m) == Bytes(s, n)
  {
    if s != [] {
      BytesAgree(s[1..], m, n);
    }
  }

  lemma {:induction false} KeepOne(s: seq<Key>, k: Key)
    requires NoDuplicates(s) && k in s
    ensures Keep(s, {k}) == [k]
  {
    if s[0] == k {
      DropNothing(s[1..], {k});
    } else {
      KeepOne(s[1..], k);
      assert Keep(s, {k}) == Keep(s[1..], {k});
    }
  }

  lemma {:induction false} BytesWithout(s: seq<Key>, k: Key, m: map<Key, Entry>)
    requires NoDuplicates(s) && k in s && k in m
    ensures Bytes(s, m) == m[k].size + Bytes(Drop(s, {k}), m)
  {
    BytesSplit(s, {k}, m);
    KeepOne(s, k);
    assert [k][1..] == [];
  }

  // ---------------------------------------------------------------------------
  // The coherence invariant
  // ---------------------------------------------------------------------------

  /** Entry map, recency list and index hold the same keys, each once. */
  ghost predicate Coherent(c: L1) {
    && NoDuplicates(c.lru)
    && c.index == c.entries.Keys
    && forall x :: x in c.lru <==> x in c.entries
  }

  /** The bytes really held minus the running count. */
  function Drift(c: L1): int {
    Bytes(c.lru, c.entries) - c.cur
  }

  lemma {:induction false} LengthIsCount(s: seq<Key>, keys: set<Key>)
    requires NoDuplicates(s) && forall x :: x in s <==> x in keys
    ensures |s| == |keys|
  {
    if s == [] {
      assert keys == {};
    } else {
      forall x ensures x in s[1..] <==> x in keys - {s[0]} {
        assert s == [s[0]] + s[1..];
      }
      LengthIsCount(s[1..], keys - {s[0]});
    }
  }

  lemma CoherentCount(c: L1)
    requires Coherent(c)
    ensures |c.lru| == |c.entries|
  {
    LengthIsCount(c.lru, c.entries.Keys);
    assert |c.entries.Keys| == |c.entries|;
  }

  // ---------------------------------------------------------------------------
  // Operations on the state
  // ---------------------------------------------------------------------------

  function DropKeys(c: L1, ks: set<Key>): L1 {
    L1(c.entries - ks, Drop(c.lru, ks), c.index - ks, c.cur - Bytes(Keep(c.lru, ks), c.entries))
  }

  function Expired(c: L1, now: int): set<Key> {
    set k | k in c.entries && now > c.entries[k].expiresAt
  }

  predicate Full(lim: Limits, c: L1, incoming: int) {
    |c.entries| >= lim.maxEntries || c.cur + incoming > lim.maxBytes
  }

  function EvictLRU(lim: Limits, c: L1, incoming: int): L1
    decreases |c.lru|
  {
    if Full(lim, c, incoming) && c.lru != [] then
      EvictLRU(lim, RemoveBack(c), incoming)
    else c
  }

  /** Remove the least recently used element and the entry it names. */
  function RemoveBack(c: L1): L1
    requires c.lru != []
  {
    var k := c.lru[|c.lru| - 1];
    L1(c.entries - {k}, c.lru[..|c.lru| - 1], c.index - {k},
       c.cur - if k in c.entries then c.entries[k].size else 0)
  }

  function Evicted(lim: Limits, c: L1, incoming: int, now: int): L1 {
    EvictLRU(lim, if Full(lim, c, incoming) then DropKeys(c, Expired(c, now)) else c, incoming)
  }

  function MoveToFront(s: seq<Key>, k: Key): seq<Key> {
    if k in s then [k] + Drop(s, {k}) else s
  }

  function Promote(c: L1, k: Key): L1 {
    if k in c.index then c.(lru := MoveToFront(c.lru, k)) else c
  }

  /** An overwrite gives the old bytes back and becomes most recent before eviction. */
  function Prepare(c: L1, k: Key): L1 {
    if k in c.entries then Promote(c.(cur := c.cur - c.entries[k].size), k) else c
  }

  function Insert(c: L1, k: Key, e: Entry): L1 {
    L1(c.entries[k := e], if k in c.index then c.lru else [k] + c.lru, c.index + {k}, c.cur + e.size)
  }

  /** Go's integer division. */
  function Quot(a: int, b: int): int
    requires b > 0
  {
    if a >= 0 then a / b else -((-a) / b)
  }

  predicate TooBig(lim: Limits, size: int) {
    size > Quot(lim.maxBytes, 10)
  }

  /** Store a value that expires at `deadline`; eviction reads the clock at `now`. */
  function Store(lim: Limits, c: L1, k: Key, v: string, now: int, deadline: int): L1 {
    if TooBig(lim, |v|) then c
    else Insert(Evicted(lim, Prepare(c, k), |v|, now), k, Entry(v, deadline, |v|))
  }

  predicate HasPrefix(s: string, p: string) {
    p <= s
  }

  function WithPrefix(c: L1, p: string): set<Key> {
    set k | k in c.entries && HasPrefix(k.name, p)
  }

  // ---------------------------------------------------------------------------
  // What every operation keeps
  // ---------------------------------------------------------------------------

  lemma DropKeysKeeps(c: L1, ks: set<Key>)
    requires Coherent(c)
    ensures Coherent(DropKeys(c, ks)) && Drift(DropKeys(c, ks)) == Drift(c)
    ensures |DropKeys(c, ks).entries| <= |c.entries|
  {
    var d := DropKeys(c, ks);
    DropMembers(c.lru, ks);
    BytesSplit(c.lru, ks, c.entries);
    BytesAgree(d.lru, c.entries, d.entries);
    CoherentCount(c);
    CoherentCount(d);
  }

  lemma {:induction false} BytesSnoc(s: seq<Key>, k: Key, m: map<Key, Entry>)
    ensures Bytes(s + [k], m) == Bytes(s, m) + if k in m then m[k].size else 0
  {
    if s != [] {
      assert (s + [k])[1..] == s[1..] + [k];
      BytesSnoc(s[1..], k, m);
    }
  }

  lemma RemoveBackKeeps(c: L1)
    requires Coherent(c) && c.lru != []
    ensures Coherent(RemoveBack(c)) && Drift(RemoveBack(c)) == Drift(c)
  {
    var d, k := RemoveBack(c), c.lru[|c.lru| - 1];
    assert c.lru == d.lru + [k];
    BytesSnoc(d.lru, k, c.entries);
    BytesAgree(d.lru, c.entries, d.entries);
  }

  function Elems(s: seq<Key>): set<Key> {
    set x | x in s
  }

  /** The state that keeps the `n` most recently used keys and nothing else. */
  function MostRecent(c: L1, n: nat): L1
    requires n <= |c.lru|
  {
    L1(c.entries - Elems(c.lru[n..]), c.lru[..n], c.index - Elems(c.lru[n..]),
       c.cur - Bytes(c.lru[n..], c.entries))
  }

  lemma MostRecentOfAll(c: L1)
    ensures MostRecent(c, |c.lru|) == c
  {
    assert c.lru[..|c.lru|] == c.lru;
    assert c.lru[|c.lru|..] == [];
    assert c.entries - {} == c.entries;
  }

  lemma {:induction false} DropInTwoSteps(m: map<Key, Entry>, i: set<Key>, tail: seq<Key>, k: Key)
    ensures (m - {k}) - Elems(tail) == m - Elems(tail + [k])
    ensures (i - {k}) - Elems(tail) == i - Elems(tail + [k])
  {
    assert Elems(tail + [k]) == Elems(tail) + {k};
  }

  lemma {:induction false} SlicesOfShorter(s: seq<Key>, n: nat)
    requires n < |s|
    ensures var init, k := s[..|s| - 1], s[|s| - 1];
      s[n..] == init[n..] + [k] && init[..n] == s[..n] && (NoDuplicates(s) ==> k !in init[n..])
  {
  }

  lemma {:induction false} MostRecentOfShorter(c: L1, n: nat)
    requires NoDuplicates(c.lru) && n < |c.lru|
    ensures MostRecent(RemoveBack(c), n) == MostRecent(c, n)
  {
    var k, tail := c.lru[|c.lru| - 1], c.lru[..|c.lru| - 1][n..];
    SlicesOfShorter(c.lru, n);
    BytesSnoc(tail, k, c.entries);
    BytesAgree(tail, c.entries, c.entries - {k});
    DropInTwoSteps(c.entries, c.index, tail, k);
  }

  lemma {:induction false} EvictLRUKeeps(lim: Limits, c: L1, incoming: int)
    requires Coherent(c)
    ensures var d := EvictLRU(lim, c, incoming);
            Coherent(d) && Drift(d) == Drift(c) && (Full(lim, d, incoming) ==> d.lru == [])
    decreases |c.lru|
  {
    if Full(lim, c, incoming) && c.lru != [] {
      RemoveBackKeeps(c);
      EvictLRUKeeps(lim, RemoveBack(c), incoming);
    }
  }

  /** The victims of the recency pass are exactly a suffix of the recency order:
      the pass keeps the longest prefix under which the incoming value fits. */
  lemma {:induction false} LRUVictimsAreASuffix(lim: Limits, c: L1, incoming: int) returns (n: nat)
    requires NoDuplicates(c.lru)
    ensures n <= |c.lru| && EvictLRU(lim, c, incoming) == MostRecent(c, n)
    ensures Full(lim, MostRecent(c, n), incoming) ==> n == 0
    ensures forall m :: n < m <= |c.lru| ==> Full(lim, MostRecent(c, m), incoming)
    decreases |c.lru|
  {
    MostRecentOfAll(c);
    n := |c.lru|;
    if Full(lim, c, incoming) && c.lru != [] {
      var d := RemoveBack(c);
      n := LRUVictimsAreASuffix(lim, d, incoming);
      MostRecentOfShorter(c, n);
      forall m | n < m <= |c.lru| ensures Full(lim, MostRecent(c, m), incoming) {
        LongerIsFull(lim, c, incoming, n, m);
      }
    }
  }

  lemma {:induction false} LongerIsFull(lim: Limits, c: L1, incoming: int, n: nat, m: nat)
    requires NoDuplicates(c.lru) && n < m <= |c.lru| && Full(lim, c, incoming)
    requires forall m :: n < m < |c.lru| ==> Full(lim, MostRecent(RemoveBack(c), m), incoming)
    ensures Full(lim, MostRecent(c, m), incoming)
  {
    if m < |c.lru| { MostRecentOfShorter(c, m); } else { MostRecentOfAll(c); }
  }

  lemma EvictKeeps(lim: Limits, c: L1, incoming: int, now: int)
    requires Coherent(c)
    ensures var d := Evicted(lim, c, incoming, now);
            && Coherent(d) && Drift(d) == Drift(c)
            && (Full(lim, d, incoming) ==> d.lru == [])
            && forall x :: x in d.entries ==> x in c.entries && d.entries[x] == c.entries[x]
  {
    var e := if Full(lim, c, incoming) then DropKeys(c, Expired(c, now)) else c;
    DropKeysKeeps(c, Expired(c, now));
    EvictLRUKeeps(lim, e, incoming);
    var n := LRUVictimsAreASuffix(lim, e, incoming);
  }

  /** Moving a key to the front keeps the keys, the bytes and the rest of the order. */
  lemma {:induction false} FrontKeeps(s: seq<Key>, k: Key, m: map<Key, Entry>)
    requires NoDuplicates(s) && k in s && k in m
    ensures var t := [k] + Drop(s, {k});
      NoDuplicates(t) && (forall x :: x in t <==> x in s) && Bytes(t, m) == Bytes(s, m) && Drop(t, {k}) == Drop(s, {k})
  {
    var rest := Drop(s, {k});
    DropMembers(s, {k});
    BytesWithout(s, k, m);
    ConsFresh(rest, k);
    DropNothing(rest, {k});
    assert [] + Drop(rest, {k}) == Drop(rest, {k});
  }

  lemma PromoteFront(c: L1, k: Key)
    requires Coherent(c) && k in c.entries
    ensures var p := Promote(c, k); p == c.(lru := [k] + Drop(c.lru, {k})) && p.lru == [k] + Drop(p.lru, {k})
  {
    FrontKeeps(c.lru, k, c.entries);
  }

  lemma PromoteKeeps(c: L1, k: Key)
    requires Coherent(c)
    ensures Coherent(Promote(c, k)) && Drift(Promote(c, k)) == Drift(c)
  {
    if k in c.index {
      PromoteFront(c, k);
      FrontKeeps(c.lru, k, c.entries);
    }
  }

  lemma PrepareKeeps(c: L1, k: Key)
    requires Coherent(c)
    ensures Coherent(Prepare(c, k)) && Prepare(c, k).entries == c.entries
    ensures Drift(Prepare(c, k)) == Drift(c) + if k in c.entries then c.entries[k].size else 0
    ensures k in c.entries ==> Prepare(c, k).lru == [k] + Drop(Prepare(c, k).lru, {k})
    ensures k in c.entries ==> Prepare(c, k).cur == c.cur - c.entries[k].size
  {
    if k in c.entries {
      PromoteKeeps(c.(cur := c.cur - c.entries[k].size), k);
      PromoteFront(c.(cur := c.cur - c.entries[k].size), k);
    }
  }

  lemma OverwriteKeeps(c: L1, k: Key, e: Entry)
    requires Coherent(c) && k in c.entries
    ensures Coherent(Insert(c, k, e))
    ensures Drift(Insert(c, k, e)) == Drift(c) - c.entries[k].size
    ensures |Insert(c, k, e).entries| == |c.entries|
  {
    var m := c.entries[k := e];
    BytesWithout(c.lru, k, c.entries);
    BytesWithout(c.lru, k, m);
    DropMembers(c.lru, {k});
    BytesAgree(Drop(c.lru, {k}), c.entries, m);
    assert m.Keys == c.entries.Keys;
    assert |m| == |m.Keys| && |c.entries| == |c.entries.Keys|;
  }

  lemma {:induction false} ConsFresh(s: seq<Key>, k: Key)
    requires NoDuplicates(s) && k !in s
    ensures NoDuplicates([k] + s) && ([k] + s)[1..] == s
  {
  }

  lemma {:induction false} BytesCons(s: seq<Key>, k: Key, m: map<Key, Entry>, e: Entry)
    requires k !in s
    ensures Bytes([k] + s, m[k := e]) == e.size + Bytes(s, m)
  {
    assert ([k] + s)[1..] == s;
    BytesAgree(s, m, m[k := e]);
  }

  lemma CountAdded(m: map<Key, Entry>, k: Key, e: Entry)
    requires k !in m
    ensures m[k := e].Keys == m.Keys + {k} && |m[k := e]| == |m| + 1
  {
    assert |m[k := e]| == |m[k := e].Keys| && |m| == |m.Keys|;
  }

  lemma AddKeeps(c: L1, k: Key, e: Entry)
    requires Coherent(c) && k !in c.entries
    ensures Coherent(Insert(c, k, e))
    ensures Drift(Insert(c, k, e)) == Drift(c)
    ensures |Insert(c, k, e).entries| == |c.entries| + 1
  {
    ConsFresh(c.lru, k);
    BytesCons(c.lru, k, c.entries, e);
    CountAdded(c.entries, k, e);
  }

  lemma InsertKeeps(c: L1, k: Key, e: Entry)
    requires Coherent(c)
    ensures Coherent(Insert(c, k, e))
    ensures Drift(Insert(c, k, e)) == Drift(c) - if k in c.entries then c.entries[k].size else 0
    ensures |Insert(c, k, e).entries| == |c.entries| + if k in c.entries then 0 else 1
  {
    if k in c.entries { OverwriteKeeps(c, k, e); } else { AddKeeps(c, k, e); }
  }

  // ---------------------------------------------------------------------------
  // Byte accounting of a store
  // ---------------------------------------------------------------------------

  /** The overwritten entry is itself evicted while it is being overwritten: it
      has expired and the store runs the expiry pass, or only one entry fits. */
  predicate SelfEvicts(lim: Limits, c: L1, k: Key, size: int, now: int) {
    && k in c.entries
    && !TooBig(lim, size)
    && (lim.maxEntries <= 1
        || (now > c.entries[k].expiresAt && Full(lim, c.(cur := c.cur - c.entries[k].size), size)))
  }

  lemma {:induction false} SubsetCount(a: set<Key>, b: set<Key>)
    requires a <= b
    ensures |a| <= |b|
  {
    if x :| x in a {
      SubsetCount(a - {x}, b - {x});
    }
  }

  lemma OneEntryLeft(c: L1)
    requires Coherent(c) && c.lru != [] && Drift(c) >= c.entries[c.lru[0]].size
    ensures |MostRecent(c, 1).entries| <= 1 && MostRecent(c, 1).cur <= 0
  {
    var rest := c.lru[1..];
    assert c.lru == [c.lru[0]] + rest;
    var m := c.entries - Elems(rest);
    assert m.Keys <= {c.lru[0]};
    SubsetCount(m.Keys, {c.lru[0]});
    assert |m| == |m.Keys|;
  }

  lemma {:induction false} FrontKept(c: L1, n: nat)
    requires Coherent(c) && 1 <= n <= |c.lru|
    ensures c.lru[0] in MostRecent(c, n).entries
  {
    assert c.lru[0] !in c.lru[n..];
  }

  lemma {:induction false} OneFits(lim: Limits, c: L1, size: nat)
    requires Coherent(c) && c.lru != [] && Drift(c) >= c.entries[c.lru[0]].size
    requires !TooBig(lim, size) && lim.maxEntries > 1 && lim.maxBytes >= 0
    ensures !Full(lim, MostRecent(c, 1), size)
  {
    OneEntryLeft(c);
  }

  lemma {:induction false} FrontSurvives(lim: Limits, c: L1, size: nat)
    requires Coherent(c) && c.lru != [] && Drift(c) >= c.entries[c.lru[0]].size
    requires !TooBig(lim, size) && lim.maxEntries > 1 && lim.maxBytes >= 0
    ensures c.lru[0] in EvictLRU(lim, c, size).entries
  {
    var n := LRUVictimsAreASuffix(lim, c, size);
    OneFits(lim, c, size);
    FrontKept(c, n);
  }

  lemma {:induction false} NothingFitsOne(lim: Limits, c: L1, size: nat)
    requires Coherent(c) && lim.maxEntries <= 1
    ensures EvictLRU(lim, c, size).lru == []
  {
    EvictLRUKeeps(lim, c, size);
    CoherentCount(EvictLRU(lim, c, size));
  }

  lemma SweptFront(c: L1, k: Key, now: int)
    requires Coherent(c) && k in c.entries && c.lru == [k] + Drop(c.lru, {k})
    ensures var q := DropKeys(c, Expired(c, now));
            (k in q.entries <==> now <= c.entries[k].expiresAt) &&
            (k in q.entries ==> q.lru != [] && q.lru[0] == k && q.entries[k] == c.entries[k])
  {
  }

  /** The recency pass, once the key being overwritten is in front. */
  lemma {:induction false} PassKeepsFront(lim: Limits, q: L1, k: Key, size: nat)
    requires Coherent(q) && !TooBig(lim, size) && lim.maxBytes >= 0
    requires k in q.entries ==> q.lru != [] && q.lru[0] == k && Drift(q) >= q.entries[k].size
    ensures k in EvictLRU(lim, q, size).entries <==> k in q.entries && lim.maxEntries > 1
  {
    if lim.maxEntries <= 1 {
      NothingFitsOne(lim, q, size);
      EvictLRUKeeps(lim, q, size);
    } else if k in q.entries {
      FrontSurvives(lim, q, size);
    } else {
      var n := LRUVictimsAreASuffix(lim, q, size);
    }
  }

  /** The expiry pass, which runs only when the incoming value does not fit. */
  lemma {:induction false} SweepKeepsFront(lim: Limits, p: L1, k: Key, size: nat, now: int)
    requires Coherent(p) && k in p.entries && p.lru == [k] + Drop(p.lru, {k}) && Drift(p) >= p.entries[k].size
    ensures var q := if Full(lim, p, size) then DropKeys(p, Expired(p, now)) else p;
      && Coherent(q)
      && (k in q.entries <==> !(Full(lim, p, size) && now > p.entries[k].expiresAt))
      && (k in q.entries ==> q.lru != [] && q.lru[0] == k && Drift(q) >= q.entries[k].size)
  {
    DropKeysKeeps(p, Expired(p, now));
    SweptFront(p, k, now);
  }

  lemma {:induction false} PrepareFull(lim: Limits, c: L1, k: Key, size: nat)
    requires Coherent(c) && k in c.entries
    ensures Full(lim, Prepare(c, k), size) <==> Full(lim, c.(cur := c.cur - c.entries[k].size), size)
  {
    PrepareKeeps(c, k);
  }

  /** Both passes, once the key being overwritten is in front. */
  lemma {:induction false} FrontThroughEviction(lim: Limits, p: L1, k: Key, size: nat, now: int)
    requires Coherent(p) && k in p.entries && p.lru == [k] + Drop(p.lru, {k}) && Drift(p) >= p.entries[k].size
    requires !TooBig(lim, size) && lim.maxBytes >= 0
    ensures k in Evicted(lim, p, size, now).entries
       <==> lim.maxEntries > 1 && !(Full(lim, p, size) && now > p.entries[k].expiresAt)
  {
    SweepKeepsFront(lim, p, k, size, now);
    PassKeepsFront(lim, if Full(lim, p, size) then DropKeys(p, Expired(p, now)) else p, k, size);
  }

  /** The overwritten key survives eviction exactly when it does not self-evict. */
  lemma {:induction false} SelfEvictionExactly(lim: Limits, c: L1, k: Key, size: nat, now: int)
    requires Coherent(c) && Drift(c) >= 0 && k in c.entries && !TooBig(lim, size) && lim.maxBytes >= 0
    ensures k in Evicted(lim, Prepare(c, k), size, now).entries
       <==> !SelfEvicts(lim, c, k, size, now)
  {
    PrepareKeeps(c, k);
    PrepareFull(lim, c, k, size);
    FrontThroughEviction(lim, Prepare(c, k), k, size, now);
  }

  /** Every store shifts the drift by the size of the overwritten entry when that
      entry self-evicts, and leaves it alone otherwise. */
  lemma {:induction false} StoreDrift(lim: Limits, c: L1, k: Key, v: string, now: int, deadline: int)
    requires Coherent(c) && Drift(c) >= 0 && lim.maxBytes >= 0
    ensures var d := Store(lim, c, k, v, now, deadline);
            && Coherent(d)
            && Drift(d) == Drift(c) + if SelfEvicts(lim, c, k, |v|, now) then c.entries[k].size else 0
  {
    if !TooBig(lim, |v|) {
      PrepareKeeps(c, k);
      EvictKeeps(lim, Prepare(c, k), |v|, now);
      InsertKeeps(Evicted(lim, Prepare(c, k), |v|, now), k, Entry(v, deadline, |v|));
      if k in c.entries { SelfEvictionExactly(lim, c, k, |v|, now); }
    }
  }

  /** After a store the entry limit holds, and the running count is within the budget. */
  lemma {:induction false} StoreFits(lim: Limits, c: L1, k: Key, v: string, now: int, deadline: int)
    requires Coherent(c) && Drift(c) >= 0 && lim.maxEntries >= 1 && lim.maxBytes >= 0
    requires |c.entries| <= lim.maxEntries && c.cur <= lim.maxBytes
    ensures var d := Store(lim, c, k, v, now, deadline);
            |d.entries| <= lim.maxEntries && d.cur <= lim.maxBytes
  {
    if !TooBig(lim, |v|) {
      PrepareKeeps(c, k);
      EvictKeeps(lim, Prepare(c, k), |v|, now);
      var e := Evicted(lim, Prepare(c, k), |v|, now);
      InsertKeeps(e, k, Entry(v, deadline, |v|));
      CoherentCount(e);
    }
  }

  // ---------------------------------------------------------------------------
  // Every reachable state
  // ---------------------------------------------------------------------------

  datatype Op =
    | OpStore(key: Key, value: string, now: int, deadline: int)
    | OpInvalidate(key: Key)
    | OpInvalidatePrefix(prefix: string)
    | OpCleanup(now: int)
    | OpPromote(key: Key)

  function Apply(lim: Limits, c: L1, op: Op): L1 {
    match op
    case OpStore(k, v, now, deadline) => Store(lim, c, k, v, now, deadline)
    case OpInvalidate(k) => if k in c.entries then DropKeys(c, {k}) else c
    case OpInvalidatePrefix(p) => DropKeys(c, WithPrefix(c, p))
    case OpCleanup(now) => DropKeys(c, Expired(c, now))
    case OpPromote(k) => Promote(c, k)
  }

  function Run(lim: Limits, ops: seq<Op>): L1 {
    if ops == [] then EMPTY else Apply(lim, Run(lim, ops[..|ops| - 1]), ops[|ops| - 1])
  }

  /** The bytes a run subtracted twice. */
  function SelfEvictedBytes(lim: Limits, ops: seq<Op>): nat {
    if ops == [] then 0
    else
      var c, op := Run(lim, ops[..|ops| - 1]), ops[|ops| - 1];
      SelfEvictedBytes(lim, ops[..|ops| - 1]) +
      if op.OpStore? && SelfEvicts(lim, c, op.key, |op.value|, op.now) then c.entries[op.key].size else 0
  }

  ghost predicate Within(lim: Limits, c: L1) {
    Coherent(c) && Drift(c) >= 0 && |c.entries| <= lim.maxEntries && c.cur <= lim.maxBytes
  }

  lemma ApplyKeeps(lim: Limits, c: L1, op: Op)
    requires lim.maxEntries >= 1 && lim.maxBytes >= 0 && Within(lim, c)
    ensures Within(lim, Apply(lim, c, op))
    ensures Drift(Apply(lim, c, op)) == Drift(c) +
            if op.OpStore? && SelfEvicts(lim, c, op.key, |op.value|, op.now) then c.entries[op.key].size else 0
  {
    match op
    case OpStore(k, v, now, deadline) =>
      StoreDrift(lim, c, k, v, now, deadline);
      StoreFits(lim, c, k, v, now, deadline);
    case OpInvalidate(k) => DropKeysKeeps(c, {k});
    case OpInvalidatePrefix(p) => DropKeysKeeps(c, WithPrefix(c, p));
    case OpCleanup(now) => DropKeysKeeps(c, Expired(c, now));
    case OpPromote(k) => PromoteKeeps(c, k);
  }

  /** In every reachable state the three indexes agree, the entry limit holds,
      the running count never exceeds the bytes really held, and it falls short
      by exactly the bytes of overwritten entries that were evicted during their
      own store. So the bytes really held exceed the budget by at most those. */
  lemma {:induction false} ReachableStates(lim: Limits, ops: seq<Op>)
    requires lim.maxEntries >= 1 && lim.maxBytes >= 0
    ensures Within(lim, Run(lim, ops))
    ensures Drift(Run(lim, ops)) == SelfEvictedBytes(lim, ops)
    ensures var c := Run(lim, ops);
            && (c.cur == Bytes(c.lru, c.entries) <==> SelfEvictedBytes(lim, ops) == 0)
            && Bytes(c.lru, c.entries) <= lim.maxBytes + SelfEvictedBytes(lim, ops)
  {
    if ops != [] {
      var before := ops[..|ops| - 1];
      ReachableStates(lim, before);
      ApplyKeeps(lim, Run(lim, before), ops[|ops| - 1]);
    }
  }

  /** The one live entry with the running count. */
  ghost predicate Holds(c: L1, k: Key, v: string, cur: int) {
    c.entries == map[k := Entry(v, 1, |v|)] && Bytes(c.lru, c.entries) == |v| && c.cur == cur
  }

  /** `n` stores of one value under one key. */
  function Stores(k: Key, v: string, n: nat): seq<Op> {
    if n == 0 then [] else Stores(k, v, n - 1) + [OpStore(k, v, 0, 1)]
  }

  /** Exact accounting fails: with room for one entry, the first store of a key
      is counted and every overwrite of the live key loses its bytes again, so
      overwriting takes the running count below any bound. */
  lemma {:induction false} OverwritesDrift(lim: Limits, k: Key, v: string, n: nat)
    requires lim.maxEntries == 1 && lim.maxBytes >= 0 && !TooBig(lim, |v|)
    ensures Shows(lim, Run(lim, Stores(k, v, n + 1)), |v|, |v| - n * |v|)
  {
    StoresDrift(lim, k, v, n);
    DriftShows(lim, Run(lim, Stores(k, v, n + 1)), k, v, n);
  }

  /** A legal state that holds `held` bytes and counts `counted`. */
  ghost predicate Shows(lim: Limits, c: L1, held: int, counted: int) {
    Within(lim, c) && Bytes(c.lru, c.entries) == held && c.cur == counted
  }

  lemma {:induction false} DriftShows(lim: Limits, c: L1, k: Key, v: string, n: nat)
    requires Drifted(lim, c, k, v, n + 1)
    ensures Shows(lim, c, |v|, |v| - n * |v|)
  {
    StoresCount(|v|, n);
  }

  /** The running count after `n` stores of `size` bytes. */
  function Counted(size: int, n: nat): int {
    if n <= 1 then size else Counted(size, n - 1) - size
  }

  lemma {:induction false} StoresCount(size: int, n: nat)
    ensures Counted(size, n + 1) == size - n * size
  {
    if n > 0 {
      StoresCount(size, n - 1);
      assert n * size == (n - 1) * size + size;
    }
  }

  lemma {:induction false} RunOneMore(lim: Limits, ops: seq<Op>, op: Op)
    ensures Run(lim, ops + [op]) == Apply(lim, Run(lim, ops), op)
  {
    assert (ops + [op])[..|ops|] == ops;
  }

  ghost predicate Drifted(lim: Limits, c: L1, k: Key, v: string, n: nat) {
    Within(lim, c) && Holds(c, k, v, Counted(|v|, n))
  }

  lemma {:induction false} FirstStore(lim: Limits, k: Key, v: string)
    requires lim.maxEntries == 1 && lim.maxBytes >= 0 && !TooBig(lim, |v|)
    ensures Drifted(lim, Apply(lim, EMPTY, OpStore(k, v, 0, 1)), k, v, 1)
  {
    ApplyKeeps(lim, EMPTY, OpStore(k, v, 0, 1));
    OverwriteDrifts(lim, EMPTY, k, v, 0);
  }

  lemma {:induction false} NextStore(lim: Limits, c: L1, k: Key, v: string, n: nat)
    requires lim.maxEntries == 1 && lim.maxBytes >= 0 && !TooBig(lim, |v|) && n >= 1 && Drifted(lim, c, k, v, n)
    ensures Drifted(lim, Apply(lim, c, OpStore(k, v, 0, 1)), k, v, n + 1)
  {
    OverwriteDrifts(lim, c, k, v, Counted(|v|, n));
  }

  ghost predicate RunDrifted(lim: Limits, ops: seq<Op>, k: Key, v: string, n: nat) {
    Drifted(lim, Run(lim, ops), k, v, n)
  }

  lemma {:induction false} FirstDrift(lim: Limits, k: Key, v: string)
    requires lim.maxEntries == 1 && lim.maxBytes >= 0 && !TooBig(lim, |v|)
    ensures RunDrifted(lim, [] + [OpStore(k, v, 0, 1)], k, v, 1)
  {
    RunOneMore(lim, [], OpStore(k, v, 0, 1));
    FirstStore(lim, k, v);
  }

  lemma {:induction false} NextDrift(lim: Limits, ops: seq<Op>, k: Key, v: string, n: nat)
    requires lim.maxEntries == 1 && lim.maxBytes >= 0 && !TooBig(lim, |v|) && n >= 1 && RunDrifted(lim, ops, k, v, n)
    ensures RunDrifted(lim, ops + [OpStore(k, v, 0, 1)], k, v, n + 1)
  {
    RunOneMore(lim, ops, OpStore(k, v, 0, 1));
    NextStore(lim, Run(lim, ops), k, v, n);
  }

  lemma {:induction false} StoresStep(k: Key, v: string, n: nat)
    ensures Stores(k, v, n + 1) == Stores(k, v, n) + [OpStore(k, v, 0, 1)]
  {
  }

  lemma {:induction false} StepDrift(lim: Limits, k: Key, v: string, ops: seq<Op>, ops': seq<Op>, n: nat)
    requires lim.maxEntries == 1 && lim.maxBytes >= 0 && !TooBig(lim, |v|)
    requires ops' == ops + [OpStore(k, v, 0, 1)] && if n == 0 then ops == [] else RunDrifted(lim, ops, k, v, n)
    ensures RunDrifted(lim, ops', k, v, n + 1)
  {
    if n == 0 { FirstDrift(lim, k, v); } else { NextDrift(lim, ops, k, v, n); }
  }

  lemma {:induction false} StoresDrift(lim: Limits, k: Key, v: string, n: nat)
    requires lim.maxEntries == 1 && lim.maxBytes >= 0 && !TooBig(lim, |v|)
    ensures RunDrifted(lim, Stores(k, v, n + 1), k, v, n + 1)
  {
    if n > 0 { StoresDrift(lim, k, v, n - 1); }
    StoresStep(k, v, n);
    StepDrift(lim, k, v, Stores(k, v, n), Stores(k, v, n + 1), n);
  }

  lemma {:induction false} OverwriteDrifts(lim: Limits, c: L1, k: Key, v: string, cur: int)
    requires lim.maxEntries == 1 && lim.maxBytes >= 0 && !TooBig(lim, |v|)
    ensures Holds(Store(lim, EMPTY, k, v, 0, 1), k, v, |v|)
    ensures Within(lim, c) && Holds(c, k, v, cur) ==>
              var d := Store(lim, c, k, v, 0, 1); Within(lim, d) && Holds(d, k, v, cur - |v|)
  {
    StoreAlone(lim, EMPTY, k, v);
    if Within(lim, c) && Holds(c, k, v, cur) {
      ApplyKeeps(lim, c, OpStore(k, v, 0, 1));
      StoreAlone(lim, c, k, v);
    }
  }

  lemma {:induction false} StoreAlone(lim: Limits, c: L1, k: Key, v: string)
    requires lim.maxEntries == 1 && lim.maxBytes >= 0 && Coherent(c) && Drift(c) >= 0 && !TooBig(lim, |v|)
    ensures var d := Store(lim, c, k, v, 0, 1);
            Holds(d, k, v, |v| - Drift(c) - if k in c.entries then c.entries[k].size else 0)
  {
    StoreDrift(lim, c, k, v, 0, 1);
    PrepareKeeps(c, k);
    EvictKeeps(lim, Prepare(c, k), |v|, 0);
    var e := Evicted(lim, Prepare(c, k), |v|, 0);
    CoherentCount(e);
    assert e.lru == [] && e.entries == map[];
    assert [k][1..] == [];
  }

  // ---------------------------------------------------------------------------
  // The cache as an object
  // ---------------------------------------------------------------------------

  lemma DropOneMore(c: L1, gone: set<Key>, k: Key)
    requires Coherent(c) && k in c.entries && k !in gone
    ensures var d := DropKeys(c, gone);
            DropKeys(c, gone + {k}) ==
            L1(d.entries - {k}, Drop(d.lru, {k}), d.index - {k}, d.cur - c.entries[k].size)
  {
    DropTwice(c.lru, gone, {k});
    KeepOneMore(c.lru, gone, k, c.entries);
    assert c.entries - (gone + {k}) == c.entries - gone - {k};
  }

  lemma {:induction false} KeepOneMore(s: seq<Key>, gone: set<Key>, k: Key, m: map<Key, Entry>)
    requires NoDuplicates(s) && k in s && k in m && k !in gone
    ensures Bytes(Keep(s, gone + {k}), m) == Bytes(Keep(s, gone), m) + m[k].size
  {
    var rest := s[1..];
    if s[0] == k {
      KeepSame(rest, gone, k);
      assert Keep(s, gone + {k})[1..] == Keep(rest, gone);
      assert Keep(s, gone) == Keep(rest, gone);
    } else {
      KeepOneMore(rest, gone, k, m);
      if s[0] in gone {
        assert Keep(s, gone + {k})[1..] == Keep(rest, gone + {k});
        assert Keep(s, gone)[1..] == Keep(rest, gone);
      } else {
        assert Keep(s, gone + {k}) == Keep(rest, gone + {k});
        assert Keep(s, gone) == Keep(rest, gone);
      }
    }
  }

  lemma {:induction false} KeepSame(s: seq<Key>, gone: set<Key>, k: Key)
    requires k !in s
    ensures Keep(s, gone + {k}) == Keep(s, gone)
  {
    if s != [] {
      KeepSame(s[1..], gone, k);
    }
  }

  lemma DropNone(c: L1, victims: set<Key>)
    ensures victims <= c.entries.Keys ==> DropKeys(c, victims - c.entries.Keys) == c
  {
    if victims <= c.entries.Keys {
      assert victims - c.entries.Keys == {};
      DropNothing(c.lru, {});
      assert c.entries - {} == c.entries;
    }
  }

  lemma {:induction false} ShrinkTodo(victims: set<Key>, todo: set<Key>, k: Key)
    requires k in todo
    ensures victims - (todo - {k}) == if k in victims then victims - todo + {k} else victims - todo
  {
  }

  class Cache {
    const limits: Limits
    var entries: map<Key, Entry>
    var lruList: seq<Key>
    var lruIndex: set<Key>
    var curBytes: int

    ghost function View(): L1
      reads this
    {
      L1(entries, lruList, lruIndex, curBytes)
    }

    ghost predicate Valid()
      reads this
    {
      Coherent(View())
    }

    constructor (limits: Limits)
      ensures this.limits == limits && View() == EMPTY && Valid()
    {
      this.limits := limits;
      entries, lruList, lruIndex, curBytes := map[], [], {}, 0;
    }

    /** Delete one entry with its list element and its bytes. */
    method RemoveEntry(k: Key, ghost before: L1, ghost gone: set<Key>)
      requires Coherent(before) && View() == DropKeys(before, gone)
      requires k in before.entries && k !in gone
      modifies this
      ensures View() == DropKeys(before, gone + {k})
    {
      DropOneMore(before, gone, k);
      curBytes := curBytes - entries[k].size;
      entries := entries - {k};
      lruList := Drop(lruList, {k});
      lruIndex := lruIndex - {k};
    }

    /** The loop over the map, in whatever order, that deletes the expired entries. */
    method RemoveExpired(now: int)
      requires Valid()
      modifies this
      ensures View() == DropKeys(old(View()), Expired(old(View()), now)) && Valid()
    {
      ghost var before := View();
      ghost var expired := Expired(before, now);
      var todo := entries.Keys;
      DropNone(before, expired);
      while todo != {}
        invariant todo <= before.entries.Keys
        invariant View() == DropKeys(before, expired - todo)
        decreases todo
      {
        var k :| k in todo;
        ShrinkTodo(expired, todo, k);
        if now > entries[k].expiresAt {
          RemoveEntry(k, before, expired - todo);
        }
        todo := todo - {k};
      }
      assert expired - todo == expired;
      DropKeysKeeps(before, expired);
    }

    method RemoveOldest()
      requires lruList != []
      modifies this
      ensures View() == RemoveBack(old(View()))
    {
      var k := lruList[|lruList| - 1];
      assert k !in entries ==> entries - {k} == entries;
      if k in entries {
        curBytes := curBytes - entries[k].size;
        entries := entries - {k};
      }
      lruList := lruList[..|lruList| - 1];
      lruIndex := lruIndex - {k};
    }

    method EvictIfNeeded(incoming: int, now: int)
      requires Valid()
      modifies this
      ensures View() == Evicted(limits, old(View()), incoming, now) && Valid()
    {
      if |entries| >= limits.maxEntries || curBytes + incoming > limits.maxBytes {
        RemoveExpired(now);
      }
      while |entries| >= limits.maxEntries || curBytes + incoming > limits.maxBytes
        invariant Valid()
        invariant EvictLRU(limits, View(), incoming) == Evicted(limits, old(View()), incoming, now)
        decreases |lruList|
      {
        if lruList == [] {
          break;
        }
        RemoveBackKeeps(View());
        RemoveOldest();
      }
    }

    /** The first half of a store: an overwritten entry gives its bytes back. */
    method Touch(k: Key)
      requires Valid()
      modifies this
      ensures View() == Prepare(old(View()), k)
    {
      if k in entries {
        curBytes := curBytes - entries[k].size;
        if k in lruIndex {
          lruList := MoveToFront(lruList, k);
        }
      }
    }

    method Put(k: Key, e: Entry)
      modifies this
      ensures View() == Insert(old(View()), k, e)
    {
      assert k in lruIndex ==> lruIndex + {k} == lruIndex;
      entries := entries[k := e];
      curBytes := curBytes + e.size;
      if k !in lruIndex {
        lruList := [k] + lruList;
        lruIndex := lruIndex + {k};
      }
    }

    method StoreLocal(k: Key, value: string, now: int, deadline: int)
      requires Valid()
      modifies this
      ensures View() == Store(limits, old(View()), k, value, now, deadline) && Valid()
    {
      var size := |value|;
      if size > Quot(limits.maxBytes, 10) {
        return;
      }
      PrepareKeeps(View(), k);
      Touch(k);
      EvictIfNeeded(size, now);
      InsertKeeps(View(), k, Entry(value, deadline, size));
      Put(k, Entry(value, deadline, size));
    }

    method Invalidate(k: Key)
      requires Valid()
      modifies this
      ensures View() == Apply(limits, old(View()), OpInvalidate(k)) && Valid()
    {
      if k in entries {
        DropKeysKeeps(View(), {k});
        RemoveOne(k);
      }
    }

    method RemoveOne(k: Key)
      requires Valid() && k in entries
      modifies this
      ensures View() == DropKeys(old(View()), {k})
    {
      ghost var none: set<Key> := {};
      DropNone(View(), none);
      assert none - entries.Keys == none;
      RemoveEntry(k, View(), none);
      assert none + {k} == {k};
    }

    /** The loop over the map that deletes the entries with the prefix. */
    method RemovePrefixed(prefix: string)
      requires Valid()
      modifies this
      ensures View() == DropKeys(old(View()), WithPrefix(old(View()), prefix))
    {
      ghost var before := View();
      ghost var victims := WithPrefix(before, prefix);
      var todo := entries.Keys;
      DropNone(before, victims);
      while todo != {}
        invariant todo <= before.entries.Keys
        invariant View() == DropKeys(before, victims - todo)
        decreases todo
      {
        var k :| k in todo;
        ShrinkTodo(victims, todo, k);
        if HasPrefix(k.name, prefix) {
          RemoveEntry(k, before, victims - todo);
        }
        todo := todo - {k};
      }
      assert victims - todo == victims;
    }

    method InvalidatePrefix(prefix: string)
      requires Valid()
      modifies this
      ensures View() == Apply(limits, old(View()), OpInvalidatePrefix(prefix)) && Valid()
    {
      DropKeysKeeps(View(), WithPrefix(View(), prefix));
      RemovePrefixed(prefix);
    }

    method ApplyPromotion(k: Key)
      requires Valid()
      modifies this`lruList
      ensures View() == Promote(old(View()), k) && Valid()
    {
      PromoteKeeps(View(), k);
      if k in lruIndex {
        lruList := MoveToFront(lruList, k);
      }
    }
  }
}
