/** The recency list of the in-memory tier is the order of last use, told from the
    operations of the run; so a store evicts the keys whose last use is oldest. */
module L1Recency {
  import opened CacheKeys
  import opened L1Cache

  // ---------------------------------------------------------------------------
  // Uses
  // ---------------------------------------------------------------------------

  /** The operation uses the key: an accepted store, or a promotion while it is held. */
  predicate Uses(lim: Limits, c: L1, op: Op, k: Key) {
    match op
    case OpStore(key, v, _, _) => key == k && !TooBig(lim, |v|)
    case OpPromote(key) => key == k && k in c.entries
    case _ => false
  }

  /** One more than the index of the last use of the key; 0 if it was never used. */
  function LastUse(lim: Limits, ops: seq<Op>, k: Key): (n: nat)
    ensures n <= |ops|
  {
    if ops == [] then 0
    else if Uses(lim, Run(lim, ops[..|ops| - 1]), ops[|ops| - 1], k) then |ops|
    else LastUse(lim, ops[..|ops| - 1], k)
  }

  /** From the latest last use to the earliest. */
  ghost predicate Ordered(lim: Limits, ops: seq<Op>, s: seq<Key>) {
    forall i, j :: 0 <= i < j < |s| ==> LastUse(lim, ops, s[j]) < LastUse(lim, ops, s[i])
  }

  lemma {:induction false} UseSnoc(lim: Limits, ops: seq<Op>, op: Op, k: Key)
    ensures LastUse(lim, ops + [op], k) ==
      if Uses(lim, Run(lim, ops), op, k) then |ops| + 1 else LastUse(lim, ops, k)
  {
    assert (ops + [op])[..|ops|] == ops;
  }

  lemma {:induction false} DropOrdered(lim: Limits, ops: seq<Op>, s: seq<Key>, ks: set<Key>)
    requires Ordered(lim, ops, s)
    ensures Ordered(lim, ops, Drop(s, ks))
  {
    if s != [] {
      var rest := s[1..];
      assert forall i :: 0 <= i < |rest| ==> rest[i] == s[i + 1];
      DropOrdered(lim, ops, rest, ks);
      DropMembers(rest, ks);
      if s[0] !in ks { FrontOrdered(lim, ops, s[0], Drop(rest, ks)); }
    }
  }

  lemma {:induction false} FrontOrdered(lim: Limits, ops: seq<Op>, k: Key, s: seq<Key>)
    requires Ordered(lim, ops, s) && forall x :: x in s ==> LastUse(lim, ops, x) < LastUse(lim, ops, k)
    ensures Ordered(lim, ops, [k] + s)
  {
    var t := [k] + s;
    assert forall i :: 0 < i < |t| ==> t[i] == s[i - 1];
  }

  /** An operation leaves the order of the keys it does not use. */
  lemma {:induction false} OthersOrdered(lim: Limits, ops: seq<Op>, op: Op, s: seq<Key>)
    requires Ordered(lim, ops, s) && forall x :: x in s ==> !Uses(lim, Run(lim, ops), op, x)
    ensures Ordered(lim, ops + [op], s)
  {
    forall i | 0 <= i < |s| ensures LastUse(lim, ops + [op], s[i]) == LastUse(lim, ops, s[i]) {
      UseSnoc(lim, ops, op, s[i]);
    }
  }

  /** The key that is used comes first. */
  lemma {:induction false} UsedFirst(lim: Limits, ops: seq<Op>, op: Op, k: Key, s: seq<Key>)
    requires Ordered(lim, ops, s) && Uses(lim, Run(lim, ops), op, k)
    requires (op.OpStore? || op.OpPromote?) && op.key == k
    ensures Ordered(lim, ops + [op], [k] + Drop(s, {k}))
  {
    var rest := Drop(s, {k});
    DropOrdered(lim, ops, s, {k});
    DropMembers(s, {k});
    OthersOrdered(lim, ops, op, rest);
    UseSnoc(lim, ops, op, k);
    forall x | x in rest ensures LastUse(lim, ops + [op], x) < LastUse(lim, ops + [op], k) {
      UseSnoc(lim, ops, op, x);
    }
    FrontOrdered(lim, ops + [op], k, rest);
  }

  // ---------------------------------------------------------------------------
  // The passes of a store
  // ---------------------------------------------------------------------------

  /** The state after the expiry pass, which runs only if the value does not fit. */
  function Swept(lim: Limits, c: L1, incoming: int, now: int): L1 {
    if Full(lim, c, incoming) then DropKeys(c, Expired(c, now)) else c
  }

  /** What the recency pass of a store starts from. */
  function BeforePass(lim: Limits, c: L1, op: Op): L1
    requires op.OpStore?
  {
    Swept(lim, Prepare(c, op.key), |op.value|, op.now)
  }

  lemma {:induction false} PreparedOrder(lim: Limits, ops: seq<Op>, op: Op)
    requires op.OpStore? && !TooBig(lim, |op.value|)
    requires Coherent(Run(lim, ops)) && Ordered(lim, ops, Run(lim, ops).lru)
    ensures Ordered(lim, ops + [op], Prepare(Run(lim, ops), op.key).lru)
  {
    var c := Run(lim, ops);
    if op.key in c.entries {
      PromoteFront(c.(cur := c.cur - c.entries[op.key].size), op.key);
      UsedFirst(lim, ops, op, op.key, c.lru);
    } else {
      OthersOrdered(lim, ops, op, c.lru);
    }
  }

  lemma {:induction false} BeforePassOrder(lim: Limits, ops: seq<Op>, op: Op)
    requires op.OpStore? && !TooBig(lim, |op.value|)
    requires Coherent(Run(lim, ops)) && Ordered(lim, ops, Run(lim, ops).lru)
    ensures var q := BeforePass(lim, Run(lim, ops), op); Coherent(q) && Ordered(lim, ops + [op], q.lru)
  {
    var p := Prepare(Run(lim, ops), op.key);
    PrepareKeeps(Run(lim, ops), op.key);
    PreparedOrder(lim, ops, op);
    DropKeysKeeps(p, Expired(p, op.now));
    DropOrdered(lim, ops + [op], p.lru, Expired(p, op.now));
  }

  lemma {:induction false} PrefixOrdered(lim: Limits, ops: seq<Op>, s: seq<Key>, n: nat)
    requires Ordered(lim, ops, s) && n <= |s|
    ensures Ordered(lim, ops, s[..n])
  {
    assert forall i :: 0 <= i < n ==> s[..n][i] == s[i];
  }

  /** The recency pass keeps a prefix of the list, and so its order. */
  lemma {:induction false} PassOrder(lim: Limits, ops: seq<Op>, q: L1, size: nat)
    requires Coherent(q) && Ordered(lim, ops, q.lru)
    ensures var e := EvictLRU(lim, q, size); Coherent(e) && Ordered(lim, ops, e.lru)
  {
    EvictLRUKeeps(lim, q, size);
    var n := LRUVictimsAreASuffix(lim, q, size);
    PrefixOrdered(lim, ops, q.lru, n);
  }

  /** The stored key comes first, unless it is there already. */
  lemma {:induction false} InsertOrder(lim: Limits, ops: seq<Op>, op: Op, c: L1, e: Entry)
    requires op.OpStore? && !TooBig(lim, |op.value|) && Coherent(c) && Ordered(lim, ops + [op], c.lru)
    ensures var d := Insert(c, op.key, e); Coherent(d) && Ordered(lim, ops + [op], d.lru)
  {
    InsertKeeps(c, op.key, e);
    if op.key !in c.index {
      UseSnoc(lim, ops, op, op.key);
      forall x | x in c.lru ensures LastUse(lim, ops + [op], x) < LastUse(lim, ops + [op], op.key) {
        UseSnoc(lim, ops, op, x);
      }
      FrontOrdered(lim, ops + [op], op.key, c.lru);
    }
  }

  lemma {:induction false} StoreOrder(lim: Limits, ops: seq<Op>, op: Op)
    requires op.OpStore? && !TooBig(lim, |op.value|)
    requires Coherent(Run(lim, ops)) && Ordered(lim, ops, Run(lim, ops).lru)
    ensures var d := Apply(lim, Run(lim, ops), op); Coherent(d) && Ordered(lim, ops + [op], d.lru)
  {
    var q := BeforePass(lim, Run(lim, ops), op);
    BeforePassOrder(lim, ops, op);
    PassOrder(lim, ops + [op], q, |op.value|);
    InsertOrder(lim, ops, op, EvictLRU(lim, q, |op.value|), Entry(op.value, op.deadline, |op.value|));
  }

  // ---------------------------------------------------------------------------
  // Every reachable state
  // ---------------------------------------------------------------------------

  lemma {:induction false} RemovalOrder(lim: Limits, ops: seq<Op>, op: Op, ks: set<Key>)
    requires !op.OpStore? && !op.OpPromote?
    requires Coherent(Run(lim, ops)) && Ordered(lim, ops, Run(lim, ops).lru)
    ensures var d := DropKeys(Run(lim, ops), ks); Coherent(d) && Ordered(lim, ops + [op], d.lru)
  {
    var c := Run(lim, ops);
    DropKeysKeeps(c, ks);
    DropOrdered(lim, ops, c.lru, ks);
    OthersOrdered(lim, ops, op, Drop(c.lru, ks));
  }

  lemma {:induction false} PromoteOrder(lim: Limits, ops: seq<Op>, op: Op)
    requires op.OpPromote? && Coherent(Run(lim, ops)) && Ordered(lim, ops, Run(lim, ops).lru)
    ensures var d := Apply(lim, Run(lim, ops), op); Coherent(d) && Ordered(lim, ops + [op], d.lru)
  {
    var c := Run(lim, ops);
    PromoteKeeps(c, op.key);
    if op.key in c.entries {
      PromoteFront(c, op.key);
      UsedFirst(lim, ops, op, op.key, c.lru);
    } else {
      OthersOrdered(lim, ops, op, c.lru);
    }
  }

  lemma {:induction false} StepOrder(lim: Limits, ops: seq<Op>, op: Op)
    requires Coherent(Run(lim, ops)) && Ordered(lim, ops, Run(lim, ops).lru)
    ensures var d := Apply(lim, Run(lim, ops), op); Coherent(d) && Ordered(lim, ops + [op], d.lru)
  {
    var c := Run(lim, ops);
    match op
    case OpStore(_, v, _, _) =>
      if TooBig(lim, |v|) { OthersOrdered(lim, ops, op, c.lru); } else { StoreOrder(lim, ops, op); }
    case OpInvalidate(k) =>
      if k in c.entries { RemovalOrder(lim, ops, op, {k}); } else { OthersOrdered(lim, ops, op, c.lru); }
    case OpInvalidatePrefix(p) => RemovalOrder(lim, ops, op, WithPrefix(c, p));
    case OpCleanup(now) => RemovalOrder(lim, ops, op, Expired(c, now));
    case OpPromote(_) => PromoteOrder(lim, ops, op);
  }

  lemma {:induction false} RunOrder(lim: Limits, ops: seq<Op>)
    ensures Coherent(Run(lim, ops)) && Ordered(lim, ops, Run(lim, ops).lru)
  {
    if ops != [] {
      var before, op := ops[..|ops| - 1], ops[|ops| - 1];
      RunOrder(lim, before);
      StepOrder(lim, before, op);
      assert before + [op] == ops;
    }
  }

  lemma {:induction false} OrderedExactly(lim: Limits, ops: seq<Op>, s: seq<Key>, i: nat, j: nat)
    requires Ordered(lim, ops, s) && i < |s| && j < |s|
    ensures i < j <==> LastUse(lim, ops, s[j]) < LastUse(lim, ops, s[i])
  {
  }

  /** In every reachable state, under any limits, the recency list holds exactly the
      keys with an entry, and one key comes before another exactly when its last
      use in the run is later. */
  lemma {:induction false} ListIsOrderOfUse(lim: Limits, ops: seq<Op>)
    ensures Coherent(Run(lim, ops)) && Ordered(lim, ops, Run(lim, ops).lru)
    ensures var s := Run(lim, ops).lru;
      forall i, j :: 0 <= i < |s| && 0 <= j < |s| ==>
        (i < j <==> LastUse(lim, ops, s[j]) < LastUse(lim, ops, s[i]))
  {
    RunOrder(lim, ops);
    var s := Run(lim, ops).lru;
    forall i, j | 0 <= i < |s| && 0 <= j < |s|
      ensures i < j <==> LastUse(lim, ops, s[j]) < LastUse(lim, ops, s[i])
    {
      OrderedExactly(lim, ops, s, i, j);
    }
  }

  // ---------------------------------------------------------------------------
  // What a key holds
  // ---------------------------------------------------------------------------

  /** Event `i` is the last accepted store of the key. */
  predicate LastStore(lim: Limits, ops: seq<Op>, k: Key, i: nat) {
    && i < |ops| && ops[i].OpStore? && ops[i].key == k && !TooBig(lim, |ops[i].value|)
    && forall j :: i < j < |ops| ==> !(ops[j].OpStore? && ops[j].key == k && !TooBig(lim, |ops[j].value|))
  }

  /** Only an accepted store gives a key an entry, and everything else keeps or removes it. */
  lemma EntryStep(lim: Limits, c: L1, op: Op, k: Key)
    requires Coherent(c)
    ensures var d := Apply(lim, c, op);
      if op.OpStore? && op.key == k && !TooBig(lim, |op.value|)
      then k in d.entries && d.entries[k] == Entry(op.value, op.deadline, |op.value|)
      else k in d.entries ==> k in c.entries && d.entries[k] == c.entries[k]
  {
    if op.OpStore? && !TooBig(lim, |op.value|) {
      PrepareKeeps(c, op.key);
      EvictKeeps(lim, Prepare(c, op.key), |op.value|, op.now);
    }
  }

  /** A key with an entry holds the value and the deadline of its last accepted
      store, which is held right after it. */
  lemma {:induction false} HoldsLastStore(lim: Limits, ops: seq<Op>, k: Key)
    ensures k in Run(lim, ops).entries ==> exists i: nat :: LastStore(lim, ops, k, i)
    ensures forall i: nat :: LastStore(lim, ops, k, i) && (k in Run(lim, ops).entries || i == |ops| - 1) ==>
      k in Run(lim, ops).entries
      && Run(lim, ops).entries[k] == Entry(ops[i].value, ops[i].deadline, |ops[i].value|)
  {
    if ops != [] {
      var init, op := ops[..|ops| - 1], ops[|ops| - 1];
      HoldsLastStore(lim, init, k);
      ListIsOrderOfUse(lim, init);
      EntryStep(lim, Run(lim, init), op, k);
      if op.OpStore? && op.key == k && !TooBig(lim, |op.value|) {
        assert LastStore(lim, ops, k, |ops| - 1);
      } else {
        forall i: nat ensures LastStore(lim, ops, k, i) <==> LastStore(lim, init, k, i) {
          assert forall j :: 0 <= j < |init| ==> init[j] == ops[j];
        }
      }
    }
  }

  // ---------------------------------------------------------------------------
  // Whom a store evicts
  // ---------------------------------------------------------------------------

  /** The key was last used, this store included, before `x`. */
  predicate UsedBefore(lim: Limits, ops: seq<Op>, op: Op, y: Key, x: Key) {
    LastUse(lim, ops + [op], y) < LastUse(lim, ops + [op], x)
  }

  lemma {:induction false} BytesConcat(a: seq<Key>, b: seq<Key>, m: map<Key, Entry>)
    ensures Bytes(a + b, m) == Bytes(a, m) + Bytes(b, m)
  {
    if a == [] {
      assert a + b == b;
    } else {
      assert (a + b)[1..] == a[1..] + b;
      BytesConcat(a[1..], b, m);
    }
  }

  lemma {:induction false} CountMostRecent(c: L1, n: nat)
    requires Coherent(c) && n <= |c.lru|
    ensures |MostRecent(c, n).entries| == n
  {
    var d := MostRecent(c, n);
    forall x ensures x in c.lru[..n] <==> x in d.entries {
      assert c.lru == c.lru[..n] + c.lru[n..];
      if x in c.lru[..n] {
        var i :| 0 <= i < n && c.lru[i] == x;
        assert forall j :: n <= j < |c.lru| ==> c.lru[j] != x;
      }
    }
    LengthIsCount(c.lru[..n], d.entries.Keys);
    assert |d.entries| == |d.entries.Keys|;
  }

  /** The value fits once the keys in `older`, and nothing else, have been evicted
      from what the expiry pass left. */
  predicate FitsWithout(lim: Limits, q: L1, older: seq<Key>, size: nat) {
    |q.lru| - |older| < lim.maxEntries && q.cur - Bytes(older, q.entries) + size <= lim.maxBytes
  }

  lemma {:induction false} FullIs(lim: Limits, q: L1, size: nat, n: nat)
    requires Coherent(q) && n <= |q.lru|
    ensures Full(lim, MostRecent(q, n), size) <==> !FitsWithout(lim, q, q.lru[n..], size)
  {
    CountMostRecent(q, n);
  }

  lemma {:induction false} FitsGrows(lim: Limits, q: L1, size: nat, n: nat, m: nat)
    requires n <= m <= |q.lru| && FitsWithout(lim, q, q.lru[m..], size)
    ensures FitsWithout(lim, q, q.lru[n..], size)
  {
    assert q.lru[n..] == q.lru[n..m] + q.lru[m..];
    BytesConcat(q.lru[n..m], q.lru[m..], q.entries);
  }

  /** The recency pass leaves the `n` keys used last. */
  predicate StopsAt(lim: Limits, q: L1, size: nat, n: nat) {
    n <= |q.lru| && EvictLRU(lim, q, size) == MostRecent(q, n)
  }

  /** Where the recency pass stops, seen from position `p`. */
  lemma {:induction false} PassPoint(lim: Limits, q: L1, size: nat, p: nat) returns (n: nat)
    requires Coherent(q) && p < |q.lru|
    ensures n <= |q.lru| && StopsAt(lim, q, size, n)
    ensures if p < n then FitsWithout(lim, q, q.lru[n..], size) else !FitsWithout(lim, q, q.lru[p + 1..], size)
  {
    n := LRUVictimsAreASuffix(lim, q, size);
    FullIs(lim, q, size, if p < n then n else p + 1);
  }

  predicate KeptByPass(lim: Limits, q: L1, size: nat, x: Key) {
    x in EvictLRU(lim, q, size).entries
  }

  lemma {:induction false} PassKeeps(lim: Limits, q: L1, size: nat, p: nat, n: nat)
    requires Coherent(q) && p < |q.lru| && StopsAt(lim, q, size, n)
    ensures KeptByPass(lim, q, size, q.lru[p]) <==> p < n
  {
    KeptIs(q, n, p);
  }

  lemma {:induction false} StopDecides(lim: Limits, q: L1, size: nat, p: nat, n: nat)
    requires p < |q.lru| && n <= |q.lru|
    requires if p < n then FitsWithout(lim, q, q.lru[n..], size) else !FitsWithout(lim, q, q.lru[p + 1..], size)
    ensures p < n <==> FitsWithout(lim, q, q.lru[p + 1..], size)
  {
    if p < n { FitsGrows(lim, q, size, p + 1, n); }
  }

  /** A key at position `p` survives the recency pass exactly if the value fits
      beside it and everything before it. */
  lemma {:induction false} PassKeepsExactly(lim: Limits, q: L1, size: nat, p: nat)
    requires Coherent(q) && p < |q.lru|
    ensures KeptByPass(lim, q, size, q.lru[p]) <==> FitsWithout(lim, q, q.lru[p + 1..], size)
  {
    var n := PassPoint(lim, q, size, p);
    PassKeeps(lim, q, size, p, n);
    StopDecides(lim, q, size, p, n);
  }

  lemma {:induction false} KeptIs(q: L1, n: nat, p: nat)
    requires Coherent(q) && n <= |q.lru| && p < |q.lru|
    ensures q.lru[p] in MostRecent(q, n).entries <==> p < n
  {
    if p >= n { assert q.lru[n..][p - n] == q.lru[p]; }
    assert p < n ==> forall j :: n <= j < |q.lru| ==> q.lru[j] != q.lru[p];
  }

  /** The list names exactly the keys that were last used before `x`, once each. */
  ghost predicate ListsOlder(lim: Limits, ops: seq<Op>, op: Op, q: L1, x: Key, older: seq<Key>) {
    NoDuplicates(older) && forall y :: y in older <==> y in q.entries && UsedBefore(lim, ops, op, y, x)
  }

  lemma {:induction false} SuffixListsOlder(lim: Limits, ops: seq<Op>, op: Op, q: L1, p: nat)
    requires Coherent(q) && Ordered(lim, ops + [op], q.lru) && p < |q.lru|
    ensures ListsOlder(lim, ops, op, q, q.lru[p], q.lru[p + 1..])
  {
    OlderAre(lim, ops + [op], q.lru, p);
  }

  /** A key that the expiry pass left stays through a store exactly if the value
      fits once all keys last used before it are gone: so the victims of the
      recency pass are the keys with the oldest last use, and no more of them than
      needed. The stored key itself counts as used last. */
  lemma {:induction false} SurvivesExactly(lim: Limits, ops: seq<Op>, op: Op, x: Key) returns (older: seq<Key>)
    requires op.OpStore? && !TooBig(lim, |op.value|) && x != op.key
    requires x in BeforePass(lim, Run(lim, ops), op).entries
    ensures var q := BeforePass(lim, Run(lim, ops), op);
      && ListsOlder(lim, ops, op, q, x, older)
      && (x in Run(lim, ops + [op]).entries <==> FitsWithout(lim, q, older, |op.value|))
  {
    ListIsOrderOfUse(lim, ops);
    BeforePassOrder(lim, ops, op);
    older := Older(lim, ops, op, BeforePass(lim, Run(lim, ops), op), x);
  }

  lemma {:induction false} Older(lim: Limits, ops: seq<Op>, op: Op, q: L1, x: Key) returns (older: seq<Key>)
    requires op.OpStore? && !TooBig(lim, |op.value|) && x != op.key && x in q.entries
    requires q == BeforePass(lim, Run(lim, ops), op) && Coherent(q) && Ordered(lim, ops + [op], q.lru)
    ensures ListsOlder(lim, ops, op, q, x, older)
    ensures x in Run(lim, ops + [op]).entries <==> FitsWithout(lim, q, older, |op.value|)
  {
    var p :| 0 <= p < |q.lru| && q.lru[p] == x;
    older := q.lru[p + 1..];
    SuffixListsOlder(lim, ops, op, q, p);
    StoreKeepsExactly(lim, ops, op, q, p);
  }

  lemma {:induction false} StoreKeepsExactly(lim: Limits, ops: seq<Op>, op: Op, q: L1, p: nat)
    requires op.OpStore? && !TooBig(lim, |op.value|) && q == BeforePass(lim, Run(lim, ops), op) && Coherent(q)
    requires p < |q.lru| && q.lru[p] != op.key
    ensures q.lru[p] in Run(lim, ops + [op]).entries <==> FitsWithout(lim, q, q.lru[p + 1..], |op.value|)
  {
    PassKeepsExactly(lim, q, |op.value|, p);
    StoreKeeps(lim, ops, op, q, q.lru[p]);
  }

  lemma {:induction false} StoreKeeps(lim: Limits, ops: seq<Op>, op: Op, q: L1, x: Key)
    requires op.OpStore? && !TooBig(lim, |op.value|) && q == BeforePass(lim, Run(lim, ops), op) && x != op.key
    ensures x in Run(lim, ops + [op]).entries <==> KeptByPass(lim, q, |op.value|, x)
  {
    RunOneMore(lim, ops, op);
  }

  lemma {:induction false} OlderAre(lim: Limits, ops: seq<Op>, s: seq<Key>, p: nat)
    requires Ordered(lim, ops, s) && p < |s|
    ensures forall y :: y in s[p + 1..] <==> y in s && LastUse(lim, ops, y) < LastUse(lim, ops, s[p])
  {
    forall y ensures y in s[p + 1..] <==> y in s && LastUse(lim, ops, y) < LastUse(lim, ops, s[p]) {
      if y in s {
        var i :| 0 <= i < |s| && s[i] == y;
        if i > p { assert s[p + 1..][i - p - 1] == y; }
      }
    }
  }

  /** What the expiry pass leaves, in terms of the entries: everything if the value
      fits at once, with the overwritten entry's bytes given back, and else what
      has not expired; the stored key itself stays out of account. */
  lemma {:induction false} SweptExactly(lim: Limits, ops: seq<Op>, op: Op, x: Key)
    requires op.OpStore? && x != op.key
    ensures var c := Run(lim, ops);
      var given := if op.key in c.entries then c.entries[op.key].size else 0;
      var fits := |c.entries| < lim.maxEntries && c.cur - given + |op.value| <= lim.maxBytes;
      x in BeforePass(lim, c, op).entries <==> x in c.entries && (fits || op.now <= c.entries[x].expiresAt)
  {
    ListIsOrderOfUse(lim, ops);
    PrepareKeeps(Run(lim, ops), op.key);
  }
}
