/** The on-disk tier: a write buffer that is swapped out and committed by a
    flush, a bucket on disk, and deletes of expired entries that run late in
    their own goroutines. A flush swaps in one step and commits, or fails, in a
    later one, so flushes may overlap and reads may fall in between. */
module DiskCache {
  import opened CacheKeys
  import opened Wrappers

  /** A stored entry; `write` numbers the accepted writes. */
  datatype Rec = Rec(value: string, expiresAt: int, write: nat)

  /** An entry on disk, with the flush that put it there. */
  datatype Cell = Cell(rec: Rec, batch: nat)

  /** `swapped` lists the buffers of all flushes so far; those in `inflight` are
      not committed yet. `deletes` holds the expiry deletes still to run. */
  datatype Disk = Disk(writes: nat, buf: map<Key, Rec>, swapped: seq<map<Key, Rec>>, inflight: set<nat>,
                       bucket: map<Key, Cell>, deletes: seq<Key>)

  const EMPTY := Disk(0, map[], [], {}, map[], [])

  /** The keys a sweep looks at, and those whose header it cannot read. */
  datatype Sweep = Sweep(scanned: set<Key>, broken: set<Key>)

  const NO_SWEEP := Sweep({}, {})

  /** `Get` is the second half of a read, after the buffer missed. `kept` are the
      keys a commit does not refuse; `Fail` is a transaction that is rolled back. */
  datatype Event =
    | Set(key: Key, value: string, ttl: int, now: int)
    | Swap
    | Commit(b: nat, sweep: Sweep, kept: set<Key>, now: int)
    | Fail(b: nat)
    | Get(key: Key, now: int)
    | LateDelete(j: nat)

  // ---------------------------------------------------------------------------
  // Steps
  // ---------------------------------------------------------------------------

  predicate Accepted(minTTL: int, ttl: int) {
    ttl > 0 && !(minTTL > 0 && ttl < minTTL)
  }

  predicate Accepts(minTTL: int, e: Event, k: Key) {
    e.Set? && e.key == k && Accepted(minTTL, e.ttl)
  }

  function Expired(m: map<Key, Cell>, now: int): set<Key> {
    set k | k in m && m[k].rec.expiresAt <= now
  }

  function Put(bucket: map<Key, Cell>, batch: map<Key, Rec>, b: nat, kept: set<Key>): map<Key, Cell> {
    bucket + map k | k in batch && k in kept :: Cell(batch[k], b)
  }

  /** What a sweep deletes: of what it scans, the expired and the unreadable. */
  function Swept(bucket: map<Key, Cell>, sweep: Sweep, now: int): map<Key, Cell> {
    bucket - (sweep.scanned * (Expired(bucket, now) + sweep.broken))
  }

  /** The commit transaction: sweep, then put what it keeps of the batch. */
  function CommitBatch(d: Disk, b: nat, sweep: Sweep, kept: set<Key>, now: int): Disk
    requires b < |d.swapped|
  {
    d.(bucket := Put(Swept(d.bucket, sweep, now), d.swapped[b], b, kept), inflight := d.inflight - {b})
  }

  function BucketRead(d: Disk, k: Key, now: int): Option<Rec> {
    if k in d.bucket && d.bucket[k].rec.expiresAt - now > 0 then Some(d.bucket[k].rec) else None
  }

  /** A fresh read: the buffer first, then the bucket; nothing expired. */
  function Read(d: Disk, k: Key, now: int): Option<Rec> {
    if k in d.buf then
      if d.buf[k].expiresAt - now <= 0 then None else Some(d.buf[k])
    else BucketRead(d, k, now)
  }

  function Step(minTTL: int, d: Disk, e: Event): Disk {
    match e
    case Set(k, v, ttl, now) =>
      if Accepted(minTTL, ttl) then d.(buf := d.buf[k := Rec(v, now + ttl, d.writes)], writes := d.writes + 1) else d
    case Swap => d.(buf := map[], swapped := d.swapped + [d.buf], inflight := d.inflight + {|d.swapped|})
    case Commit(b, sweep, kept, now) =>
      if b in d.inflight && b < |d.swapped| then CommitBatch(d, b, sweep, kept, now) else d
    case Fail(b) => d.(inflight := d.inflight - {b})
    case Get(k, now) =>
      if k in d.bucket && d.bucket[k].rec.expiresAt - now <= 0 then d.(deletes := d.deletes + [k]) else d
    case LateDelete(j) =>
      if j < |d.deletes| then d.(bucket := d.bucket - {d.deletes[j]}, deletes := Without(d.deletes, j)) else d
  }

  function Run(minTTL: int, es: seq<Event>): Disk {
    if es == [] then EMPTY else Step(minTTL, Run(minTTL, es[..|es| - 1]), es[|es| - 1])
  }

  lemma {:induction false} RunSnoc(minTTL: int, es: seq<Event>, e: Event)
    ensures Run(minTTL, es + [e]) == Step(minTTL, Run(minTTL, es), e)
  {
    assert (es + [e])[..|es|] == es;
  }

  // ---------------------------------------------------------------------------
  // What a reader is entitled to
  // ---------------------------------------------------------------------------

  /** The number of accepted writes. */
  function Writes(minTTL: int, es: seq<Event>): nat {
    if es == [] then 0
    else
      var e := es[|es| - 1];
      Writes(minTTL, es[..|es| - 1]) + if e.Set? && Accepted(minTTL, e.ttl) then 1 else 0
  }

  /** The last accepted write of a key. */
  function Latest(minTTL: int, es: seq<Event>, k: Key): Option<Rec> {
    if es == [] then None
    else
      var before, e := es[..|es| - 1], es[|es| - 1];
      if Accepts(minTTL, e, k) then Some(Rec(e.value, e.now + e.ttl, Writes(minTTL, before)))
      else Latest(minTTL, before, k)
  }

  predicate Older(r: Rec, latest: Option<Rec>) {
    latest.Some? && r.write < latest.value.write
  }

  /** The youngest flush whose buffer held the key. */
  function Youngest(bs: seq<map<Key, Rec>>, k: Key): (r: Option<nat>)
    ensures r.Some? ==> r.value < |bs| && k in bs[r.value] && forall j :: r.value < j < |bs| ==> k !in bs[j]
    ensures r.None? ==> forall j :: 0 <= j < |bs| ==> k !in bs[j]
  {
    if bs == [] then None
    else if k in bs[|bs| - 1] then Some(|bs| - 1)
    else Youngest(bs[..|bs| - 1], k)
  }

  lemma {:induction false} YoungestSnoc(bs: seq<map<Key, Rec>>, m: map<Key, Rec>, k: Key)
    ensures Youngest(bs + [m], k) == if k in m then Some(|bs|) else Youngest(bs, k)
  {
    assert (bs + [m])[..|bs|] == bs;
  }

  /** The newest copy of a key off the disk: in the buffer, else in the youngest swapped one. */
  function Newest(d: Disk, k: Key): Option<Rec> {
    if k in d.buf then Some(d.buf[k])
    else
      var y := Youngest(d.swapped, k);
      if y.Some? then Some(d.swapped[y.value][k]) else None
  }

  lemma StepNewest(minTTL: int, d: Disk, e: Event, k: Key)
    ensures Newest(Step(minTTL, d, e), k) ==
      if Accepts(minTTL, e, k) then Some(Rec(e.value, e.now + e.ttl, d.writes)) else Newest(d, k)
  {
    if e.Swap? { YoungestSnoc(d.swapped, d.buf, k); }
  }

  /** Along every run the newest copy of each key is its latest accepted write,
      however flushes overlap and whatever commits refuse. */
  lemma {:induction false} NewestCopyIsLatest(minTTL: int, es: seq<Event>, k: Key)
    ensures Newest(Run(minTTL, es), k) == Latest(minTTL, es, k)
    ensures Run(minTTL, es).writes == Writes(minTTL, es)
  {
    if es != [] {
      NewestCopyIsLatest(minTTL, es[..|es| - 1], k);
      StepNewest(minTTL, Run(minTTL, es[..|es| - 1]), es[|es| - 1], k);
    }
  }

  // ---------------------------------------------------------------------------
  // The order of copies
  // ---------------------------------------------------------------------------

  /** The copies of a key come from the flushes that hold it, and later flushes hold later writes. */
  ghost predicate Sound(d: Disk, k: Key) {
    && (k in d.bucket ==>
          d.bucket[k].batch < |d.swapped| && k in d.swapped[d.bucket[k].batch]
          && d.swapped[d.bucket[k].batch][k] == d.bucket[k].rec)
    && (k in d.buf ==> d.buf[k].write < d.writes)
    && (forall i :: 0 <= i < |d.swapped| && k in d.swapped[i] ==>
          d.swapped[i][k].write < d.writes && (k in d.buf ==> d.swapped[i][k].write < d.buf[k].write))
    && (forall i, j :: 0 <= i < j < |d.swapped| && k in d.swapped[i] && k in d.swapped[j] ==>
          d.swapped[i][k].write < d.swapped[j][k].write)
  }

  lemma StepKeepsSound(minTTL: int, d: Disk, e: Event, k: Key)
    requires Sound(d, k)
    ensures Sound(Step(minTTL, d, e), k)
  {
  }

  lemma {:induction false} AlwaysSound(minTTL: int, es: seq<Event>, k: Key)
    ensures Sound(Run(minTTL, es), k)
  {
    if es != [] {
      AlwaysSound(minTTL, es[..|es| - 1], k);
      StepKeepsSound(minTTL, Run(minTTL, es[..|es| - 1]), es[|es| - 1], k);
    }
  }

  lemma {:induction false} SwappedGrows(minTTL: int, es: seq<Event>, more: seq<Event>)
    ensures Run(minTTL, es).swapped <= Run(minTTL, es + more).swapped
  {
    if more == [] {
      assert es + more == es;
    } else {
      var init, e := more[..|more| - 1], more[|more| - 1];
      SwappedGrows(minTTL, es, init);
      assert es + more == es + init + [e];
      RunSnoc(minTTL, es + init, e);
    }
  }

  /** The commit puts the key into the bucket. */
  predicate Puts(d: Disk, e: Event, k: Key) {
    e.Commit? && e.b in d.inflight && e.b < |d.swapped| && k in d.swapped[e.b] && k in e.kept
  }

  /** The flush that last put the key. */
  function LastPut(minTTL: int, es: seq<Event>, k: Key): Option<nat> {
    if es == [] then None
    else
      var before, e := es[..|es| - 1], es[|es| - 1];
      if Puts(Run(minTTL, before), e, k) then Some(e.b) else LastPut(minTTL, before, k)
  }

  lemma {:induction false} BucketIsLastPut(minTTL: int, es: seq<Event>, k: Key)
    ensures var d := Run(minTTL, es);
      k in d.bucket ==> LastPut(minTTL, es, k) == Some(d.bucket[k].batch)
  {
    if es != [] {
      BucketIsLastPut(minTTL, es[..|es| - 1], k);
    }
  }

  // ---------------------------------------------------------------------------
  // Exactly which reads are stale
  // ---------------------------------------------------------------------------

  /** A read that misses the buffer and looks into the bucket later, while any
      writes and flushes go on, returns a write older than the latest one
      accepted before it began exactly when the bucket has an unexpired copy whose
      flush is older than the youngest flush that had taken the key by then. */
  lemma {:induction false} StaleReadExactly(minTTL: int, es: seq<Event>, more: seq<Event>, k: Key, now: int)
    requires k !in Run(minTTL, es).buf
    ensures var d := Run(minTTL, es + more);
            var y := Youngest(Run(minTTL, es).swapped, k);
            var r := BucketRead(d, k, now);
            r.Some? && Older(r.value, Latest(minTTL, es, k)) <==>
              && k in d.bucket && now < d.bucket[k].rec.expiresAt
              && y.Some? && LastPut(minTTL, es + more, k).Some? && LastPut(minTTL, es + more, k).value < y.value
  {
    NewestCopyIsLatest(minTTL, es, k);
    SwappedGrows(minTTL, es, more);
    AlwaysSound(minTTL, es + more, k);
    BucketIsLastPut(minTTL, es + more, k);
  }

  /** Seen at one instant: a read returns an older write than the latest exactly
      when the key is not in the buffer, its copy on disk has not expired, and the
      flush that last put it is not the youngest one that took it. Any other hit
      is the latest write. */
  lemma {:induction false} StaleNowExactly(minTTL: int, es: seq<Event>, k: Key, now: int)
    ensures var d := Run(minTTL, es);
            var r := Read(d, k, now);
            && (r.Some? && Older(r.value, Latest(minTTL, es, k)) <==>
                  && k !in d.buf && k in d.bucket && now < d.bucket[k].rec.expiresAt
                  && LastPut(minTTL, es, k) != Youngest(d.swapped, k))
            && (r.Some? && !Older(r.value, Latest(minTTL, es, k)) ==> r == Latest(minTTL, es, k))
            && (r.Some? ==> r.value.expiresAt > now)
  {
    NewestCopyIsLatest(minTTL, es, k);
    AlwaysSound(minTTL, es, k);
    BucketIsLastPut(minTTL, es, k);
  }

  /** A read at this point of the run returns a write older than the latest. */
  predicate StaleRead(minTTL: int, es: seq<Event>, k: Key, now: int) {
    var r := Read(Run(minTTL, es), k, now);
    r.Some? && Older(r.value, Latest(minTTL, es, k))
  }

  /** What is on disk, unless the buffer hides it, comes from the youngest flush of the key. */
  predicate NoStale(d: Disk, k: Key) {
    k !in d.buf && k in d.bucket ==> Youngest(d.swapped, k) == Some(d.bucket[k].batch)
  }

  /** A flush takes the key only when the disk has no copy of it, and a commit
      puts the youngest copy, unless a newer one is still in the buffer. */
  predicate Safe(d: Disk, e: Event, k: Key) {
    && (e.Swap? && k in d.buf ==> k !in d.bucket)
    && (Puts(d, e, k) ==> k in d.buf || Youngest(d.swapped, k) == Some(e.b))
  }

  lemma StaleStep(minTTL: int, d: Disk, e: Event, k: Key)
    requires Sound(d, k) && NoStale(d, k)
    ensures NoStale(Step(minTTL, d, e), k) <==> Safe(d, e, k)
  {
    if e.Swap? { YoungestSnoc(d.swapped, d.buf, k); }
  }

  /** This is what a reader sees: no read is stale, whatever the clock says. */
  lemma {:induction false} NoStaleIsSeen(minTTL: int, es: seq<Event>, k: Key)
    ensures NoStale(Run(minTTL, es), k) <==> forall now :: !StaleRead(minTTL, es, k, now)
  {
    var d := Run(minTTL, es);
    BucketIsLastPut(minTTL, es, k);
    forall now ensures StaleRead(minTTL, es, k, now) <==>
      k !in d.buf && k in d.bucket && now < d.bucket[k].rec.expiresAt
      && LastPut(minTTL, es, k) != Youngest(d.swapped, k)
    {
      StaleNowExactly(minTTL, es, k, now);
    }
    if !NoStale(d, k) { assert StaleRead(minTTL, es, k, d.bucket[k].rec.expiresAt - 1); }
  }

  ghost predicate NeverBehind(minTTL: int, es: seq<Event>, k: Key) {
    forall n :: 0 <= n <= |es| ==> NoStale(Run(minTTL, es[..n]), k)
  }

  /** No read at any point of the run, at any time, returns a replaced write. */
  ghost predicate NeverStale(minTTL: int, es: seq<Event>, k: Key) {
    forall n, now :: 0 <= n <= |es| ==> !StaleRead(minTTL, es[..n], k, now)
  }

  ghost predicate AlwaysSafe(minTTL: int, es: seq<Event>, k: Key) {
    forall n :: 0 <= n < |es| ==> Safe(Run(minTTL, es[..n]), es[n], k)
  }

  lemma {:induction false} PrefixBehind(minTTL: int, es: seq<Event>, k: Key)
    requires es != []
    ensures NeverBehind(minTTL, es, k) <==> NeverBehind(minTTL, es[..|es| - 1], k) && NoStale(Run(minTTL, es), k)
    ensures NeverBehind(minTTL, es[..|es| - 1], k) ==> NoStale(Run(minTTL, es[..|es| - 1]), k)
  {
    var before := es[..|es| - 1];
    assert es[..|es|] == es && before[..|before|] == before;
    assert forall n :: 0 <= n <= |before| ==> before[..n] == es[..n];
  }

  lemma {:induction false} PrefixSafe(minTTL: int, es: seq<Event>, k: Key)
    requires es != []
    ensures AlwaysSafe(minTTL, es, k) <==>
      AlwaysSafe(minTTL, es[..|es| - 1], k) && Safe(Run(minTTL, es[..|es| - 1]), es[|es| - 1], k)
  {
    var before := es[..|es| - 1];
    assert forall n :: 0 <= n <= |before| ==> before[..n] == es[..n];
  }

  lemma {:induction false} NeverBehindExactly(minTTL: int, es: seq<Event>, k: Key)
    ensures NeverBehind(minTTL, es, k) <==> AlwaysSafe(minTTL, es, k)
  {
    if es != [] {
      var before := es[..|es| - 1];
      NeverBehindExactly(minTTL, before, k);
      PrefixBehind(minTTL, es, k);
      PrefixSafe(minTTL, es, k);
      if NoStale(Run(minTTL, before), k) {
        AlwaysSound(minTTL, before, k);
        StaleStep(minTTL, Run(minTTL, before), es[|es| - 1], k);
      }
    }
  }

  /** A run has no moment at which a read of the key returns a replaced write
      exactly when no flush takes a key that is on disk and no commit puts a copy
      that a later flush has replaced. */
  lemma {:induction false} NeverStaleExactly(minTTL: int, es: seq<Event>, k: Key)
    ensures NeverStale(minTTL, es, k) <==> AlwaysSafe(minTTL, es, k)
  {
    NeverBehindExactly(minTTL, es, k);
    forall n | 0 <= n <= |es|
      ensures NoStale(Run(minTTL, es[..n]), k) <==> forall now :: !StaleRead(minTTL, es[..n], k, now)
    {
      NoStaleIsSeen(minTTL, es[..n], k);
    }
  }

  // ---------------------------------------------------------------------------
  // Reads between the flushes of a key
  // ---------------------------------------------------------------------------

  predicate InFlight(d: Disk, k: Key) {
    exists b :: b in d.inflight && b < |d.swapped| && k in d.swapped[b]
  }

  /** The flushes of the key are committed oldest first, and none loses it. */
  predicate InOrder(d: Disk, e: Event, k: Key) {
    match e
    case Commit(b, _, kept, _) =>
      b in d.inflight && b < |d.swapped| && k in d.swapped[b] ==>
        k in kept && forall b' :: b' in d.inflight && b' < |d.swapped| && k in d.swapped[b'] ==> b <= b'
    case Fail(b) => b in d.inflight && b < |d.swapped| ==> k !in d.swapped[b]
    case _ => true
  }

  ghost predicate CommittedInOrder(minTTL: int, es: seq<Event>, k: Key) {
    forall n :: 0 <= n < |es| ==> InOrder(Run(minTTL, es[..n]), es[n], k)
  }

  /** What is on disk is older than every flush of the key in flight, and no
      older than every other. */
  ghost predicate Caught(d: Disk, k: Key) {
    k in d.bucket ==> forall b :: 0 <= b < |d.swapped| && k in d.swapped[b] ==>
      if b in d.inflight then d.bucket[k].batch < b else b <= d.bucket[k].batch
  }

  lemma CaughtStep(minTTL: int, d: Disk, e: Event, k: Key)
    requires Sound(d, k) && Caught(d, k) && Ahead(d, k) && InOrder(d, e, k)
    ensures Caught(Step(minTTL, d, e), k)
  {
  }

  /** Every flush of the key that is done is older than those in flight. */
  ghost predicate Ahead(d: Disk, k: Key) {
    forall b, b' | 0 <= b < |d.swapped| && 0 <= b' < |d.swapped| && k in d.swapped[b] && k in d.swapped[b']
      :: b !in d.inflight && b' in d.inflight ==> b < b'
  }

  lemma AheadStep(minTTL: int, d: Disk, e: Event, k: Key)
    requires Ahead(d, k) && InOrder(d, e, k)
    ensures Ahead(Step(minTTL, d, e), k)
  {
  }

  lemma {:induction false} OrderedRun(minTTL: int, es: seq<Event>, k: Key)
    requires CommittedInOrder(minTTL, es, k)
    ensures Caught(Run(minTTL, es), k) && Ahead(Run(minTTL, es), k)
  {
    if es != [] {
      var before := es[..|es| - 1];
      forall n | 0 <= n < |before| ensures InOrder(Run(minTTL, before[..n]), before[n], k) {
        assert before[..n] == es[..n];
      }
      OrderedRun(minTTL, before, k);
      AlwaysSound(minTTL, before, k);
      assert InOrder(Run(minTTL, es[..|es| - 1]), es[|es| - 1], k);
      CaughtStep(minTTL, Run(minTTL, before), es[|es| - 1], k);
      AheadStep(minTTL, Run(minTTL, before), es[|es| - 1], k);
    }
  }

  /** When the flushes of a key are committed oldest first and whole, whatever
      the others do, a read outside them returns the latest accepted write of the
      key or misses; a read inside one is stale exactly when it hits the disk. */
  lemma {:induction false} ReadsLatestOrMisses(minTTL: int, es: seq<Event>, k: Key, now: int)
    requires CommittedInOrder(minTTL, es, k)
    ensures var d := Run(minTTL, es);
            var r := Read(d, k, now);
            r.Some? ==> (r == Latest(minTTL, es, k) <==> k in d.buf || !InFlight(d, k))
  {
    var d := Run(minTTL, es);
    OrderedRun(minTTL, es, k);
    AlwaysSound(minTTL, es, k);
    NewestCopyIsLatest(minTTL, es, k);
    if k !in d.buf && k in d.bucket && !InFlight(d, k) {
      var y := Youngest(d.swapped, k).value;
      assert y !in d.inflight;
    }
  }

  // ---------------------------------------------------------------------------
  // Three ways to read a replaced value
  // ---------------------------------------------------------------------------

  /** Every flush of a key that is already on disk: until its commit, a read finds the old copy. */
  lemma {:induction false} EveryOverwriteExposes(minTTL: int, es: seq<Event>, k: Key, now: int)
    requires var d := Run(minTTL, es); k in d.buf && k in d.bucket && now < d.bucket[k].rec.expiresAt
    ensures var d := Run(minTTL, es + [Swap]);
            var r := Read(d, k, now);
            r == Some(Run(minTTL, es).bucket[k].rec) && Older(r.value, Latest(minTTL, es + [Swap], k))
  {
    var d := Run(minTTL, es);
    RunSnoc(minTTL, es, Swap);
    AlwaysSound(minTTL, es, k);
    NewestCopyIsLatest(minTTL, es, k);
    assert (es + [Swap])[..|es|] == es;
  }

  /** A write whose commit refuses it, as the byte cap may, or fails, leaves the old copy to be read. */
  lemma {:induction false} RefusedWriteLeavesOld(minTTL: int, es: seq<Event>, k: Key, e: Event, kept: set<Key>,
      now: int)
    requires var d := Run(minTTL, es); k !in d.buf && k in d.bucket && now < d.bucket[k].rec.expiresAt
    requires Accepts(minTTL, e, k) && k !in kept
    ensures var b := |Run(minTTL, es).swapped|;
            var es' := es + [e] + [Swap] + [Commit(b, NO_SWEEP, kept, now)];
            var r := Read(Run(minTTL, es'), k, now);
            && b !in Run(minTTL, es').inflight
            && r == Some(Run(minTTL, es).bucket[k].rec) && Older(r.value, Latest(minTTL, es', k))
  {
    var b := |Run(minTTL, es).swapped|;
    var e1, e2 := es + [e], es + [e] + [Swap];
    RunSnoc(minTTL, es, e);
    RunSnoc(minTTL, e1, Swap);
    RunSnoc(minTTL, e2, Commit(b, NO_SWEEP, kept, now));
    AlwaysSound(minTTL, es, k);
    NewestCopyIsLatest(minTTL, e2 + [Commit(b, NO_SWEEP, kept, now)], k);
    StepNewest(minTTL, Run(minTTL, es), e, k);
    StepNewest(minTTL, Run(minTTL, e1), Swap, k);
    StepNewest(minTTL, Run(minTTL, e2), Commit(b, NO_SWEEP, kept, now), k);
  }

  /** Two flushes that commit the wrong way round: the older value stays although nothing is in flight. */
  lemma {:induction false} OverlappingFlushesCanResurrect(k: Key, older: string, newer: string)
    ensures var es := [Set(k, older, 10, 0), Swap, Set(k, newer, 10, 0), Swap,
                       Commit(1, NO_SWEEP, {k}, 0), Commit(0, NO_SWEEP, {k}, 0)];
            && Run(0, es).inflight == {}
            && Read(Run(0, es), k, 1) == Some(Rec(older, 10, 0))
            && Latest(0, es, k) == Some(Rec(newer, 10, 1))
  {
    var e1, e3 := Set(k, older, 10, 0), Set(k, newer, 10, 0);
    var e5, e6 := Commit(1, NO_SWEEP, {k}, 0), Commit(0, NO_SWEEP, {k}, 0);
    var s2 := [] + [e1] + [Swap];
    var s4 := s2 + [e3] + [Swap];
    assert s4 + [e5] + [e6] == [e1, Swap, e3, Swap, e5, e6];
    TwoSteps([], e1, Swap);
    TwoSteps(s2, e3, Swap);
    TwoSteps(s4, e5, e6);
    var a, b := Rec(older, 10, 0), Rec(newer, 10, 1);
    assert Run(0, s2) == Disk(1, map[], [map[k := a]], {0}, map[], []);
    assert Run(0, s4) == Disk(2, map[], [map[k := a], map[k := b]], {0, 1}, map[], []);
    WrongWayRound(k, a, b);
    NewestCopyIsLatest(0, s4 + [e5] + [e6], k);
  }

  lemma {:induction false} TwoSteps(es: seq<Event>, e: Event, f: Event)
    ensures Run(0, es + [e] + [f]) == Step(0, Step(0, Run(0, es), e), f)
  {
    RunSnoc(0, es, e);
    RunSnoc(0, es + [e], f);
  }

  lemma WrongWayRound(k: Key, a: Rec, b: Rec)
    ensures var d := Disk(2, map[], [map[k := a], map[k := b]], {0, 1}, map[], []);
      Step(0, Step(0, d, Commit(1, NO_SWEEP, {k}, 0)), Commit(0, NO_SWEEP, {k}, 0)) ==
        d.(inflight := {}, bucket := map[k := Cell(a, 0)])
  {
    var d := Disk(2, map[], [map[k := a], map[k := b]], {0, 1}, map[], []);
    var d1 := Step(0, d, Commit(1, NO_SWEEP, {k}, 0));
    assert d1.inflight == {0} && d1.bucket == map[k := Cell(b, 1)];
    var d2 := Step(0, d1, Commit(0, NO_SWEEP, {k}, 0));
    assert d2.inflight == {} && d2.bucket == map[k := Cell(a, 0)];
  }

  // ---------------------------------------------------------------------------
  // Every copy is a write
  // ---------------------------------------------------------------------------

  /** The write `r` of key `k` was accepted at some point of the run. */
  ghost predicate Written(minTTL: int, es: seq<Event>, k: Key, r: Rec) {
    exists j :: 0 <= j < |es| && Accepts(minTTL, es[j], k)
             && r == Rec(es[j].value, es[j].now + es[j].ttl, Writes(minTTL, es[..j]))
  }

  ghost predicate AllWritten(minTTL: int, es: seq<Event>, m: map<Key, Rec>, k: Key) {
    k in m ==> Written(minTTL, es, k, m[k])
  }

  ghost predicate Honest(minTTL: int, es: seq<Event>, d: Disk, k: Key) {
    AllWritten(minTTL, es, d.buf, k)
    && forall i :: 0 <= i < |d.swapped| ==> AllWritten(minTTL, es, d.swapped[i], k)
  }

  lemma {:induction false} WrittenGrows(minTTL: int, es: seq<Event>, e: Event, k: Key, r: Rec)
    requires Written(minTTL, es, k, r)
    ensures Written(minTTL, es + [e], k, r)
  {
    var j :| 0 <= j < |es| && Accepts(minTTL, es[j], k)
          && r == Rec(es[j].value, es[j].now + es[j].ttl, Writes(minTTL, es[..j]));
    assert (es + [e])[j] == es[j] && (es + [e])[..j] == es[..j];
  }

  lemma {:induction false} HonestGrows(minTTL: int, es: seq<Event>, e: Event, d: Disk, k: Key)
    requires Honest(minTTL, es, d, k)
    ensures Honest(minTTL, es + [e], d, k)
  {
    if k in d.buf { WrittenGrows(minTTL, es, e, k, d.buf[k]); }
    forall i | 0 <= i < |d.swapped| ensures AllWritten(minTTL, es + [e], d.swapped[i], k) {
      if k in d.swapped[i] { WrittenGrows(minTTL, es, e, k, d.swapped[i][k]); }
    }
  }

  lemma {:induction false} AcceptedIsWritten(minTTL: int, es: seq<Event>, e: Event, k: Key)
    requires Accepts(minTTL, e, k)
    ensures Written(minTTL, es + [e], k, Rec(e.value, e.now + e.ttl, Writes(minTTL, es)))
  {
    assert (es + [e])[|es|] == e && (es + [e])[..|es|] == es;
  }

  lemma {:induction false} HonestStep(minTTL: int, es: seq<Event>, d: Disk, e: Event, k: Key)
    requires Honest(minTTL, es, d, k) && d.writes == Writes(minTTL, es)
    ensures Honest(minTTL, es + [e], Step(minTTL, d, e), k)
  {
    HonestGrows(minTTL, es, e, d, k);
    if Accepts(minTTL, e, k) { AcceptedIsWritten(minTTL, es, e, k); }
  }

  lemma {:induction false} CopiesAreWrites(minTTL: int, es: seq<Event>, k: Key)
    ensures Honest(minTTL, es, Run(minTTL, es), k)
  {
    if es != [] {
      var before, e := es[..|es| - 1], es[|es| - 1];
      CopiesAreWrites(minTTL, before, k);
      assert es == before + [e];
      NewestCopyIsLatest(minTTL, before, k);
      HonestStep(minTTL, before, Run(minTTL, before), e, k);
    }
  }

  /** However flushes overlap, a read returns an accepted write of its key that has not expired. */
  lemma {:induction false} ReadsAreWritesAndFresh(minTTL: int, es: seq<Event>, k: Key, now: int)
    ensures var r := Read(Run(minTTL, es), k, now);
            r.Some? ==> Written(minTTL, es, k, r.value) && r.value.expiresAt > now
  {
    var d := Run(minTTL, es);
    CopiesAreWrites(minTTL, es, k);
    AlwaysSound(minTTL, es, k);
    if k in d.bucket { assert AllWritten(minTTL, es, d.swapped[d.bucket[k].batch], k); }
  }

  // ---------------------------------------------------------------------------
  // The cache as an object; its flush runs to completion
  // ---------------------------------------------------------------------------

  lemma {:induction false} PutOne(bucket: map<Key, Cell>, buf: map<Key, Rec>, b: nat, kept: set<Key>, k: Key)
    requires k in buf
    ensures Put(bucket, buf, b, kept)[k := Cell(buf[k], b)] == Put(bucket, buf, b, kept + {k})
  {
  }

  /** What a flush finds outside the cache: the keys its sweep scans and those it
      cannot read, the bytes in use after it, and how the encoder and the store
      take each entry. */
  datatype Transaction = Transaction(scan: seq<Key>, broken: set<Key>, now: int, inUse: int,
                                     size: Rec -> int, encodes: Rec -> bool, fails: Rec -> bool)

  function SweepOf(scan: seq<Key>, broken: set<Key>): Sweep {
    Sweep((set k | k in scan), broken)
  }

  ghost function Flushed(minTTL: int, d: Disk, tx: Transaction, ok: bool, kept: set<Key>): Disk {
    var b := |d.swapped|;
    Step(minTTL, Step(minTTL, d, Swap), if ok then Commit(b, SweepOf(tx.scan, tx.broken), kept, tx.now) else Fail(b))
  }

  class DiskTier {
    const minTTL: int
    const flushSize: int
    const maxBytes: int
    var writes: nat
    var flushes: nat
    var writeBuf: map<Key, Rec>
    var bucket: map<Key, Cell>
    var deletes: seq<Key>
    ghost var swapped: seq<map<Key, Rec>>

    ghost predicate Valid()
      reads this
    {
      |swapped| == flushes
    }

    ghost function View(): Disk
      reads this
    {
      Disk(writes, writeBuf, swapped, {}, bucket, deletes)
    }

    constructor (minTTL: int, flushSize: int, maxBytes: int)
      ensures Valid() && View() == EMPTY && this.minTTL == minTTL && this.maxBytes == maxBytes
      ensures this.flushSize == if flushSize == 0 then 100 else flushSize
    {
      this.minTTL, this.maxBytes := minTTL, maxBytes;
      this.flushSize := if flushSize == 0 then 100 else flushSize;
      writes, flushes, writeBuf, bucket, deletes, swapped := 0, 0, map[], map[], [], [];
    }

    /** Buffer an accepted entry, and flush when the buffer is full. */
    method SetEntry(k: Key, value: string, ttl: int, now: int, tx: Transaction) returns (ok: bool, kept: set<Key>)
      requires Valid()
      modifies this
      ensures Valid()
      ensures var d := Step(minTTL, old(View()), Set(k, value, ttl, now));
              View() == if Accepted(minTTL, ttl) && |d.buf| >= flushSize then Flushed(minTTL, d, tx, ok, kept) else d
    {
      ok, kept := true, {};
      if ttl <= 0 {
        return;
      }
      if minTTL > 0 && ttl < minTTL {
        return;
      }
      writeBuf := writeBuf[k := Rec(value, now + ttl, writes)];
      writes := writes + 1;
      if |writeBuf| >= flushSize {
        var bytes;
        ok, kept, bytes := Flush(tx);
      }
    }

    /** Swap the buffer out and commit it: exactly a swap step and its commit step,
        or a failing one. An entry is kept when it encodes and, at its turn, fits
        under the byte cap. */
    method Flush(tx: Transaction) returns (ok: bool, kept: set<Key>, bytes: int)
      requires Valid()
      modifies this
      ensures Valid() && View() == Flushed(minTTL, old(View()), tx, ok, kept)
      ensures kept <= old(writeBuf).Keys && forall k :: k in kept ==> tx.encodes(old(writeBuf)[k])
      ensures ok && maxBytes <= 0 ==> kept == set k | k in old(writeBuf) && tx.encodes(old(writeBuf)[k])
      ensures ok && maxBytes > 0 ==> bytes <= if kept == {} then tx.inUse else maxBytes
      ensures !ok ==> exists k :: k in old(writeBuf) && tx.fails(old(writeBuf)[k])
    {
      var buf, before := writeBuf, bucket;
      var b := flushes;
      swapped, flushes := swapped + [writeBuf], flushes + 1;
      writeBuf := map[];
      SweepExpired(tx.scan, tx.broken, tx.now);
      ok, kept, bytes := PutAll(buf, b, tx);
      if !ok {
        bucket := before;
      }
    }

    /** Put the entries of a batch in any order; stop at a failing put. */
    method PutAll(buf: map<Key, Rec>, b: nat, tx: Transaction) returns (ok: bool, kept: set<Key>, bytes: int)
      modifies this`bucket
      ensures ok ==> bucket == Put(old(bucket), buf, b, kept)
      ensures kept <= buf.Keys && forall k :: k in kept ==> tx.encodes(buf[k])
      ensures ok && maxBytes <= 0 ==> kept == set k | k in buf && tx.encodes(buf[k])
      ensures ok && maxBytes > 0 ==> bytes <= if kept == {} then tx.inUse else maxBytes
      ensures !ok ==> exists k :: k in buf && tx.fails(buf[k])
    {
      var todo := buf.Keys;
      ok, kept, bytes := true, {}, tx.inUse;
      while todo != {}
        invariant todo <= buf.Keys && kept <= buf.Keys
        invariant bucket == Put(old(bucket), buf, b, kept)
        invariant forall k :: k in kept ==> tx.encodes(buf[k])
        invariant maxBytes <= 0 ==> forall k :: k in buf && tx.encodes(buf[k]) ==> k in todo || k in kept
        invariant maxBytes > 0 ==> bytes <= if kept == {} then tx.inUse else maxBytes
        decreases todo
      {
        var k :| k in todo;
        todo := todo - {k};
        if !tx.encodes(buf[k]) {
          continue;
        }
        if maxBytes > 0 {
          var candidate := if k in bucket then bytes - tx.size(bucket[k].rec) else bytes;
          if candidate + tx.size(buf[k]) > maxBytes {
            continue;
          }
          bytes := candidate;
        }
        if tx.fails(buf[k]) {
          return false, kept, bytes;
        }
        PutOne(old(bucket), buf, b, kept, k);
        bucket := bucket[k := Cell(buf[k], b)];
        bytes := bytes + tx.size(buf[k]);
        kept := kept + {k};
      }
    }

    /** Delete the scanned entries that are unreadable or whose deadline has passed. */
    method SweepExpired(scan: seq<Key>, broken: set<Key>, now: int)
      modifies this`bucket
      ensures bucket == Swept(old(bucket), SweepOf(scan, broken), now)
    {
      var i := 0;
      while i < |scan|
        invariant 0 <= i <= |scan|
        invariant bucket == Swept(old(bucket), SweepOf(scan[..i], broken), now)
      {
        var k := scan[i];
        assert scan[..i + 1] == scan[..i] + [k];
        if k in bucket && (k in broken || bucket[k].rec.expiresAt <= now) {
          bucket := bucket - {k};
        }
        i := i + 1;
      }
      assert scan[..i] == scan;
    }

    method GetFresh(k: Key, now: int) returns (r: Option<Rec>)
      modifies this`deletes
      ensures r == Read(old(View()), k, now)
      ensures View() == if k in writeBuf then old(View()) else Step(minTTL, old(View()), Get(k, now))
    {
      if k in writeBuf {
        if writeBuf[k].expiresAt - now <= 0 {
          return None;
        }
        return Some(writeBuf[k]);
      }
      if k !in bucket {
        return None;
      }
      if bucket[k].rec.expiresAt - now <= 0 {
        deletes := deletes + [k];
        return None;
      }
      return Some(bucket[k].rec);
    }
  }
}
