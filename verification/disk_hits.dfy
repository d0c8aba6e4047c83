/** When a read of the on-disk tier hits, and with what, told from the events
    alone: which write was buffered, which flush took it, which commit kept it,
    and what was put or deleted since. */
module DiskHits {
  import opened CacheKeys
  import opened Wrappers
  import opened DiskCache

  // ---------------------------------------------------------------------------
  // The history of a copy
  // ---------------------------------------------------------------------------

  /** The number of flushes begun. */
  function Swaps(es: seq<Event>): nat {
    if es == [] then 0 else Swaps(es[..|es| - 1]) + if es[|es| - 1].Swap? then 1 else 0
  }

  /** The write that an accepted `Set` makes. */
  function RecAt(minTTL: int, es: seq<Event>, i: nat): Rec
    requires i < |es| && es[i].Set?
  {
    Rec(es[i].value, es[i].now + es[i].ttl, Writes(minTTL, es[..i]))
  }

  /** Event `i` is the last accepted write of the key, and no flush has begun since. */
  ghost predicate Buffered(minTTL: int, es: seq<Event>, k: Key, i: nat) {
    && i < |es| && Accepts(minTTL, es[i], k)
    && forall j :: i < j < |es| ==> !es[j].Swap? && !Accepts(minTTL, es[j], k)
  }

  /** The event ends flush `b`, by a commit or a failure. */
  predicate Outcome(e: Event, b: nat) {
    (e.Commit? || e.Fail?) && e.b == b
  }

  /** The flush begun by event `s` has had no outcome. */
  ghost predicate Open(es: seq<Event>, s: nat) {
    && s < |es| && es[s].Swap?
    && forall j :: s < j < |es| ==> !Outcome(es[j], Swaps(es[..s]))
  }

  /** Event `c` is the commit of a flush that is still open then. */
  ghost predicate Commits(es: seq<Event>, c: nat) {
    c < |es| && es[c].Commit? && exists s: nat :: Open(es[..c], s) && es[c].b == Swaps(es[..s])
  }

  /** The write of event `i` was taken by the flush begun at `s` and kept by its commit `c`. */
  ghost predicate Flushed(minTTL: int, es: seq<Event>, k: Key, i: nat, s: nat, c: nat) {
    && c < |es| && es[c].Commit? && k in es[c].kept
    && Open(es[..c], s) && es[c].b == Swaps(es[..s])
    && Buffered(minTTL, es[..s], k, i)
  }

  ghost predicate PutAgain(minTTL: int, es: seq<Event>, k: Key, c: nat) {
    exists i: nat, s: nat :: Flushed(minTTL, es, k, i, s, c)
  }

  /** Event `j` runs a scheduled delete of the key. */
  predicate DeletesKey(minTTL: int, es: seq<Event>, j: nat, k: Key)
    requires j < |es|
  {
    es[j].LateDelete? && es[j].j < |Run(minTTL, es[..j]).deletes| && Run(minTTL, es[..j]).deletes[es[j].j] == k
  }

  /** The sweep of commit `j` comes across the key, and cannot read it or finds it
      at or after its deadline. */
  ghost predicate SweepsKey(es: seq<Event>, j: nat, k: Key, deadline: int)
    requires j < |es|
  {
    Commits(es, j) && k in es[j].sweep.scanned && (k in es[j].sweep.broken || deadline <= es[j].now)
  }

  /** The write of event `i` reached the disk by commit `c`, and nothing has put,
      deleted or swept the key since. */
  ghost predicate Stored(minTTL: int, es: seq<Event>, k: Key, i: nat, s: nat, c: nat) {
    Flushed(minTTL, es, k, i, s, c) && QuietSince(minTTL, es, c, k, es[i].now + es[i].ttl)
  }

  ghost predicate QuietSince(minTTL: int, es: seq<Event>, c: nat, k: Key, deadline: int) {
    forall j: nat :: c < j < |es| ==> Quiet(minTTL, es, j, k, deadline)
  }

  /** Event `j` does not put, delete or sweep the key. */
  ghost predicate Quiet(minTTL: int, es: seq<Event>, j: nat, k: Key, deadline: int)
    requires j < |es|
  {
    !PutAgain(minTTL, es, k, j) && !DeletesKey(minTTL, es, j, k) && !SweepsKey(es, j, k, deadline)
  }

  // ---------------------------------------------------------------------------
  // Prefixes
  // ---------------------------------------------------------------------------

  lemma {:induction false} OpenPrefix(es: seq<Event>, n: nat, c: nat, s: nat)
    requires c <= n <= |es|
    ensures Open(es[..n][..c], s) <==> Open(es[..c], s)
    ensures s < c && s < |es| ==> es[..n][..s] == es[..s]
  {
    assert es[..n][..c] == es[..c];
  }

  lemma {:induction false} CommitsPrefix(es: seq<Event>, n: nat, c: nat)
    requires c < n <= |es|
    ensures Commits(es[..n], c) <==> Commits(es, c)
  {
    assert es[..n][..c] == es[..c] && es[..n][c] == es[c];
    assert forall s: nat :: Open(es[..c], s) ==> es[..n][..s] == es[..s];
  }

  lemma {:induction false} FlushedPrefix(minTTL: int, es: seq<Event>, n: nat, k: Key, i: nat, s: nat, c: nat)
    requires c < n <= |es|
    ensures Flushed(minTTL, es[..n], k, i, s, c) <==> Flushed(minTTL, es, k, i, s, c)
  {
    assert es[..n][..c] == es[..c] && es[..n][c] == es[c];
    if s < c { assert es[..n][..s] == es[..s]; }
  }

  lemma {:induction false} PutAgainPrefix(minTTL: int, es: seq<Event>, n: nat, k: Key, c: nat)
    requires c < n <= |es|
    ensures PutAgain(minTTL, es[..n], k, c) <==> PutAgain(minTTL, es, k, c)
  {
    forall i: nat, s: nat
      ensures Flushed(minTTL, es[..n], k, i, s, c) <==> Flushed(minTTL, es, k, i, s, c)
    {
      FlushedPrefix(minTTL, es, n, k, i, s, c);
    }
  }

  lemma {:induction false} RemovalPrefix(minTTL: int, es: seq<Event>, n: nat, j: nat, k: Key, deadline: int)
    requires j < n <= |es|
    ensures DeletesKey(minTTL, es[..n], j, k) <==> DeletesKey(minTTL, es, j, k)
    ensures SweepsKey(es[..n], j, k, deadline) <==> SweepsKey(es, j, k, deadline)
  {
    assert es[..n][..j] == es[..j] && es[..n][j] == es[j];
    CommitsPrefix(es, n, j);
  }

  // ---------------------------------------------------------------------------
  // The buffer and the flushes
  // ---------------------------------------------------------------------------

  lemma {:induction false} BufferedIs(minTTL: int, es: seq<Event>, k: Key, i: nat)
    requires Buffered(minTTL, es, k, i)
    ensures k in Run(minTTL, es).buf && Run(minTTL, es).buf[k] == RecAt(minTTL, es, i)
  {
    var init, e := es[..|es| - 1], es[|es| - 1];
    if i == |init| {
      NewestCopyIsLatest(minTTL, init, k);
      assert es[..i] == init;
    } else {
      assert init[..i] == es[..i] && init[i] == es[i];
      BufferedIs(minTTL, init, k, i);
    }
  }

  lemma {:induction false} BufferIs(minTTL: int, es: seq<Event>, k: Key) returns (i: nat)
    requires k in Run(minTTL, es).buf
    ensures Buffered(minTTL, es, k, i)
  {
    var init, e := es[..|es| - 1], es[|es| - 1];
    if Accepts(minTTL, e, k) {
      i := |init|;
    } else {
      i := BufferIs(minTTL, init, k);
      assert forall j :: 0 <= j < |init| ==> init[j] == es[j];
    }
  }

  lemma {:induction false} SwapsAre(minTTL: int, es: seq<Event>)
    ensures |Run(minTTL, es).swapped| == Swaps(es)
    ensures forall b :: b in Run(minTTL, es).inflight ==> b < Swaps(es)
  {
    if es != [] { SwapsAre(minTTL, es[..|es| - 1]); }
  }

  lemma {:induction false} SwapsGrow(es: seq<Event>, n: nat)
    requires n <= |es|
    ensures Swaps(es[..n]) <= Swaps(es)
    ensures n < |es| && es[n].Swap? ==> Swaps(es[..n]) < Swaps(es)
  {
    if n < |es| {
      var init := es[..|es| - 1];
      assert init[..n] == es[..n];
      SwapsGrow(init, n);
      if n < |init| { assert init[n] == es[n]; } else { assert es[..n] == init; }
    } else {
      assert es[..n] == es;
    }
  }

  lemma {:induction false} OpenGrows(es: seq<Event>, s: nat)
    requires s < |es| - 1
    ensures var init, e := es[..|es| - 1], es[|es| - 1];
      Open(es, s) <==> Open(init, s) && !Outcome(e, Swaps(es[..s]))
  {
    var init := es[..|es| - 1];
    assert init[..s] == es[..s];
    assert forall j :: 0 <= j < |init| ==> init[j] == es[j];
  }

  /** What one event does to a flush that has begun. */
  lemma {:induction false} FlushStep(minTTL: int, d: Disk, e: Event, b: nat)
    requires b < |d.swapped|
    ensures var d' := Step(minTTL, d, e);
      b < |d'.swapped| && d'.swapped[b] == d.swapped[b] && (b in d'.inflight <==> b in d.inflight && !Outcome(e, b))
  {
  }

  /** A flush holds the buffer it swapped out, and is in flight until its outcome. */
  lemma {:induction false} FlushIs(minTTL: int, es: seq<Event>, s: nat)
    requires s < |es| && es[s].Swap?
    ensures var d, b := Run(minTTL, es), Swaps(es[..s]);
      b < |d.swapped| && d.swapped[b] == Run(minTTL, es[..s]).buf && (b in d.inflight <==> Open(es, s))
  {
    var init, e := es[..|es| - 1], es[|es| - 1];
    if s == |init| {
      SwapsAre(minTTL, init);
      assert es[..s] == init;
    } else {
      assert init[..s] == es[..s] && init[s] == es[s];
      FlushIs(minTTL, init, s);
      FlushStep(minTTL, Run(minTTL, init), e, Swaps(es[..s]));
      OpenGrows(es, s);
    }
  }

  lemma {:induction false} FlushOf(minTTL: int, es: seq<Event>, b: nat) returns (s: nat)
    requires b < Swaps(es)
    ensures s < |es| && es[s].Swap? && Swaps(es[..s]) == b
  {
    var init := es[..|es| - 1];
    if b == Swaps(init) {
      s := |init|;
      assert es[..s] == init;
    } else {
      s := FlushOf(minTTL, init, b);
      assert init[..s] == es[..s] && init[s] == es[s];
    }
  }

  /** A commit takes effect exactly if its flush is open. */
  lemma {:induction false} CommitsIs(minTTL: int, es: seq<Event>, c: nat)
    requires c < |es| && es[c].Commit?
    ensures Commits(es, c) <==> es[c].b in Run(minTTL, es[..c]).inflight
    ensures Commits(es, c) ==> es[c].b < |Run(minTTL, es[..c]).swapped|
  {
    var before := es[..c];
    SwapsAre(minTTL, before);
    if es[c].b in Run(minTTL, before).inflight {
      var s := FlushOf(minTTL, before, es[c].b);
      assert before[..s] == es[..s];
      FlushIs(minTTL, before, s);
    }
    if Commits(es, c) {
      var s: nat :| Open(before, s) && es[c].b == Swaps(es[..s]);
      assert before[..s] == es[..s];
      FlushIs(minTTL, before, s);
    }
  }

  /** A commit puts the key exactly if it keeps a write that its flush took. */
  lemma {:induction false} PutsIs(minTTL: int, es: seq<Event>, k: Key, c: nat)
    requires c < |es|
    ensures Puts(Run(minTTL, es[..c]), es[c], k) <==> PutAgain(minTTL, es, k, c)
  {
    var before := es[..c];
    if Puts(Run(minTTL, before), es[c], k) {
      SwapsAre(minTTL, before);
      var s := FlushOf(minTTL, before, es[c].b);
      assert before[..s] == es[..s];
      FlushIs(minTTL, before, s);
      var i := BufferIs(minTTL, es[..s], k);
      assert Flushed(minTTL, es, k, i, s, c);
    }
    if PutAgain(minTTL, es, k, c) {
      var i: nat, s: nat :| Flushed(minTTL, es, k, i, s, c);
      FlushedPuts(minTTL, es, k, i, s, c);
    }
  }

  lemma {:induction false} FlushedPuts(minTTL: int, es: seq<Event>, k: Key, i: nat, s: nat, c: nat)
    requires Flushed(minTTL, es, k, i, s, c)
    ensures var d := Run(minTTL, es[..c]);
      Puts(d, es[c], k) && d.swapped[es[c].b][k] == RecAt(minTTL, es, i)
  {
    assert es[..c][..s] == es[..s] && es[..s][..i] == es[..i];
    FlushIs(minTTL, es[..c], s);
    BufferedIs(minTTL, es[..s], k, i);
  }

  // ---------------------------------------------------------------------------
  // The bucket
  // ---------------------------------------------------------------------------

  /** What the last event does to the copy of a key that it does not put. */
  lemma {:induction false} LastEvent(minTTL: int, es: seq<Event>, k: Key)
    requires es != [] && !PutAgain(minTTL, es, k, |es| - 1)
    ensures var d, d', n := Run(minTTL, es[..|es| - 1]), Run(minTTL, es), |es| - 1;
      && (k in d'.bucket ==> k in d.bucket && d'.bucket[k] == d.bucket[k])
      && (k in d.bucket ==> (k in d'.bucket <==>
            !DeletesKey(minTTL, es, n, k) && !SweepsKey(es, n, k, d.bucket[k].rec.expiresAt)))
  {
    var n := |es| - 1;
    PutsIs(minTTL, es, k, n);
    if es[n].Commit? { CommitsIs(minTTL, es, n); }
  }

  lemma {:induction false} StoredIs(minTTL: int, es: seq<Event>, k: Key, i: nat, s: nat, c: nat)
    requires Stored(minTTL, es, k, i, s, c)
    ensures k in Run(minTTL, es).bucket && Run(minTTL, es).bucket[k].rec == RecAt(minTTL, es, i)
  {
    FlushedPuts(minTTL, es, k, i, s, c);
    if c < |es| - 1 {
      var n := |es| - 1;
      StoredPrefix(minTTL, es, k, i, s, c);
      StoredIs(minTTL, es[..n], k, i, s, c);
      assert es[..n][..i] == es[..i] && es[..n][i] == es[i];
      LastEvent(minTTL, es, k);
    }
  }

  lemma {:induction false} StoredPrefix(minTTL: int, es: seq<Event>, k: Key, i: nat, s: nat, c: nat)
    requires Flushed(minTTL, es, k, i, s, c) && c < |es| - 1
    ensures var n := |es| - 1;
      Stored(minTTL, es, k, i, s, c) <==>
        Stored(minTTL, es[..n], k, i, s, c) && Quiet(minTTL, es, n, k, es[i].now + es[i].ttl)
  {
    FlushedPrefix(minTTL, es, |es| - 1, k, i, s, c);
    assert es[..|es| - 1][i] == es[i];
    QuietPrefix(minTTL, es, c, k, es[i].now + es[i].ttl);
  }

  lemma {:induction false} QuietPrefix(minTTL: int, es: seq<Event>, c: nat, k: Key, deadline: int)
    requires c < |es| - 1
    ensures var n := |es| - 1;
      QuietSince(minTTL, es, c, k, deadline) <==>
        QuietSince(minTTL, es[..n], c, k, deadline) && Quiet(minTTL, es, n, k, deadline)
  {
    var n := |es| - 1;
    forall j: nat | j < n ensures Quiet(minTTL, es[..n], j, k, deadline) <==> Quiet(minTTL, es, j, k, deadline) {
      PutAgainPrefix(minTTL, es, n, k, j);
      RemovalPrefix(minTTL, es, n, j, k, deadline);
    }
  }

  lemma {:induction false} BucketIs(minTTL: int, es: seq<Event>, k: Key) returns (i: nat, s: nat, c: nat)
    requires k in Run(minTTL, es).bucket
    ensures Stored(minTTL, es, k, i, s, c)
  {
    var n := |es| - 1;
    if PutAgain(minTTL, es, k, n) {
      i, s :| Flushed(minTTL, es, k, i, s, n);
      c := n;
    } else {
      LastEvent(minTTL, es, k);
      i, s, c := BucketIs(minTTL, es[..n], k);
      StoredIs(minTTL, es[..n], k, i, s, c);
      FlushedPrefix(minTTL, es, n, k, i, s, c);
      assert es[..n][..i] == es[..i] && es[..n][i] == es[i];
      StoredPrefix(minTTL, es, k, i, s, c);
    }
  }

  /** A delete is scheduled only by a read that found the copy on disk, which had
      got there by commit `c`, at or after its deadline. */
  ghost predicate ScheduledBy(minTTL: int, es: seq<Event>, k: Key, g: nat) {
    && g < |es| && es[g].Get? && es[g].key == k
    && exists i: nat, s: nat, c: nat ::
         Stored(minTTL, es[..g], k, i, s, c) && es[i].now + es[i].ttl <= es[g].now
  }

  lemma {:induction false} DeletesAreOfExpired(minTTL: int, es: seq<Event>, j: nat) returns (g: nat)
    requires j < |Run(minTTL, es).deletes|
    ensures ScheduledBy(minTTL, es, Run(minTTL, es).deletes[j], g)
  {
    var init, e := es[..|es| - 1], es[|es| - 1];
    var d, k := Run(minTTL, init), Run(minTTL, es).deletes[j];
    if e.Get? && j == |d.deletes| {
      g := |init|;
      var i, s, c := BucketIs(minTTL, init, k);
      StoredIs(minTTL, init, k, i, s, c);
      assert es[..g] == init && init[i] == es[i];
    } else {
      var j' := if e.LateDelete? && e.j < |d.deletes| && e.j <= j then j + 1 else j;
      assert d.deletes[j'] == k;
      g := DeletesAreOfExpired(minTTL, init, j');
      assert init[..g] == es[..g] && init[g] == es[g];
      assert forall i :: 0 <= i < |init| ==> init[i] == es[i];
    }
  }

  /** A read that looks at the disk schedules a delete exactly when it finds such a copy. */
  lemma {:induction false} SchedulesExactly(minTTL: int, es: seq<Event>, k: Key, now: int)
    ensures var deletes := Run(minTTL, es).deletes;
      Run(minTTL, es + [Get(k, now)]).deletes ==
        if exists i: nat, s: nat, c: nat :: Stored(minTTL, es, k, i, s, c) && es[i].now + es[i].ttl <= now
        then deletes + [k] else deletes
  {
    RunSnoc(minTTL, es, Get(k, now));
    forall i: nat, s: nat, c: nat | Stored(minTTL, es, k, i, s, c)
      ensures k in Run(minTTL, es).bucket && Run(minTTL, es).bucket[k].rec == RecAt(minTTL, es, i)
    {
      StoredIs(minTTL, es, k, i, s, c);
    }
    if k in Run(minTTL, es).bucket { var i, s, c := BucketIs(minTTL, es, k); }
  }

  // ---------------------------------------------------------------------------
  // Exactly when a read hits
  // ---------------------------------------------------------------------------

  /** The write, unless its time is up. */
  function Unexpired(r: Rec, now: int): Option<Rec> {
    if now < r.expiresAt then Some(r) else None
  }

  /** A key that was written and not flushed since reads as that write until its
      deadline. Otherwise a write that reached the disk and was neither replaced,
      deleted nor swept there does. Nothing else hits. */
  lemma {:induction false} HitsExactly(minTTL: int, es: seq<Event>, k: Key, now: int)
    ensures forall i: nat :: Buffered(minTTL, es, k, i) ==>
      Read(Run(minTTL, es), k, now) == Unexpired(RecAt(minTTL, es, i), now)
    ensures (forall i: nat :: !Buffered(minTTL, es, k, i)) ==>
      forall i: nat, s: nat, c: nat :: Stored(minTTL, es, k, i, s, c) ==>
        Read(Run(minTTL, es), k, now) == Unexpired(RecAt(minTTL, es, i), now)
    ensures Read(Run(minTTL, es), k, now).Some? ==>
      (exists i: nat :: Buffered(minTTL, es, k, i))
      || (exists i: nat, s: nat, c: nat :: Stored(minTTL, es, k, i, s, c))
  {
    forall i: nat | Buffered(minTTL, es, k, i)
      ensures Read(Run(minTTL, es), k, now) == Unexpired(RecAt(minTTL, es, i), now)
    {
      BufferedIs(minTTL, es, k, i);
    }
    if k in Run(minTTL, es).buf {
      var i := BufferIs(minTTL, es, k);
    } else {
      forall i: nat, s: nat, c: nat | Stored(minTTL, es, k, i, s, c)
        ensures Read(Run(minTTL, es), k, now) == Unexpired(RecAt(minTTL, es, i), now)
      {
        StoredIs(minTTL, es, k, i, s, c);
      }
      if k in Run(minTTL, es).bucket {
        var i, s, c := BucketIs(minTTL, es, k);
      }
    }
  }
}
