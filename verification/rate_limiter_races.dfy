/** What a request that races the cleanup of idle buckets does: exactly when the
    deletion of buckets shows in the answers, and how much a client can gain. */
module RateLimiterRaces {
  import opened Wrappers
  import opened RateLimiter

  // ---------------------------------------------------------------------------
  // Bursts of requests at one instant
  // ---------------------------------------------------------------------------

  /** `n` requests of one client, one after the other, at one instant. */
  function Burst(t: nat, k: Client, now: real, n: nat): seq<Event> {
    if n == 0 then [] else [Load(t, k, now, now), Spend(t, now)] + Burst(t, k, now, n - 1)
  }

  function Times(now: real, n: nat): seq<real> {
    if n == 0 then [] else [now] + Times(now, n - 1)
  }

  function Yes(ds: seq<bool>): nat {
    if ds == [] then 0 else (if ds[0] then 1 else 0) + Yes(ds[1..])
  }

  lemma {:induction false} YesConcat(a: seq<bool>, b: seq<bool>)
    ensures Yes(a + b) == Yes(a) + Yes(b)
  {
    if a == [] {
      assert a + b == b;
    } else {
      assert (a + b)[1..] == a[1..] + b;
      YesConcat(a[1..], b);
    }
  }

  function Yeses(c: Config, evict: bool, s: Sys, es: seq<Event>): nat {
    Yes(Decisions(c, evict, s, es))
  }

  lemma {:induction false} YesesConcat(c: Config, evict: bool, s: Sys, a: seq<Event>, b: seq<Event>)
    ensures Yeses(c, evict, s, a + b) == Yeses(c, evict, s, a) + Yeses(c, evict, Run(c, evict, s, a), b)
    ensures Run(c, evict, s, a + b) == Run(c, evict, Run(c, evict, s, a), b)
  {
    RunConcat(c, evict, s, a, b);
    YesConcat(Decisions(c, evict, s, a), Decisions(c, evict, Run(c, evict, s, a), b));
  }

  lemma {:induction false} YesesOne(c: Config, evict: bool, s: Sys, e: Event)
    ensures Yeses(c, evict, s, [e]) == if Answer(c, s, e) then 1 else 0
    ensures Run(c, evict, s, [e]) == Step(c, evict, s, e)
  {
    var t := Step(c, evict, s, e);
    assert [e][1..] == [];
    assert Run(c, evict, t, []) == t;
    assert Decisions(c, evict, t, []) == [];
    assert Decisions(c, evict, s, [e]) == [Answer(c, s, e)];
    var ds := [Answer(c, s, e)];
    assert ds[1..] == [] && Yes([]) == 0;
    assert Yes(ds) == (if ds[0] then 1 else 0) + Yes(ds[1..]);
  }

  /** The bucket a request would spend from. */
  function Found(c: Config, s: Sys, k: Client, now: real): Bucket {
    if Has(s, k) then s.heap[s.clients[k]].bucket else Fresh(c, now)
  }

  /** A request that nothing interrupts is one request on its client's bucket. */
  lemma OneWholeRequest(c: Config, evict: bool, s: Sys, t: nat, k: Client, now: real)
    requires c.rate > 0.0 && Valid(c, s, now) && t !in s.flying
    ensures var s1 := Step(c, evict, s, Load(t, k, now, now));
            var s2 := Step(c, evict, s1, Spend(t, now));
            && Answer(c, s, Load(t, k, now, now))
            && Answer(c, s1, Spend(t, now)) == Admits(c, Found(c, s, k, now), now)
            && Valid(c, s2, now) && s2.flying == s.flying && s2.pending == s.pending
            && Has(s2, k) && Found(c, s2, k, now) == Spent(c, Found(c, s, k, now), now)
            && Flies(s1, t) && ClientOf(s1, t) == k && Current(s1, t) && s1.pending == s.pending
  {
    var s1 := Step(c, evict, s, Load(t, k, now, now));
    Loaded(c, s, t, k, now, now);
    StepValid(c, evict, s, Load(t, k, now, now), now);
    StepValid(c, evict, s1, Spend(t, now), now);
    assert s1.flying - {t} == s.flying;
    assert s1.heap[s1.flying[t]].bucket == Found(c, s, k, now);
    var s2 := Step(c, evict, s1, Spend(t, now));
    assert s2 == SpendStep(c, s1, t, now);
    assert s2.clients[k] == s1.flying[t];
  }

  /** A burst is a run on the client's bucket. */
  lemma {:induction false} BurstIsOneBucket(c: Config, evict: bool, s: Sys, t: nat, k: Client, now: real, n: nat)
    requires c.rate > 0.0 && Valid(c, s, now) && t !in s.flying
    ensures var es, s', b := Burst(t, k, now, n), Run(c, evict, s, Burst(t, k, now, n)), Found(c, s, k, now);
            && Yeses(c, evict, s, es) == n + Admitted(c, b, Times(now, n))
            && Valid(c, s', now) && s'.flying == s.flying && s'.pending == s.pending
            && (n > 0 ==> Has(s', k) && Found(c, s', k, now) == After(c, b, Times(now, n)))
    decreases n
  {
    if n > 0 {
      var es, ts := Burst(t, k, now, n), Times(now, n);
      var s1 := Step(c, evict, s, Load(t, k, now, now));
      var s2 := Step(c, evict, s1, Spend(t, now));
      OneWholeRequest(c, evict, s, t, k, now);
      BurstIsOneBucket(c, evict, s2, t, k, now, n - 1);
      BurstCons(c, evict, s, t, k, now, n);
      assert ts[1..] == Times(now, n - 1);
    }
  }

  lemma {:induction false} BurstCons(c: Config, evict: bool, s: Sys, t: nat, k: Client, now: real, n: nat)
    requires n > 0
    ensures var es, rest := Burst(t, k, now, n), Burst(t, k, now, n - 1);
            var load, spend := Load(t, k, now, now), Spend(t, now);
            var s1 := Step(c, evict, s, load);
            var s2 := Step(c, evict, s1, spend);
            && Run(c, evict, s, es) == Run(c, evict, s2, rest)
            && Yeses(c, evict, s, es) ==
                 (if Answer(c, s, load) then 1 else 0) + (if Answer(c, s1, spend) then 1 else 0)
                 + Yeses(c, evict, s2, rest)
  {
    var es, rest := Burst(t, k, now, n), Burst(t, k, now, n - 1);
    var load, spend := Load(t, k, now, now), Spend(t, now);
    var tail := [spend] + rest;
    assert es == [load] + tail && es[1..] == tail && tail[1..] == rest;
    var s1 := Step(c, evict, s, load);
    YesesConcat(c, evict, s, [load], tail);
    YesesOne(c, evict, s, load);
    YesesConcat(c, evict, s1, [spend], rest);
    YesesOne(c, evict, s1, spend);
  }

  lemma {:induction false} BurstTally(c: Config, s: Sys, t: nat, k: Client, now: real, n: nat)
    requires c.rate > 0.0 && Valid(c, s, now) && t !in s.flying
    ensures var es := Burst(t, k, now, n);
            && Tally(c, Taken, s, es, k) == Admitted(c, Found(c, s, k, now), Times(now, n))
            && (s.pending != Some(k) ==> RaceFree(c, s, es))
    decreases n
  {
    if n > 0 {
      var s1 := Step(c, true, s, Load(t, k, now, now));
      OneWholeRequest(c, true, s, t, k, now);
      BurstTally(c, Step(c, true, s1, Spend(t, now)), t, k, now, n - 1);
      BurstConsTally(c, s, t, k, now, n);
      assert Times(now, n)[1..] == Times(now, n - 1);
    }
  }

  lemma {:induction false} BurstConsTally(c: Config, s: Sys, t: nat, k: Client, now: real, n: nat)
    requires n > 0
    ensures var es, rest, spend := Burst(t, k, now, n), Burst(t, k, now, n - 1), Spend(t, now);
            var s1 := Step(c, true, s, Load(t, k, now, now));
            var s2 := Step(c, true, s1, spend);
            && Tally(c, Taken, s, es, k) ==
                 (if Counts(c, Taken, s1, spend, k) then 1 else 0) + Tally(c, Taken, s2, rest, k)
            && (RaceFree(c, s, es) <==> !Race(s1, spend) && RaceFree(c, s2, rest))
  {
    var load, tail := Load(t, k, now, now), [Spend(t, now)] + Burst(t, k, now, n - 1);
    assert Burst(t, k, now, n) == [load] + tail;
    TallyCons(c, s, load, tail, k);
    TallyCons(c, Step(c, true, s, load), Spend(t, now), Burst(t, k, now, n - 1), k);
  }

  lemma {:induction false} TallyCons(c: Config, s: Sys, e: Event, es: seq<Event>, k: Client)
    ensures Tally(c, Taken, s, [e] + es, k) ==
      (if Counts(c, Taken, s, e, k) then 1 else 0) + Tally(c, Taken, Step(c, true, s, e), es, k)
    ensures RaceFree(c, s, [e] + es) <==> !Race(s, e) && RaceFree(c, Step(c, true, s, e), es)
  {
    assert ([e] + es)[1..] == es;
  }

  lemma {:induction false} FullBucketAdmits(c: Config, b: Bucket, now: real, n: nat)
    requires n as real <= Refilled(c, b, now)
    ensures Admitted(c, b, Times(now, n)) == n
    ensures n > 0 ==> After(c, b, Times(now, n)) == Bucket(Refilled(c, b, now) - n as real, now)
    decreases n
  {
    if n > 0 {
      assert Times(now, n)[1..] == Times(now, n - 1);
      SpentLevel(c, b, now);
      FullBucketAdmits(c, Spent(c, b, now), now, n - 1);
    }
  }

  lemma {:induction false} AtMostAll(c: Config, b: Bucket, now: real, n: nat)
    ensures Admitted(c, b, Times(now, n)) <= n
    decreases n
  {
    if n > 0 {
      assert Times(now, n)[1..] == Times(now, n - 1);
      AtMostAll(c, Spent(c, b, now), now, n - 1);
    }
  }

  /** A bucket with fewer tokens than requests refuses one. */
  lemma {:induction false} ShortBucketRefuses(c: Config, b: Bucket, now: real, n: nat)
    requires Refilled(c, b, now) < n as real && n > 0
    ensures Admitted(c, b, Times(now, n)) < n
    decreases n
  {
    assert Times(now, n)[1..] == Times(now, n - 1);
    if Admits(c, b, now) {
      SpentLevel(c, b, now);
      ShortBucketRefuses(c, Spent(c, b, now), now, n - 1);
    } else {
      AtMostAll(c, Spent(c, b, now), now, n - 1);
    }
  }

  lemma {:induction false} TimedConcat(from: real, a: seq<Event>, b: seq<Event>, now: real)
    requires Timed(from, a) && Ends(a, now) && from <= now && Timed(now, b)
    ensures Timed(from, a + b)
    decreases |a|
  {
    if a == [] {
      assert a + b == b;
      if b != [] { assert from <= b[0].now; }
    } else {
      assert (a + b)[1..] == a[1..] + b;
      assert forall i :: 0 <= i < |a| - 1 ==> a[1..][i] == a[i + 1];
      TimedConcat(a[0].now, a[1..], b, now);
    }
  }

  lemma {:induction false} BurstTimed(t: nat, k: Client, now: real, n: nat)
    ensures Timed(now, Burst(t, k, now, n)) && Ends(Burst(t, k, now, n), now)
    decreases n
  {
    if n > 0 {
      var es := Burst(t, k, now, n);
      var tail := [Spend(t, now)] + Burst(t, k, now, n - 1);
      assert es[1..] == tail && tail[1..] == Burst(t, k, now, n - 1);
      BurstTimed(t, k, now, n - 1);
    }
  }

  // ---------------------------------------------------------------------------
  // Exactly when eviction shows
  // ---------------------------------------------------------------------------

  /** What a delete leads to: the pending delete runs, and a whole burst follows at once. */
  function Aftermath(c: Config, t: nat, k: Client, now: real): seq<Event>
    requires c.burst >= 0
  {
    [Delete(now)] + Burst(t, k, now, c.burst)
  }

  lemma {:induction false} AftermathTimed(c: Config, t: nat, k: Client, now: real)
    requires c.burst >= 0
    ensures Timed(now, Aftermath(c, t, k, now))
  {
    BurstTimed(t, k, now, c.burst);
    assert Aftermath(c, t, k, now)[1..] == Burst(t, k, now, c.burst);
  }

  /** The limiter that evicts admits the whole burst after a delete. */
  lemma {:induction false} EvictingAdmits(c: Config, s: Sys, t: nat, k: Client, now: real)
    requires c.rate > 0.0 && c.burst >= 1 && Valid(c, s, now) && t !in s.flying && s.pending == Some(k)
    ensures Yeses(c, true, s, Aftermath(c, t, k, now)) == 1 + c.burst + c.burst
    ensures Tally(c, Taken, s, Aftermath(c, t, k, now), k) == c.burst
    ensures RaceFree(c, s, Aftermath(c, t, k, now))
  {
    var s' := Step(c, true, s, Delete(now));
    var burst := Burst(t, k, now, c.burst);
    StepValid(c, true, s, Delete(now), now);
    YesesConcat(c, true, s, [Delete(now)], burst);
    YesesOne(c, true, s, Delete(now));
    TallyCons(c, s, Delete(now), burst, k);
    BurstIsOneBucket(c, true, s', t, k, now, c.burst);
    BurstTally(c, s', t, k, now, c.burst);
    FreshIsFull(c, now, now);
    FullBucketAdmits(c, Fresh(c, now), now, c.burst);
  }

  /** The limiter that keeps a bucket with less than a burst in it does not. */
  lemma {:induction false} KeepingRefuses(c: Config, s: Sys, t: nat, k: Client, now: real)
    requires c.rate > 0.0 && c.burst >= 1 && Valid(c, s, now) && t !in s.flying && Level(c, s, k, now) < c.burst as real
    ensures Yeses(c, false, s, Aftermath(c, t, k, now)) < 1 + c.burst + c.burst
  {
    var s' := Step(c, false, s, Delete(now));
    var burst := Burst(t, k, now, c.burst);
    StepValid(c, false, s, Delete(now), now);
    YesesConcat(c, false, s, [Delete(now)], burst);
    YesesOne(c, false, s, Delete(now));
    BurstIsOneBucket(c, false, s', t, k, now, c.burst);
    ShortBucketRefuses(c, Found(c, s, k, now), now, c.burst);
  }

  /** The answers to the run tell the two limiters apart. */
  ghost predicate Tells(c: Config, es: seq<Event>) {
    Decisions(c, true, EMPTY, es) != Decisions(c, false, EMPTY, es)
  }

  /** Both limiters said yes as often up to `es`, and not so after it. */
  lemma {:induction false} MoreTells(c: Config, es: seq<Event>, more: seq<Event>)
    requires Yeses(c, true, EMPTY, es) >= Yeses(c, false, EMPTY, es)
    requires Yeses(c, true, Run(c, true, EMPTY, es), more) > Yeses(c, false, Run(c, false, EMPTY, es), more)
    ensures Tells(c, es + more)
  {
    YesesConcat(c, true, EMPTY, es, more);
    YesesConcat(c, false, EMPTY, es, more);
  }

  lemma {:induction false} RunRelated(c: Config, kept: Sys, evicting: Sys, pre: seq<Event>, mid: seq<Event>, from: real)
    returns (at: real)
    requires c.rate > 0.0 && RefillsInTime(c)
    requires Related(c, kept, evicting, from) && Timed(from, pre + mid) && RaceFree(c, evicting, pre)
    ensures Related(c, Run(c, false, kept, pre), Run(c, true, evicting, pre), at) && Timed(at, mid)
    ensures Timed(from, pre)
    decreases |pre|
  {
    if pre == [] {
      assert pre + mid == mid;
      at := from;
    } else {
      assert (pre + mid)[1..] == pre[1..] + mid;
      StepRelated(c, kept, evicting, pre[0], from);
      at := RunRelated(c, Step(c, false, kept, pre[0]), Step(c, true, evicting, pre[0]), pre[1..], mid, pre[0].now);
    }
  }

  /** A burst of one request more than one limiter has tokens for. */
  lemma {:induction false} BurstTells(c: Config, kept: Sys, evicting: Sys, t: nat, k: Client, now: real, n: nat)
    requires c.rate > 0.0 && n > 0 && Valid(c, kept, now) && Valid(c, evicting, now)
    requires t !in kept.flying && t !in evicting.flying
    requires Level(c, kept, k, now) < n as real <= Level(c, evicting, k, now)
    ensures Yeses(c, true, evicting, Burst(t, k, now, n)) > Yeses(c, false, kept, Burst(t, k, now, n))
  {
    BurstIsOneBucket(c, true, evicting, t, k, now, n);
    BurstIsOneBucket(c, false, kept, t, k, now, n);
    FreshIsFull(c, now, now);
    FullBucketAdmits(c, Found(c, evicting, k, now), now, n);
    ShortBucketRefuses(c, Found(c, kept, k, now), now, n);
  }

  /** After a request between the test and the delete: the delete, and a burst. */
  lemma {:induction false} RaceBeforeDelete(c: Config, kept: Sys, evicting: Sys, t: nat, u: nat, k: Client, now: real)
    requires c.rate > 0.0 && c.burst >= 1 && Related(c, kept, evicting, now) && u !in evicting.flying
    requires Flies(evicting, t) && ClientOf(evicting, t) == k && Current(evicting, t) && evicting.pending == Some(k)
    ensures var kept', evicting' := Step(c, false, kept, Spend(t, now)), Step(c, true, evicting, Spend(t, now));
            && Answer(c, kept, Spend(t, now)) && Answer(c, evicting, Spend(t, now))
            && Yeses(c, true, evicting', Aftermath(c, u, k, now)) > Yeses(c, false, kept', Aftermath(c, u, k, now))
  {
    var e := Spend(t, now);
    var kept', evicting' := Step(c, false, kept, e), Step(c, true, evicting, e);
    assert Level(c, kept, k, now) == Level(c, evicting, k, now);
    StepValid(c, false, kept, e, now);
    StepValid(c, true, evicting, e, now);
    StepLevel(c, false, kept, e, k);
    EvictingAdmits(c, evicting', u, k, now);
    KeepingRefuses(c, kept', u, k, now);
  }

  function Whole(x: real): nat
    requires x >= 1.0
    ensures Whole(x) as real <= x < Whole(x) as real + 1.0 && Whole(x) >= 1
  {
    x.Floor
  }

  /** A request on a bucket that has been deleted: the answers differ, or a burst
      of as many requests as the client's new bucket has tokens for tells. */
  lemma {:induction false} RaceAfterDelete(c: Config, kept: Sys, evicting: Sys, t: nat, u: nat, k: Client, now: real)
    requires c.rate > 0.0 && c.burst >= 1 && Related(c, kept, evicting, now) && u !in evicting.flying
    requires Flies(evicting, t) && ClientOf(evicting, t) == k && !Current(evicting, t)
    ensures var kept', evicting' := Step(c, false, kept, Spend(t, now)), Step(c, true, evicting, Spend(t, now));
            var level := Level(c, evicting, k, now);
            && Answer(c, evicting, Spend(t, now)) && (Answer(c, kept, Spend(t, now)) <==> level >= 1.0)
            && (level >= 1.0 ==>
                  var burst := Burst(u, k, now, Whole(level));
                  Yeses(c, true, evicting', burst) > Yeses(c, false, kept', burst))
  {
    var e := Spend(t, now);
    var kept', evicting' := Step(c, false, kept, e), Step(c, true, evicting, e);
    assert Level(c, kept, k, now) == Level(c, evicting, k, now);
    StepValid(c, false, kept, e, now);
    StepValid(c, true, evicting, e, now);
    StepLevel(c, false, kept, e, k);
    StepLevel(c, true, evicting, e, k);
    if Level(c, evicting, k, now) >= 1.0 {
      BurstTells(c, kept', evicting', u, k, now, Whole(Level(c, evicting, k, now)));
    }
  }

  lemma {:induction false} OneMore(c: Config, evict: bool, es: seq<Event>, e: Event)
    ensures Run(c, evict, EMPTY, es + [e]) == Step(c, evict, Run(c, evict, EMPTY, es), e)
    ensures Yeses(c, evict, EMPTY, es + [e]) ==
      Yeses(c, evict, EMPTY, es) + if Answer(c, Run(c, evict, EMPTY, es), e) then 1 else 0
  {
    YesesConcat(c, evict, EMPTY, es, [e]);
    YesesOne(c, evict, Run(c, evict, EMPTY, es), e);
  }

  lemma {:induction false} EarlyRaceTells(c: Config, es: seq<Event>, t: nat, u: nat, k: Client, now: real)
    requires c.rate > 0.0 && c.burst >= 1 && Yeses(c, true, EMPTY, es) == Yeses(c, false, EMPTY, es)
    requires Related(c, Run(c, false, EMPTY, es), Run(c, true, EMPTY, es), now)
    requires var s := Run(c, true, EMPTY, es);
      u !in s.flying && Flies(s, t) && ClientOf(s, t) == k && Current(s, t) && s.pending == Some(k)
    ensures Tells(c, es + [Spend(t, now)] + Aftermath(c, u, k, now))
  {
    var e := Spend(t, now);
    OneMore(c, true, es, e);
    OneMore(c, false, es, e);
    RaceBeforeDelete(c, Run(c, false, EMPTY, es), Run(c, true, EMPTY, es), t, u, k, now);
    MoreTells(c, es + [e], Aftermath(c, u, k, now));
  }

  lemma {:induction false} LateRaceTells(c: Config, es: seq<Event>, t: nat, u: nat, k: Client, now: real)
    requires c.rate > 0.0 && c.burst >= 1 && Yeses(c, true, EMPTY, es) == Yeses(c, false, EMPTY, es)
    requires Related(c, Run(c, false, EMPTY, es), Run(c, true, EMPTY, es), now)
    requires var s := Run(c, true, EMPTY, es);
      u !in s.flying && Flies(s, t) && ClientOf(s, t) == k && !Current(s, t)
    ensures var level := Level(c, Run(c, true, EMPTY, es), k, now);
      Tells(c, es + [Spend(t, now)] + if level >= 1.0 then Burst(u, k, now, Whole(level)) else [])
  {
    var e := Spend(t, now);
    OneMore(c, true, es, e);
    OneMore(c, false, es, e);
    RaceAfterDelete(c, Run(c, false, EMPTY, es), Run(c, true, EMPTY, es), t, u, k, now);
    var level := Level(c, Run(c, true, EMPTY, es), k, now);
    if level >= 1.0 {
      MoreTells(c, es + [e], Burst(u, k, now, Whole(level)));
    } else {
      assert es + [e] + [] == es + [e];
    }
  }

  /** However a run without races went, the first request that races the cleanup
      makes a difference that shows, there or in requests at the same instant. */
  lemma {:induction false} EveryRaceShows(c: Config, es: seq<Event>, t: nat, u: nat, start: real, now: real)
    requires c.rate > 0.0 && RefillsInTime(c) && c.burst >= 1
    requires Timed(start, es + [Spend(t, now)]) && RaceFree(c, EMPTY, es)
    requires Race(Run(c, true, EMPTY, es), Spend(t, now)) && u !in Run(c, true, EMPTY, es).flying
    ensures exists more :: Timed(now, more) && Tells(c, es + [Spend(t, now)] + more)
  {
    var e, s := Spend(t, now), Run(c, true, EMPTY, es);
    var at := RunRelated(c, EMPTY, EMPTY, es, [e], start);
    Later(c, Run(c, false, EMPTY, es), s, at, now);
    SameDecisions(c, EMPTY, EMPTY, es, start);
    var k := ClientOf(s, t);
    var level := Level(c, s, k, now);
    var more := if Current(s, t) then Aftermath(c, u, k, now)
                else if level >= 1.0 then Burst(u, k, now, Whole(level)) else [];
    if Current(s, t) {
      EarlyRaceTells(c, es, t, u, k, now);
      AftermathTimed(c, u, k, now);
    } else {
      LateRaceTells(c, es, t, u, k, now);
      if level >= 1.0 { BurstTimed(u, k, now, Whole(level)); }
    }
    assert Timed(now, more) && Tells(c, es + [e] + more);
  }

  /** Some run tells the evicting limiter from the one that keeps all. */
  ghost predicate Visible(c: Config) {
    exists es, from :: Timed(from, es) && Tells(c, es)
  }

  ghost predicate VisibleWithoutRaces(c: Config) {
    exists es, from :: Timed(from, es) && RaceFree(c, EMPTY, es) && Tells(c, es)
  }

  lemma Between(c: Config) returns (at: real)
    requires c.rate > 0.0 && c.staleAfter * c.rate < c.burst as real
    ensures at > c.staleAfter && at * c.rate < c.burst as real
  {
    var top := c.burst as real / c.rate;
    assert top * c.rate == c.burst as real;
    if c.staleAfter >= top {
      Grows(c, top, c.staleAfter);
      InflowIs(c, top, c.staleAfter);
      assert false;
    }
    at := (c.staleAfter + top) / 2.0;
    Strictly(c.rate, at, top);
  }

  lemma Strictly(rate: real, a: real, b: real)
    requires rate > 0.0 && a < b
    ensures a * rate < b * rate
  {
    Positive(b - a, rate);
    assert (b - a) * rate == b * rate - a * rate;
  }

  lemma Positive(x: real, y: real)
    requires x > 0.0 && y > 0.0
    ensures x * y > 0.0
  {
  }

  /** A drained bucket that tests stale. */
  lemma {:induction false} DrainedAndStale(c: Config, evict: bool, k: Client, at: real)
    requires c.rate > 0.0 && c.burst >= 1 && at > c.staleAfter >= 0.0
    ensures var es := Burst(0, k, 0.0, c.burst) + [Test(k, at, at)];
            var s := Run(c, evict, EMPTY, es);
            && Yeses(c, evict, EMPTY, es) == c.burst + c.burst + 1
            && Valid(c, s, at) && s.flying == map[] && s.pending == Some(k)
            && Has(s, k) && Found(c, s, k, at) == Bucket(0.0, 0.0)
            && (evict ==> RaceFree(c, EMPTY, es))
  {
    var burst := Burst(0, k, 0.0, c.burst);
    BurstIsOneBucket(c, evict, EMPTY, 0, k, 0.0, c.burst);
    FreshIsFull(c, 0.0, 0.0);
    FullBucketAdmits(c, Fresh(c, 0.0), 0.0, c.burst);
    var s := Run(c, evict, EMPTY, burst);
    YesesConcat(c, evict, EMPTY, burst, [Test(k, at, at)]);
    YesesOne(c, evict, s, Test(k, at, at));
    StepValid(c, evict, s, Test(k, at, at), 0.0);
    if evict {
      BurstTally(c, EMPTY, 0, k, 0.0, c.burst);
      RaceFreeConcat(c, EMPTY, burst, [Test(k, at, at)]);
    }
  }

  lemma SlowRefillShows(c: Config, k: Client)
    requires c.rate > 0.0 && c.staleAfter >= 0.0 && c.staleAfter * c.rate < c.burst as real && c.burst >= 1
    ensures VisibleWithoutRaces(c)
  {
    var at := Between(c);
    var es := Burst(0, k, 0.0, c.burst) + [Test(k, at, at)];
    DrainedAndStale(c, true, k, at);
    DrainedAndStale(c, false, k, at);
    EvictingAdmits(c, Run(c, true, EMPTY, es), 0, k, at);
    assert 0.0 * c.rate == 0.0;
    KeepingRefuses(c, Run(c, false, EMPTY, es), 0, k, at);
    MoreTells(c, es, Aftermath(c, 0, k, at));
    RaceFreeConcat(c, EMPTY, es, Aftermath(c, 0, k, at));
    BurstTimed(0, k, 0.0, c.burst);
    TimedConcat(0.0, Burst(0, k, 0.0, c.burst), [Test(k, at, at)], at);
    AftermathTimed(c, 0, k, at);
    TimedConcat(0.0, es, Aftermath(c, 0, k, at), at);
    assert Timed(0.0, es + Aftermath(c, 0, k, at));
  }

  /** A bucket that was made and not used, and has just tested stale. */
  function Idle(k: Client, at: real): seq<Event> {
    [Load(1, k, 0.0, 0.0)] + [Test(k, at, at)]
  }

  lemma {:induction false} IdleAndStale(c: Config, evict: bool, k: Client, at: real)
    requires c.rate > 0.0 && at > c.staleAfter >= 0.0
    ensures var s := Run(c, evict, EMPTY, Idle(k, at));
            && Yeses(c, evict, EMPTY, Idle(k, at)) == 2
            && Valid(c, s, at) && 0 !in s.flying && s.pending == Some(k)
            && Has(s, k) && Found(c, s, k, at) == Fresh(c, 0.0)
    ensures Timed(0.0, Idle(k, at)) && Ends(Idle(k, at), at)
  {
    var load, test := Load(1, k, 0.0, 0.0), Test(k, at, at);
    YesesConcat(c, evict, EMPTY, [load], [test]);
    YesesOne(c, evict, EMPTY, load);
    var s := Step(c, evict, EMPTY, load);
    YesesOne(c, evict, s, test);
    StepValid(c, evict, EMPTY, load, 0.0);
    StepValid(c, evict, s, test, 0.0);
    assert Idle(k, at)[1..] == [test] && [test][1..] == [];
  }

  /** A burst between the test and the delete drains the bucket. */
  lemma {:induction false} DrainedInBetween(c: Config, evict: bool, k: Client, at: real)
    requires c.rate > 0.0 && c.burst >= 1 && at > c.staleAfter >= 0.0
    ensures var burst, s := Burst(0, k, at, c.burst), Run(c, evict, EMPTY, Idle(k, at));
            var s' := Run(c, evict, s, burst);
            && Yeses(c, evict, s, burst) == c.burst + c.burst
            && (evict ==> Tally(c, Taken, s, burst, k) == c.burst)
            && Valid(c, s', at) && 0 !in s'.flying && s'.pending == Some(k)
            && Has(s', k) && Found(c, s', k, at) == Bucket(0.0, at)
  {
    IdleAndStale(c, evict, k, at);
    var s := Run(c, evict, EMPTY, Idle(k, at));
    BurstIsOneBucket(c, evict, s, 0, k, at, c.burst);
    if evict { BurstTally(c, s, 0, k, at, c.burst); }
    FreshIsFull(c, 0.0, at);
    FullBucketAdmits(c, Fresh(c, 0.0), at, c.burst);
  }

  lemma {:induction false} TallyConcat(c: Config, s: Sys, a: seq<Event>, b: seq<Event>, k: Client)
    ensures Tally(c, Taken, s, a + b, k) == Tally(c, Taken, s, a, k) + Tally(c, Taken, Run(c, true, s, a), b, k)
    decreases |a|
  {
    if a == [] {
      assert a + b == b;
    } else {
      assert (a + b)[1..] == a[1..] + b;
      TallyConcat(c, Step(c, true, s, a[0]), a[1..], b, k);
    }
  }

  /** Under every setting a client can be admitted two whole bursts at one
      instant: one between the test and the delete of its idle bucket, one after. */
  lemma {:induction false} TwoBurstsAtOnce(c: Config, k: Client, at: real)
    requires c.rate > 0.0 && c.burst >= 1 && at > c.staleAfter >= 0.0
    ensures var mid := Burst(0, k, at, c.burst) + Aftermath(c, 0, k, at);
            && Timed(0.0, Idle(k, at) + mid) && Timed(at, mid) && Ends(mid, at)
            && Tally(c, Taken, Run(c, true, EMPTY, Idle(k, at)), mid, k) == 2 * c.burst
  {
    var s := Run(c, true, EMPTY, Idle(k, at));
    var burst, after := Burst(0, k, at, c.burst), Aftermath(c, 0, k, at);
    IdleAndStale(c, true, k, at);
    DrainedInBetween(c, true, k, at);
    TallyConcat(c, s, burst, after, k);
    EvictingAdmits(c, Run(c, true, s, burst), 0, k, at);
    BurstTimed(0, k, at, c.burst);
    AftermathTimed(c, 0, k, at);
    TimedConcat(at, burst, after, at);
    TimedConcat(0.0, Idle(k, at), burst + after, at);
  }

  lemma {:induction false} DrainedRun(c: Config, evict: bool, k: Client, at: real)
    requires c.rate > 0.0 && c.burst >= 1 && at > c.staleAfter >= 0.0
    ensures var es := Idle(k, at) + Burst(0, k, at, c.burst);
            var s := Run(c, evict, EMPTY, es);
            && Yeses(c, evict, EMPTY, es) == 2 + c.burst + c.burst
            && Valid(c, s, at) && 0 !in s.flying && s.pending == Some(k)
            && Has(s, k) && Found(c, s, k, at) == Bucket(0.0, at)
  {
    DrainedInBetween(c, evict, k, at);
    IdleAndStale(c, evict, k, at);
    YesesConcat(c, evict, EMPTY, Idle(k, at), Burst(0, k, at, c.burst));
  }

  lemma {:induction false} RaceShows(c: Config, k: Client, at: real)
    requires c.rate > 0.0 && c.burst >= 1 && at > c.staleAfter >= 0.0
    ensures Tells(c, Idle(k, at) + Burst(0, k, at, c.burst) + Aftermath(c, 0, k, at))
  {
    var es := Idle(k, at) + Burst(0, k, at, c.burst);
    DrainedRun(c, true, k, at);
    DrainedRun(c, false, k, at);
    EvictingAdmits(c, Run(c, true, EMPTY, es), 0, k, at);
    assert Inflow(c, at, at) == 0.0;
    KeepingRefuses(c, Run(c, false, EMPTY, es), 0, k, at);
    MoreTells(c, es, Aftermath(c, 0, k, at));
  }

  lemma RaceIsVisible(c: Config, k: Client)
    requires c.rate > 0.0 && c.staleAfter >= 0.0 && c.burst >= 1
    ensures Visible(c)
  {
    var at := c.staleAfter + 1.0;
    var idle, burst, after := Idle(k, at), Burst(0, k, at, c.burst), Aftermath(c, 0, k, at);
    RaceShows(c, k, at);
    TwoBurstsAtOnce(c, k, at);
    assert idle + burst + after == idle + (burst + after);
    assert Timed(0.0, idle + burst + after);
  }

  lemma NoToken(c: Config, kept: Sys, evicting: Sys, e: Event)
    requires c.rate > 0.0 && c.burst < 1 && Alike(kept, evicting)
    ensures Answer(c, kept, e) == Answer(c, evicting, e)
  {
  }

  /** Without a token to spend both limiters refuse everything. */
  lemma {:induction false} NothingToSpend(c: Config, kept: Sys, evicting: Sys, es: seq<Event>, from: real)
    requires c.rate > 0.0 && c.burst < 1 && Timed(from, es)
    requires Valid(c, kept, from) && Valid(c, evicting, from) && Alike(kept, evicting)
    ensures Decisions(c, true, evicting, es) == Decisions(c, false, kept, es)
    decreases |es|
  {
    if es != [] {
      var e := es[0];
      StepValid(c, false, kept, e, from);
      StepValid(c, true, evicting, e, from);
      ValidLater(c, kept, from, e.now);
      ValidLater(c, evicting, from, e.now);
      AlikeStep(c, kept, evicting, e);
      NoToken(c, kept, evicting, e);
      NothingToSpend(c, Step(c, false, kept, e), Step(c, true, evicting, e), es[1..], e.now);
    }
  }

  lemma ValidLater(c: Config, s: Sys, from: real, to: real)
    requires Valid(c, s, from) && from <= to
    ensures Valid(c, s, to)
  {
  }

  /** Without races, deleting idle buckets shows exactly when a bucket does not
      refill while it goes stale; with them, exactly when there is a token to spend. */
  lemma EvictionShowsExactly(c: Config)
    requires c.rate > 0.0 && c.staleAfter >= 0.0
    ensures VisibleWithoutRaces(c) <==> c.staleAfter * c.rate < c.burst as real
    ensures Visible(c) <==> c.burst >= 1
  {
    if c.staleAfter * c.rate < c.burst as real {
      Product(c.staleAfter, c.rate);
      SlowRefillShows(c, "client");
    } else if VisibleWithoutRaces(c) {
      var es, from :| Timed(from, es) && RaceFree(c, EMPTY, es) && Tells(c, es);
      SameDecisions(c, EMPTY, EMPTY, es, from);
    }
    if c.burst >= 1 {
      RaceIsVisible(c, "client");
    } else if Visible(c) {
      var es, from :| Timed(from, es) && Tells(c, es);
      NothingToSpend(c, EMPTY, EMPTY, es, from);
    }
  }

  // ---------------------------------------------------------------------------
  // Late requests count one by one
  // ---------------------------------------------------------------------------

  const SLOW := Config(1.0, 1, 1.0)

  /** Two requests have looked an idle bucket up when it is deleted. */
  const DELETED := Sys(map[], [Made("k", Bucket(1.0, 0.0))], map[1 := 0, 2 := 0], None, false)

  const DELETING := [Load(1, "k", 0.0, 0.0), Load(2, "k", 0.0, 0.0), Test("k", 2.0, 2.0), Delete(2.0)]

  lemma DeletedIsReached()
    ensures Timed(0.0, DELETING) && Run(SLOW, true, EMPTY, DELETING) == DELETED
  {
    var e1, e2, e3, e4 := Load(1, "k", 0.0, 0.0), Load(2, "k", 0.0, 0.0), Test("k", 2.0, 2.0), Delete(2.0);
    var pre := [e1, e2, e3, e4];
    assert pre[1..] == [e2, e3, e4] && [e2, e3, e4][1..] == [e3, e4] && [e3, e4][1..] == [e4] && [e4][1..] == [];
    var s1 := Step(SLOW, true, EMPTY, e1);
    var s2 := Step(SLOW, true, s1, e2);
    var s3 := Step(SLOW, true, s2, e3);
    var s4 := Step(SLOW, true, s3, e4);
    assert s2.heap == [Made("k", Bucket(1.0, 0.0))] && s2.flying == map[1 := 0, 2 := 0];
    assert s3.pending == Some("k");
    assert s4 == DELETED;
  }

  /** The new bucket, and both buckets after a second, and after two. */
  const RESTARTED := Sys(map["k" := 1], [Made("k", Bucket(1.0, 0.0)), Made("k", Bucket(1.0, 2.0))], map[1 := 0,
      2 := 0, 3 := 1], None, false)
  const EMPTIED := Sys(map["k" := 1], [Made("k", Bucket(0.0, 2.0)), Made("k", Bucket(0.0, 2.0))], map[2 := 0],
      None, false)
  const AGAIN := EMPTIED.(flying := map[2 := 0, 4 := 1])

  lemma TakenAtOnce(s: Sys, t: nat, u: nat, now: real, rest: seq<Event>)
    requires Flies(s, t) && Flies(s, u) && t != u && s.flying[t] != s.flying[u]
    requires ClientOf(s, t) == "k" == ClientOf(s, u)
    requires Admits(SLOW, s.heap[s.flying[t]].bucket, now) && Admits(SLOW, s.heap[s.flying[u]].bucket, now)
    ensures var s' := Step(SLOW, true, Step(SLOW, true, s, Spend(t, now)), Spend(u, now));
            Tally(SLOW, Taken, s, [Spend(t, now)] + ([Spend(u, now)] + rest), "k") ==
              2 + Tally(SLOW, Taken, s', rest, "k")
  {
    TallyCons(SLOW, s, Spend(t, now), [Spend(u, now)] + rest, "k");
    TallyCons(SLOW, Step(SLOW, true, s, Spend(t, now)), Spend(u, now), rest, "k");
  }

  lemma FirstSecond()
    ensures Step(SLOW, true, DELETED, Load(3, "k", 2.0, 2.0)) == RESTARTED
    ensures Step(SLOW, true, Step(SLOW, true, RESTARTED, Spend(1, 2.0)), Spend(3, 2.0)) == EMPTIED
    ensures Step(SLOW, true, EMPTIED, Load(4, "k", 3.0, 3.0)) == AGAIN
  {
    assert Spent(SLOW, Bucket(1.0, 0.0), 2.0) == Bucket(0.0, 2.0) == Spent(SLOW, Bucket(1.0, 2.0), 2.0);
    var s := Step(SLOW, true, RESTARTED, Spend(1, 2.0));
    assert s.flying == map[2 := 0, 3 := 1] && s.heap == [Made("k", Bucket(0.0, 2.0)), Made("k", Bucket(1.0, 2.0))];
    assert s.flying - {3} == map[2 := 0];
  }

  function LateSecond(): seq<Event> {
    [Spend(2, 3.0)] + ([Spend(4, 3.0)] + [])
  }

  function LateRun(): seq<Event> {
    [Load(3, "k", 2.0, 2.0)] + ([Spend(1, 2.0)] + ([Spend(3, 2.0)] + ([Load(4, "k", 3.0, 3.0)] + LateSecond())))
  }

  lemma LateRunTimed()
    ensures Timed(2.0, LateRun()) && Ends(LateRun(), 3.0)
  {
    TimedOne(3.0, Spend(4, 3.0), []);
    TimedOne(3.0, Spend(2, 3.0), [Spend(4, 3.0)] + []);
    TimedOne(2.0, Load(4, "k", 3.0, 3.0), LateSecond());
    TimedOne(2.0, Spend(3, 2.0), [Load(4, "k", 3.0, 3.0)] + LateSecond());
    TimedOne(2.0, Spend(1, 2.0), [Spend(3, 2.0)] + ([Load(4, "k", 3.0, 3.0)] + LateSecond()));
    TimedOne(2.0, Load(3, "k", 2.0, 2.0),
             [Spend(1, 2.0)] + ([Spend(3, 2.0)] + ([Load(4, "k", 3.0, 3.0)] + LateSecond())));
  }

  lemma {:induction false} TimedOne(from: real, e: Event, es: seq<Event>)
    requires from <= e.now && EventOk(e) && Timed(e.now, es)
    ensures Timed(from, [e] + es)
  {
    assert ([e] + es)[1..] == es;
  }

  lemma {:induction false} TwoAtTwo(rest: seq<Event>)
    ensures Tally(SLOW, Taken, RESTARTED, [Spend(1, 2.0)] + ([Spend(3, 2.0)] + rest), "k") ==
      2 + Tally(SLOW, Taken, EMPTIED, rest, "k")
  {
    FirstSecond();
    TakenAtOnce(RESTARTED, 1, 3, 2.0, rest);
  }

  lemma TwoAtThree()
    ensures Tally(SLOW, Taken, AGAIN, LateSecond(), "k") == 2
  {
    BothFull(AGAIN);
    TakenAtOnce(AGAIN, 2, 4, 3.0, []);
  }

  /** After a second both buckets have a token again. */
  lemma BothFull(s: Sys)
    requires s == AGAIN
    ensures Flies(s, 2) && Flies(s, 4) && s.flying[2] == 0 && s.flying[4] == 1
    ensures ClientOf(s, 2) == "k" == ClientOf(s, 4)
    ensures Admits(SLOW, s.heap[0].bucket, 3.0) && Admits(SLOW, s.heap[1].bucket, 3.0)
  {
    assert Refilled(SLOW, Bucket(0.0, 2.0), 3.0) == 1.0;
  }

  lemma {:induction false} LoadTally(s: Sys, t: nat, now: real, rest: seq<Event>)
    ensures Tally(SLOW, Taken, s, [Load(t, "k", now, now)] + rest, "k") ==
      Tally(SLOW, Taken, Step(SLOW, true, s, Load(t, "k", now, now)), rest, "k")
  {
    TallyCons(SLOW, s, Load(t, "k", now, now), rest, "k");
  }

  lemma FourInASecond()
    ensures Tally(SLOW, Taken, DELETED, LateRun(), "k") == 4
  {
    FirstSecond();
    var rest := [Load(4, "k", 3.0, 3.0)] + LateSecond();
    LoadTally(DELETED, 3, 2.0, [Spend(1, 2.0)] + ([Spend(3, 2.0)] + rest));
    TwoAtTwo(rest);
    LoadTally(EMPTIED, 4, 3.0, LateSecond());
    TwoAtThree();
  }

  /** One more burst for a raced delete does not cover the requests that still
      spend from the old bucket, which refills beside the new one: with a rate and
      a burst of one, two late requests make it four in a second. */
  lemma OneBurstPerDeleteIsNotEnough()
    ensures Timed(0.0, DELETING) && Timed(2.0, LateRun()) && Ends(LateRun(), 3.0)
    ensures Tally(SLOW, Taken, Run(SLOW, true, EMPTY, DELETING), LateRun(), "k") == 4
    ensures 4.0 > Bursts(SLOW, 2) + (3.0 - 2.0) * SLOW.rate
  {
    DeletedIsReached();
    LateRunTimed();
    FourInASecond();
    BurstsIs(SLOW, 2);
  }
}
