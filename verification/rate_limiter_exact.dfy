/** When a request is refused: exactly when granting it would exceed the burst plus
    rate times length in some stretch of time that ends with it. */
module RateLimiterExact {
  import opened RateLimiter

  // ---------------------------------------------------------------------------
  // Histories
  // ---------------------------------------------------------------------------

  /** An instant, and whether a request was granted at it. */
  datatype Grant = Grant(now: real, yes: bool)

  /** The instants go up and stay within `to`. */
  predicate Sorted(h: seq<Grant>, to: real)
    decreases |h|
  {
    h == [] || (Last(h).now <= to && Sorted(Front(h), Last(h).now))
  }

  function Last(h: seq<Grant>): Grant
    requires h != []
  {
    h[|h| - 1]
  }

  function Front(h: seq<Grant>): seq<Grant>
    requires h != []
  {
    h[..|h| - 1]
  }

  /** How many were granted. */
  function Granted(h: seq<Grant>): nat
    decreases |h|
  {
    if h == [] then 0 else Granted(Front(h)) + if Last(h).yes then 1 else 0
  }

  /** One more grant keeps within the burst plus rate times length, counted from
      the i-th instant on. */
  predicate FitsFrom(c: Config, h: seq<Grant>, i: nat, now: real)
    requires i < |h|
  {
    (Granted(h[i..]) + 1) as real <= c.burst as real + (now - h[i].now) * c.rate
  }

  predicate Fits(c: Config, h: seq<Grant>, now: real) {
    c.burst >= 1 && forall i :: 0 <= i < |h| ==> FitsFrom(c, h, i, now)
  }

  /** What the grants leave of a bucket that was full before them. */
  function Left(c: Config, h: seq<Grant>, now: real): real
    decreases |h|
  {
    if h == [] then c.burst as real
    else Refilled(c, Bucket(Left(c, Front(h), Last(h).now) - Cost(Last(h).yes), Last(h).now), now)
  }

  // ---------------------------------------------------------------------------
  // What is left is the tightest of all stretches
  // ---------------------------------------------------------------------------

  function Room(c: Config, h: seq<Grant>, i: nat, now: real): real
    requires i < |h|
  {
    c.burst as real + Inflow(c, h[i].now, now) - Granted(h[i..]) as real
  }

  ghost predicate IsLeast(c: Config, h: seq<Grant>, now: real, v: real) {
    && v <= c.burst as real
    && (forall i :: 0 <= i < |h| ==> v <= Room(c, h, i, now))
    && (v == c.burst as real || exists i :: 0 <= i < |h| && v == Room(c, h, i, now))
  }

  lemma {:induction false} RoomSnoc(c: Config, h: seq<Grant>, i: nat)
    requires h != [] && i < |h|
    ensures Room(c, h, i, Last(h).now) ==
      (if i < |h| - 1 then Room(c, Front(h), i, Last(h).now) else c.burst as real) - Cost(Last(h).yes)
  {
    var tail := h[i..];
    assert Last(tail) == Last(h);
    if i < |h| - 1 {
      assert Front(tail) == Front(h)[i..];
    } else {
      assert Front(tail) == [] && h[i] == Last(h);
      assert Granted(Front(tail)) == 0;
      assert Inflow(c, Last(h).now, Last(h).now) == 0.0;
    }
  }

  lemma {:induction false} LeastSnoc(c: Config, h: seq<Grant>, v: real)
    requires h != [] && IsLeast(c, Front(h), Last(h).now, v)
    ensures IsLeast(c, h, Last(h).now, v - Cost(Last(h).yes))
  {
    var n, now := |h| - 1, Last(h).now;
    forall i | 0 <= i < |h| ensures v - Cost(Last(h).yes) <= Room(c, h, i, now) {
      RoomSnoc(c, h, i);
    }
    if v == c.burst as real {
      RoomSnoc(c, h, n);
    } else {
      var i :| 0 <= i < n && v == Room(c, Front(h), i, now);
      RoomSnoc(c, h, i);
    }
  }

  lemma {:induction false} LeastLater(c: Config, h: seq<Grant>, v: real, now: real, later: real)
    requires c.rate >= 0.0 && now <= later && IsLeast(c, h, now, v)
    ensures IsLeast(c, h, later, Refilled(c, Bucket(v, now), later))
  {
    Grows(c, now, later);
    forall i | 0 <= i < |h| ensures Room(c, h, i, later) == Room(c, h, i, now) + Inflow(c, now, later) {
      Splits(c, h[i].now, now, later);
    }
    if v != c.burst as real {
      var i :| 0 <= i < |h| && v == Room(c, h, i, now);
      assert Room(c, h, i, later) == v + Inflow(c, now, later);
    }
  }

  lemma {:induction false} LeftIsLeast(c: Config, h: seq<Grant>, now: real)
    requires c.rate >= 0.0 && Sorted(h, now)
    ensures IsLeast(c, h, now, Left(c, h, now))
    decreases |h|
  {
    if h != [] {
      var at := Last(h).now;
      LeftIsLeast(c, Front(h), at);
      LeastSnoc(c, h, Left(c, Front(h), at));
      LeastLater(c, h, Left(c, Front(h), at) - Cost(Last(h).yes), at, now);
    }
  }

  /** A token is left if and only if one more grant fits every stretch. */
  lemma {:induction false} TokenLeftExactly(c: Config, h: seq<Grant>, now: real)
    requires c.rate >= 0.0 && Sorted(h, now)
    ensures Left(c, h, now) >= 1.0 <==> Fits(c, h, now)
  {
    LeftIsLeast(c, h, now);
    forall i | 0 <= i < |h| ensures FitsFrom(c, h, i, now) <==> Room(c, h, i, now) >= 1.0 {
      InflowIs(c, h[i].now, now);
    }
  }

  // ---------------------------------------------------------------------------
  // One bucket, in every run
  // ---------------------------------------------------------------------------

  /** The request is granted from the `b`-th bucket. */
  predicate Draws(c: Config, s: Sys, e: Event, b: nat) {
    e.Spend? && Flies(s, e.t) && s.flying[e.t] == b && Answer(c, s, e)
  }

  /** The events of a run, with the grants from one bucket. */
  function Drawn(c: Config, evict: bool, es: seq<Event>, b: nat): seq<Grant>
    decreases |es|
  {
    if es == [] then []
    else
      var (pre, e) := (es[..|es| - 1], es[|es| - 1]);
      Drawn(c, evict, pre, b) + [Grant(e.now, Draws(c, Run(c, evict, EMPTY, pre), e, b))]
  }

  function Holds(c: Config, s: Sys, b: nat, now: real): real {
    if b < |s.heap| then Refilled(c, s.heap[b].bucket, now) else c.burst as real
  }

  lemma {:induction false} HoldsLater(c: Config, s: Sys, b: nat, now: real, later: real)
    requires c.rate >= 0.0 && now <= later
    ensures Holds(c, s, b, later) == Refilled(c, Bucket(Holds(c, s, b, now), now), later)
  {
    Grows(c, now, later);
    if b < |s.heap| { RefillTwice(c, s.heap[b].bucket, now, later); }
  }

  lemma {:induction false} HoldsStep(c: Config, evict: bool, s: Sys, e: Event, b: nat)
    requires c.rate > 0.0 && EventOk(e)
    ensures Holds(c, Step(c, evict, s, e), b, e.now) == Holds(c, s, b, e.now) - Cost(Draws(c, s, e, b))
  {
    if e.Load? { FreshIsFull(c, e.made, e.now); }
    if e.Spend? && Flies(s, e.t) { SpentLevel(c, s.heap[s.flying[e.t]].bucket, e.now); }
  }

  /** The last event comes after the others. */
  lemma {:induction false} TimedSnoc(from: real, pre: seq<Event>, e: Event)
    requires Timed(from, pre + [e])
    ensures Timed(from, pre) && EventOk(e) && from <= e.now && Ends(pre, e.now)
    decreases |pre|
  {
    if pre == [] {
      assert pre + [e] == [e];
    } else {
      assert (pre + [e])[1..] == pre[1..] + [e];
      TimedSnoc(pre[0].now, pre[1..], e);
      forall i | 0 <= i < |pre| ensures pre[i].now <= e.now {
        if i > 0 { assert pre[i] == pre[1..][i - 1]; }
      }
    }
  }

  lemma {:induction false} RunSnoc(c: Config, evict: bool, pre: seq<Event>, e: Event)
    ensures Run(c, evict, EMPTY, pre + [e]) == Step(c, evict, Run(c, evict, EMPTY, pre), e)
  {
    RunConcat(c, evict, EMPTY, pre, [e]);
    assert [e][1..] == [];
  }

  lemma {:induction false} DrawnSnoc(c: Config, evict: bool, pre: seq<Event>, e: Event, b: nat)
    ensures Drawn(c, evict, pre + [e], b) ==
      Drawn(c, evict, pre, b) + [Grant(e.now, Draws(c, Run(c, evict, EMPTY, pre), e, b))]
  {
    assert (pre + [e])[..|pre|] == pre;
  }

  lemma {:induction false} LeftSnoc(c: Config, h: seq<Grant>, g: Grant, now: real)
    ensures Left(c, h + [g], now) == Refilled(c, Bucket(Left(c, h, g.now) - Cost(g.yes), g.now), now)
    ensures g.now <= now && Sorted(h, g.now) ==> Sorted(h + [g], now)
  {
    assert Front(h + [g]) == h;
  }

  lemma {:induction false} Unsnoc(es: seq<Event>)
    requires es != []
    ensures es == es[..|es| - 1] + [es[|es| - 1]]
  {
  }

  lemma {:induction false} HoldsIsLeft(c: Config, evict: bool, es: seq<Event>, b: nat, from: real, now: real)
    requires c.rate > 0.0 && Timed(from, es) && Ends(es, now)
    ensures Sorted(Drawn(c, evict, es, b), now)
    ensures Holds(c, Run(c, evict, EMPTY, es), b, now) == Left(c, Drawn(c, evict, es, b), now)
    decreases |es|
  {
    if es != [] {
      var pre, e := es[..|es| - 1], es[|es| - 1];
      var s := Run(c, evict, EMPTY, pre);
      Unsnoc(es);
      TimedSnoc(from, pre, e);
      HoldsIsLeft(c, evict, pre, b, from, e.now);
      HoldsStep(c, evict, s, e, b);
      RunSnoc(c, evict, pre, e);
      DrawnSnoc(c, evict, pre, e, b);
      HoldsLater(c, Step(c, evict, s, e), b, e.now, now);
      LeftSnoc(c, Drawn(c, evict, pre, b), Grant(e.now, Draws(c, s, e, b)), now);
    }
  }

  /** In every run, whatever it races with and whether buckets are evicted or kept,
      a request is granted if and only if one more grant from its bucket keeps
      within the burst plus rate times length, counted from every earlier event. */
  lemma {:induction false} BucketGrantsExactly(c: Config, evict: bool, es: seq<Event>, e: Event, from: real)
    requires c.rate > 0.0 && Timed(from, es + [e])
    requires e.Spend? && Flies(Run(c, evict, EMPTY, es), e.t)
    ensures var s := Run(c, evict, EMPTY, es);
            Answer(c, s, e) <==> Fits(c, Drawn(c, evict, es, s.flying[e.t]), e.now)
  {
    var b := Run(c, evict, EMPTY, es).flying[e.t];
    TimedSnoc(from, es, e);
    HoldsIsLeft(c, evict, es, b, from, e.now);
    TokenLeftExactly(c, Drawn(c, evict, es, b), e.now);
  }

  // ---------------------------------------------------------------------------
  // One client, without races
  // ---------------------------------------------------------------------------

  /** The events of a run, with the grants to one client. */
  function Given(c: Config, es: seq<Event>, k: Client): seq<Grant>
    decreases |es|
  {
    if es == [] then []
    else
      var (pre, e) := (es[..|es| - 1], es[|es| - 1]);
      Given(c, pre, k) + [Grant(e.now, Counts(c, Taken, Run(c, true, EMPTY, pre), e, k))]
  }

  lemma {:induction false} GivenSnoc(c: Config, pre: seq<Event>, e: Event, k: Client)
    ensures Given(c, pre + [e], k) ==
      Given(c, pre, k) + [Grant(e.now, Counts(c, Taken, Run(c, true, EMPTY, pre), e, k))]
  {
    assert (pre + [e])[..|pre|] == pre;
  }

  /** What holds before an event of a run without races. */
  lemma {:induction false} Before(c: Config, pre: seq<Event>, e: Event, from: real)
    requires c.rate > 0.0 && RefillsInTime(c) && Timed(from, pre + [e]) && RaceFree(c, EMPTY, pre + [e])
    ensures var s := Run(c, true, EMPTY, pre);
            Valid(c, s, e.now) && EventOk(e) && Untouched(c, s, e.now) && !s.touched && !Race(s, e)
    ensures RaceFree(c, EMPTY, pre)
  {
    var s := Run(c, true, EMPTY, pre);
    RaceFreeConcat(c, EMPTY, pre, [e]);
    var at := RunValid(c, true, EMPTY, pre, [e], from);
    if s.pending.Some? { LevelRises(c, s, s.pending.value, at, e.now); }
  }

  /** A delete that is not raced leaves the level as it is. */
  lemma {:induction false} LevelStep(c: Config, s: Sys, e: Event, k: Client)
    requires c.rate > 0.0 && Valid(c, s, e.now) && EventOk(e)
    requires Untouched(c, s, e.now) && !s.touched && !Race(s, e)
    ensures Level(c, Step(c, true, s, e), k, e.now) == Level(c, s, k, e.now) - Cost(Counts(c, Taken, s, e, k))
  {
    StepLevel(c, true, s, e, k);
  }

  lemma {:induction false} LevelIsLeft(c: Config, es: seq<Event>, k: Client, from: real, now: real)
    requires c.rate > 0.0 && RefillsInTime(c) && Timed(from, es) && Ends(es, now) && RaceFree(c, EMPTY, es)
    ensures Sorted(Given(c, es, k), now)
    ensures Level(c, Run(c, true, EMPTY, es), k, now) == Left(c, Given(c, es, k), now)
    decreases |es|
  {
    if es != [] {
      var pre, e := es[..|es| - 1], es[|es| - 1];
      var s := Run(c, true, EMPTY, pre);
      Unsnoc(es);
      TimedSnoc(from, pre, e);
      Before(c, pre, e, from);
      LevelIsLeft(c, pre, k, from, e.now);
      LevelStep(c, s, e, k);
      RunSnoc(c, true, pre, e);
      GivenSnoc(c, pre, e, k);
      LevelRises(c, Step(c, true, s, e), k, e.now, now);
      LeftSnoc(c, Given(c, pre, k), Grant(e.now, Counts(c, Taken, s, e, k)), now);
    }
  }

  /** If a bucket refills while it goes stale and no request races the cleanup, a
      request is granted if and only if one more grant to its client keeps within
      the burst plus rate times length, counted from every earlier event, however
      often the client's bucket was evicted. */
  lemma {:induction false} GrantsExactly(c: Config, es: seq<Event>, e: Event, from: real)
    requires c.rate > 0.0 && RefillsInTime(c) && Timed(from, es + [e]) && RaceFree(c, EMPTY, es + [e])
    requires e.Spend? && Flies(Run(c, true, EMPTY, es), e.t)
    ensures var s := Run(c, true, EMPTY, es);
            Answer(c, s, e) <==> Fits(c, Given(c, es, ClientOf(s, e.t)), e.now)
  {
    var k := ClientOf(Run(c, true, EMPTY, es), e.t);
    TimedSnoc(from, es, e);
    Before(c, es, e, from);
    LevelIsLeft(c, es, k, from, e.now);
    TokenLeftExactly(c, Given(c, es, k), e.now);
  }
}
