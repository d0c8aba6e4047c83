/** The circuit breaker that guards the backend: a sliding failure window, an
    open period and half-open probes. `Step` is one operation under the mutex;
    a run is the sequence of operations in the order the mutex admitted them.
    The clock is a parameter; every `time.Now()` of an operation is one reading. */
module CircuitBreaker {

  datatype Mode = Closed | Open | HalfOpen

  datatype Config = Config(failureThreshold: int, successThreshold: int, openDuration: int, window: int)

  datatype Breaker = Breaker(mode: Mode, failureTimes: seq<int>, successes: int, probes: int, openUntil: int)

  const FRESH := Breaker(Closed, [], 0, 0, 0)

  const DEFAULT_WINDOW := 30_000_000_000

  /** One call, with the clock readings it takes: a failure reads the clock for
      the window cutoff, for its own timestamp and for the end of the open period. */
  datatype Event =
    | Allow(now: int)
    | Success
    | Failure(prune: int, stamp: int, trip: int)

  // ---------------------------------------------------------------------------
  // The operations under the mutex
  // ---------------------------------------------------------------------------

  function Prune(times: seq<int>, cutoff: int): seq<int> {
    if times != [] && times[0] < cutoff then Prune(times[1..], cutoff) else times
  }

  function AfterAllow(c: Config, b: Breaker, now: int): Breaker {
    match b.mode
    case Closed => b
    case Open =>
      if now > b.openUntil then b.(mode := HalfOpen, successes := 0, probes := 1) else b
    case HalfOpen =>
      if b.probes < c.successThreshold then b.(probes := b.probes + 1) else b
  }

  predicate Admits(c: Config, b: Breaker, now: int) {
    match b.mode
    case Closed => true
    case Open => now > b.openUntil
    case HalfOpen => b.probes < c.successThreshold
  }

  function AfterSuccess(c: Config, b: Breaker): Breaker {
    if b.mode != HalfOpen then b
    else if b.successes + 1 >= c.successThreshold then
      b.(successes := b.successes + 1, mode := Closed, failureTimes := [])
    else b.(successes := b.successes + 1)
  }

  function AfterFailure(c: Config, b: Breaker, prune: int, stamp: int, trip: int): Breaker {
    match b.mode
    case Closed =>
      var times := Prune(b.failureTimes, prune - c.window) + [stamp];
      if |times| >= c.failureThreshold then
        b.(failureTimes := times, mode := Open, openUntil := trip + c.openDuration)
      else b.(failureTimes := times)
    case HalfOpen => b.(mode := Open, openUntil := trip + c.openDuration)
    case Open => b
  }

  function Step(c: Config, b: Breaker, e: Event): Breaker {
    match e
    case Allow(now) => AfterAllow(c, b, now)
    case Success => AfterSuccess(c, b)
    case Failure(p, s, t) => AfterFailure(c, b, p, s, t)
  }

  function Run(c: Config, es: seq<Event>): Breaker {
    if es == [] then FRESH else Step(c, Run(c, es[..|es| - 1]), es[|es| - 1])
  }

  lemma {:induction false} RunSnoc(c: Config, es: seq<Event>, e: Event)
    ensures Run(c, es + [e]) == Step(c, Run(c, es), e)
  {
    assert (es + [e])[..|es|] == es;
  }

  // ---------------------------------------------------------------------------
  // The monotone clock
  // ---------------------------------------------------------------------------

  /** The latest clock reading of a run; the clock starts at 0. */
  function LastTime(es: seq<Event>): int {
    if es == [] then 0
    else match es[|es| - 1]
      case Allow(now) => now
      case Failure(_, _, trip) => trip
      case Success => LastTime(es[..|es| - 1])
  }

  /** Every reading is at or after the one before it. */
  predicate Timed(es: seq<Event>) {
    es == [] ||
    var before := es[..|es| - 1];
    Timed(before) &&
    match es[|es| - 1]
    case Allow(now) => LastTime(before) <= now
    case Failure(p, s, t) => LastTime(before) <= p <= s <= t
    case Success => true
  }

  // ---------------------------------------------------------------------------
  // The failure window: the pruned slice refines the full history
  // ---------------------------------------------------------------------------

  /** Every failure timestamp recorded since the breaker last closed; nothing is ever pruned. */
  function FailuresSinceClose(c: Config, es: seq<Event>): seq<int> {
    if es == [] then []
    else
      var before := es[..|es| - 1];
      var h := FailuresSinceClose(c, before);
      match es[|es| - 1]
      case Allow(_) => h
      case Failure(_, s, _) => if Run(c, before).mode == Closed then h + [s] else h
      case Success =>
        if Run(c, before).mode == HalfOpen && Run(c, es).mode == Closed then [] else h
  }

  /** How many timestamps are not older than the cutoff. */
  function CountRecent(h: seq<int>, cutoff: int): nat {
    if h == [] then 0 else (if h[0] >= cutoff then 1 else 0) + CountRecent(h[1..], cutoff)
  }

  predicate Ascending(h: seq<int>) {
    forall i, j :: 0 <= i < j < |h| ==> h[i] <= h[j]
  }

  lemma {:induction false} PruneShape(times: seq<int>, cutoff: int) returns (k: nat)
    ensures k <= |times| && Prune(times, cutoff) == times[k..]
    ensures forall i :: 0 <= i < k ==> times[i] < cutoff
    ensures k < |times| ==> times[k] >= cutoff
  {
    if times != [] && times[0] < cutoff {
      var m := PruneShape(times[1..], cutoff);
      k := m + 1;
      assert times[1..][m..] == times[k..];
      forall i | 0 <= i < k ensures times[i] < cutoff {
        if i > 0 { assert times[i] == times[1..][i - 1]; }
      }
    } else {
      k := 0;
    }
  }

  lemma {:induction false} CountOldPrefix(h: seq<int>, k: nat, cutoff: int)
    requires k <= |h|
    requires forall i :: 0 <= i < k ==> h[i] < cutoff
    requires forall i :: k <= i < |h| ==> h[i] >= cutoff
    ensures CountRecent(h, cutoff) == |h| - k
  {
    if h != [] {
      CountOldPrefix(h[1..], if k == 0 then 0 else k - 1, cutoff);
    }
  }

  /** The slice kept is the history without a prefix that left the window by `now`. */
  predicate Window(h: seq<int>, kept: seq<int>, dropped: nat, now: int, window: int) {
    && Ascending(h)
    && (forall i :: 0 <= i < |h| ==> h[i] <= now)
    && dropped <= |h|
    && kept == h[dropped..]
    && forall i :: 0 <= i < dropped ==> h[i] < now - window
  }

  lemma {:induction false} WindowRecords(h: seq<int>, kept: seq<int>, dropped: nat, last: int, window: int, p: int,
      s: int, t: int)
      returns (d: nat)
    requires Window(h, kept, dropped, last, window)
    requires last <= p <= s <= t
    ensures Window(h + [s], Prune(kept, p - window) + [s], d, t, window)
  {
    var k := PruneShape(kept, p - window);
    d := dropped + k;
    assert h[dropped..][k..] == h[d..];
    assert (h + [s])[d..] == h[d..] + [s];
    forall i | 0 <= i < d ensures h[i] < t - window {
      if i >= dropped { assert h[i] == kept[i - dropped]; }
    }
  }

  lemma {:induction false} WindowCounts(h: seq<int>, kept: seq<int>, dropped: nat, last: int, window: int, p: int)
    requires Window(h, kept, dropped, last, window)
    requires last <= p
    ensures |Prune(kept, p - window)| == CountRecent(h, p - window)
  {
    var k := PruneShape(kept, p - window);
    forall i | 0 <= i < |h| ensures i < dropped + k <==> h[i] < p - window {
      if i >= dropped {
        assert h[i] == kept[i - dropped];
        if i >= dropped + k { assert h[dropped + k] == kept[k]; }
      }
    }
    CountOldPrefix(h, dropped + k, p - window);
  }

  /** Over every run the slice kept by the breaker is the full history since it
      last closed, without a prefix of timestamps that already left the window. */
  lemma {:induction false} WindowRefinesHistory(c: Config, es: seq<Event>) returns (dropped: nat)
    requires Timed(es)
    ensures Window(FailuresSinceClose(c, es), Run(c, es).failureTimes, dropped, LastTime(es), c.window)
  {
    dropped := 0;
    if es != [] {
      var before := es[..|es| - 1];
      dropped := WindowRefinesHistory(c, before);
      var h, b := FailuresSinceClose(c, before), Run(c, before);
      match es[|es| - 1] {
        case Allow(_) =>
        case Success =>
          if b.mode == HalfOpen && Run(c, es).mode == Closed { dropped := 0; }
        case Failure(p, s, t) =>
          if b.mode == Closed {
            dropped := WindowRecords(h, b.failureTimes, dropped, LastTime(before), c.window, p, s, t);
          }
      }
    }
  }

  /** A closed breaker opens on a failure exactly when the failures recorded
      since it last closed and not older than the window, this one included,
      reach the threshold. */
  lemma {:induction false} OpensExactly(c: Config, es: seq<Event>, p: int, s: int, t: int)
    requires Timed(es) && LastTime(es) <= p
    requires Run(c, es).mode == Closed
    ensures Step(c, Run(c, es), Failure(p, s, t)).mode == Open
       <==> CountRecent(FailuresSinceClose(c, es), p - c.window) + 1 >= c.failureThreshold
  {
    var d := WindowRefinesHistory(c, es);
    WindowCounts(FailuresSinceClose(c, es), Run(c, es).failureTimes, d, LastTime(es), c.window, p);
  }

  // ---------------------------------------------------------------------------
  // Half-open periods
  // ---------------------------------------------------------------------------

  /** `es[k]` is the admitted call that ended the open period, and the breaker
      has been half-open ever since. */
  ghost predicate PeriodFrom(c: Config, es: seq<Event>, k: nat) {
    && k < |es|
    && es[k].Allow?
    && Run(c, es[..k]).mode == Open
    && forall j :: k < j <= |es| ==> Run(c, es[..j]).mode == HalfOpen
  }

  function AdmittedFrom(c: Config, es: seq<Event>, k: nat): nat {
    if |es| <= k then 0
    else
      var before, e := es[..|es| - 1], es[|es| - 1];
      AdmittedFrom(c, before, k) +
      if e.Allow? && Admits(c, Run(c, before), e.now) then 1 else 0
  }

  function SuccessesFrom(es: seq<Event>, k: nat): nat {
    if |es| <= k then 0
    else SuccessesFrom(es[..|es| - 1], k) + if es[|es| - 1].Success? then 1 else 0
  }

  function Quota(c: Config): int {
    if c.successThreshold > 1 then c.successThreshold else 1
  }

  lemma {:induction false} HalfOpenHasPeriod(c: Config, es: seq<Event>) returns (k: nat)
    requires Run(c, es).mode == HalfOpen
    ensures PeriodFrom(c, es, k)
  {
    var before := es[..|es| - 1];
    if Run(c, before).mode == HalfOpen {
      k := HalfOpenHasPeriod(c, before);
      assert es[..k] == before[..k];
      forall j | k < j <= |es| ensures Run(c, es[..j]).mode == HalfOpen {
        if j < |es| { assert es[..j] == before[..j]; } else { assert es[..j] == es; }
      }
    } else {
      k := |es| - 1;
      assert es[..|es|] == es;
    }
  }

  /** Inside a half-open period the two counters are the admitted calls and the
      recorded successes of that period; at most max(1, successThreshold) calls
      are admitted and no failure has been recorded. */
  lemma {:induction false} HalfOpenCounts(c: Config, es: seq<Event>, k: nat)
    requires PeriodFrom(c, es, k)
    ensures Run(c, es).probes == AdmittedFrom(c, es, k)
    ensures 1 <= AdmittedFrom(c, es, k) <= Quota(c)
    ensures Run(c, es).successes == SuccessesFrom(es, k)
    ensures SuccessesFrom(es, k) < Quota(c)
    ensures forall j :: k <= j < |es| ==> !es[j].Failure?
  {
    var before := es[..|es| - 1];
    assert es[..|es|] == es;
    assert Run(c, es) == Step(c, Run(c, before), es[|es| - 1]);
    if |es| == k + 1 {
      assert es[..k] == before;
      assert AdmittedFrom(c, before, k) == 0;
    } else {
      forall j | k < j <= |before| ensures Run(c, before[..j]).mode == HalfOpen {
        assert before[..j] == es[..j];
      }
      assert before[..k] == es[..k];
      HalfOpenCounts(c, before, k);
      assert before[..|before|] == before;
    }
  }

  /** The breaker closes only on a success that completes successThreshold of
      them inside one half-open period, with no failure in between. */
  lemma {:induction false} ClosesOnlyAfterQuota(c: Config, es: seq<Event>, e: Event) returns (k: nat)
    requires Run(c, es).mode != Closed
    requires Run(c, es + [e]).mode == Closed
    ensures PeriodFrom(c, es, k) && e == Success
    ensures SuccessesFrom(es, k) + 1 >= c.successThreshold
    ensures forall j :: k <= j < |es| ==> !es[j].Failure?
  {
    RunSnoc(c, es, e);
    k := HalfOpenHasPeriod(c, es);
    HalfOpenCounts(c, es, k);
  }

  /** A half-open breaker refuses exactly when it has admitted its whole quota;
      so once every admitted probe has recorded its outcome it admits again. */
  lemma {:induction false} WedgesOnlyOnUnrecordedProbes(c: Config, es: seq<Event>, k: nat, now: int)
    requires PeriodFrom(c, es, k)
    requires c.successThreshold >= 1
    ensures Admits(c, Run(c, es), now) <==> AdmittedFrom(c, es, k) < c.successThreshold
    ensures SuccessesFrom(es, k) >= AdmittedFrom(c, es, k) ==> Admits(c, Run(c, es), now)
  {
    HalfOpenCounts(c, es, k);
    assert es[..|es|] == es;
  }

  // ---------------------------------------------------------------------------
  // Open periods, and every answer in terms of the history
  // ---------------------------------------------------------------------------

  /** `es[i]` is the failure that opened the breaker, which has been open ever since. */
  ghost predicate OpenFrom(c: Config, es: seq<Event>, i: nat) {
    && i < |es|
    && es[i].Failure?
    && Run(c, es[..i]).mode != Open
    && forall j :: i < j <= |es| ==> Run(c, es[..j]).mode == Open
  }

  /** An open breaker was opened by a failure, and refuses until the open duration
      has passed since that failure read the clock; later failures change nothing. */
  lemma {:induction false} OpenPeriodLasts(c: Config, es: seq<Event>) returns (i: nat)
    requires Run(c, es).mode == Open
    ensures OpenFrom(c, es, i)
    ensures forall now :: Admits(c, Run(c, es), now) <==> now > es[i].trip + c.openDuration
  {
    var before := es[..|es| - 1];
    if Run(c, before).mode == Open {
      i := OpenPeriodLasts(c, before);
      assert es[..i] == before[..i];
      forall j | i < j <= |es| ensures Run(c, es[..j]).mode == Open {
        if j < |es| { assert es[..j] == before[..j]; } else { assert es[..j] == es; }
      }
      assert forall now :: Admits(c, Run(c, es), now) == Admits(c, Run(c, before), now);
    } else {
      i := |es| - 1;
      assert es[..|es|] == es;
    }
  }

  /** There is only one such failure. */
  lemma {:induction false} OpenFromOnce(c: Config, es: seq<Event>, i: nat, j: nat)
    requires OpenFrom(c, es, i) && OpenFrom(c, es, j)
    ensures i == j
  {
  }

  /** Every answer of the breaker, in terms of the calls before it. */
  lemma {:induction false} AnswersExactly(c: Config, es: seq<Event>, now: int)
    ensures Run(c, es).mode == Closed ==> Admits(c, Run(c, es), now)
    ensures forall i: nat :: OpenFrom(c, es, i) ==>
      (Admits(c, Run(c, es), now) <==> now > es[i].trip + c.openDuration)
    ensures forall k: nat :: PeriodFrom(c, es, k) ==>
      (Admits(c, Run(c, es), now) <==> AdmittedFrom(c, es, k) < c.successThreshold)
  {
    assert es[..|es|] == es;
    forall i: nat | OpenFrom(c, es, i)
      ensures Admits(c, Run(c, es), now) <==> now > es[i].trip + c.openDuration
    {
      var j := OpenPeriodLasts(c, es);
      OpenFromOnce(c, es, i, j);
    }
    forall k: nat | PeriodFrom(c, es, k)
      ensures Admits(c, Run(c, es), now) <==> AdmittedFrom(c, es, k) < c.successThreshold
    {
      HalfOpenCounts(c, es, k);
    }
  }

  /** Every change of state, in terms of the calls before it: a closed breaker
      opens when the window is full of failures; an open one becomes half-open on
      the first call after the open period; a half-open one opens on a failure
      and closes on the success that completes the quota. */
  lemma {:induction false} ChangesExactly(c: Config, es: seq<Event>, e: Event)
    requires Timed(es + [e])
    ensures var mode := Run(c, es + [e]).mode;
      && (Run(c, es).mode == Closed ==>
            mode == if e.Failure?
                       && CountRecent(FailuresSinceClose(c, es), e.prune - c.window) + 1 >= c.failureThreshold
                    then Open else Closed)
      && (forall i: nat :: OpenFrom(c, es, i) ==>
            mode == if e.Allow? && e.now > es[i].trip + c.openDuration then HalfOpen else Open)
      && (forall k: nat :: PeriodFrom(c, es, k) ==>
            mode == if e.Failure? then Open
                    else if e.Success? && SuccessesFrom(es, k) + 1 >= c.successThreshold then Closed else HalfOpen)
  {
    assert (es + [e])[..|es|] == es && es[..|es|] == es;
    RunSnoc(c, es, e);
    if Run(c, es).mode == Closed && e.Failure? { OpensExactly(c, es, e.prune, e.stamp, e.trip); }
    if e.Allow? { AnswersExactly(c, es, e.now); }
    forall k: nat | PeriodFrom(c, es, k) ensures Run(c, es).successes == SuccessesFrom(es, k) {
      HalfOpenCounts(c, es, k);
    }
  }

  /** One of the three descriptions applies to every run. */
  lemma {:induction false} ModeHasHistory(c: Config, es: seq<Event>)
    ensures Run(c, es).mode == Open ==> exists i: nat :: OpenFrom(c, es, i)
    ensures Run(c, es).mode == HalfOpen ==> exists k: nat :: PeriodFrom(c, es, k)
  {
    if Run(c, es).mode == Open { var i := OpenPeriodLasts(c, es); }
    if Run(c, es).mode == HalfOpen { var k := HalfOpenHasPeriod(c, es); }
  }

  // ---------------------------------------------------------------------------
  // The breaker as an object
  // ---------------------------------------------------------------------------

  class CircuitBreaker {
    const config: Config
    var atomicState: Mode
    var state: Mode
    var failureTimes: seq<int>
    var successes: int
    var halfOpenProbes: int
    var openUntil: int

    ghost predicate Valid()
      reads this
    {
      atomicState == state
    }

    ghost function View(): Breaker
      reads this
    {
      Breaker(state, failureTimes, successes, halfOpenProbes, openUntil)
    }

    constructor (failureThreshold: int, successThreshold: int, openDuration: int, windowDuration: int)
      ensures Valid() && View() == FRESH
      ensures config == Config(failureThreshold, successThreshold, openDuration,
                               if windowDuration <= 0 then DEFAULT_WINDOW else windowDuration)
    {
      var window := windowDuration;
      if window <= 0 {
        window := DEFAULT_WINDOW;
      }
      config := Config(failureThreshold, successThreshold, openDuration, window);
      atomicState, state := Closed, Closed;
      failureTimes, successes, halfOpenProbes, openUntil := [], 0, 0, 0;
    }

    method Allow(now: int) returns (ok: bool)
      requires Valid()
      modifies this
      ensures Valid()
      ensures View() == AfterAllow(config, old(View()), now)
      ensures ok == Admits(config, old(View()), now)
    {
      if atomicState == Closed {
        return true;
      }
      match state {
        case Closed =>
          return true;
        case Open =>
          if now > openUntil {
            state := HalfOpen;
            atomicState := HalfOpen;
            successes := 0;
            halfOpenProbes := 1;
            return true;
          }
          return false;
        case HalfOpen =>
          if halfOpenProbes < config.successThreshold {
            halfOpenProbes := halfOpenProbes + 1;
            return true;
          }
          return false;
      }
    }

    method RecordSuccess()
      requires Valid()
      modifies this
      ensures Valid()
      ensures View() == AfterSuccess(config, old(View()))
    {
      if atomicState == Closed {
        return;
      }
      if state == HalfOpen {
        successes := successes + 1;
        if successes >= config.successThreshold {
          state := Closed;
          atomicState := Closed;
          failureTimes := failureTimes[..0];
        }
      }
    }

    method RecordFailure(prune: int, stamp: int, trip: int)
      requires Valid()
      modifies this
      ensures Valid()
      ensures View() == AfterFailure(config, old(View()), prune, stamp, trip)
    {
      match state {
        case Closed =>
          PruneWindow(prune);
          failureTimes := failureTimes + [stamp];
          if |failureTimes| >= config.failureThreshold {
            state := Open;
            atomicState := Open;
            openUntil := trip + config.openDuration;
          }
        case HalfOpen =>
          state := Open;
          atomicState := Open;
          openUntil := trip + config.openDuration;
        case Open =>
      }
    }

    method PruneWindow(now: int)
      modifies this`failureTimes
      ensures failureTimes == Prune(old(failureTimes), now - config.window)
    {
      var cutoff := now - config.window;
      var i := 0;
      while i < |failureTimes| && failureTimes[i] < cutoff
        invariant 0 <= i <= |failureTimes|
        invariant failureTimes == old(failureTimes)
        invariant Prune(failureTimes[i..], cutoff) == Prune(failureTimes, cutoff)
      {
        assert failureTimes[i..][1..] == failureTimes[i + 1..];
        i := i + 1;
      }
      failureTimes := failureTimes[i..];
    }
  }
}
