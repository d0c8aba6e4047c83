/** Any number of goroutines inside the breaker at once, one memory access at a
    time: the lock-free load, taking and releasing the mutex, and the separate
    writes of the state, of its atomic shadow and of the other fields. Every
    schedule refines the atomic breaker of module `CircuitBreaker`. */
module BreakerInterleaving {
  import opened CircuitBreaker

  datatype Op = OpAllow | OpSuccess | OpFailure

  /** Where a goroutine is. `pre` records the fields at the moment the mutex was
      taken; it is never read by a step, only by the refinement mapping. */
  datatype PC =
    | Idle
    | Begin(op: Op)                            // before the lock-free load
    | Wait(op: Op)                             // waiting for the mutex
    | Held(op: Op, pre: Breaker)               // mutex taken, nothing written
    | ProbeShadow(pre: Breaker, now: int)      // Allow: state written, shadow store next
    | ProbeSuccesses(pre: Breaker, now: int)   // Allow: successes = 0 next
    | ProbeCount(pre: Breaker, now: int)       // Allow: halfOpenProbes = 1 next
    | CloseState(pre: Breaker)                 // RecordSuccess: state write next
    | CloseShadow(pre: Breaker)                // RecordSuccess: shadow store next
    | CloseTimes(pre: Breaker)                 // RecordSuccess: failureTimes reset next
    | Append(pre: Breaker, prune: int)         // RecordFailure: window pruned, append next
    | TripState(pre: Breaker, prune: int, stamp: int)   // RecordFailure: state write next
    | TripShadow(pre: Breaker, prune: int, stamp: int)  // RecordFailure: shadow store next
    | TripUntil(pre: Breaker, prune: int, stamp: int)   // RecordFailure: openUntil next
    | Unlock(answer: bool)                     // releases the mutex next
    | Return(answer: bool)

  datatype Lock = Free | By(tid: nat)

  datatype Sys = Sys(clock: int, shadow: Mode, b: Breaker, lock: Lock, pcs: seq<PC>)

  datatype Move = Tick(d: nat) | Invoke(t: nat, op: Op) | Act(t: nat)

  function Init(n: nat): Sys {
    Sys(0, Closed, FRESH, Free, seq(n, _ => Idle))
  }

  // ---------------------------------------------------------------------------
  // The machine
  // ---------------------------------------------------------------------------

  function Goto(s: Sys, t: nat, pc: PC): Sys
    requires t < |s.pcs|
  {
    s.(pcs := s.pcs[t := pc])
  }

  /** The branch an operation takes once it holds the mutex. */
  function Enter(c: Config, s: Sys, t: nat, op: Op, pre: Breaker): Sys
    requires t < |s.pcs|
  {
    match op
    case OpAllow => (
      match s.b.mode
      case Closed => Goto(s, t, Unlock(true))
      case Open =>
        if s.clock > s.b.openUntil
        then Goto(s.(b := s.b.(mode := HalfOpen)), t, ProbeShadow(pre, s.clock))
        else Goto(s, t, Unlock(false))
      case HalfOpen =>
        if s.b.probes < c.successThreshold
        then Goto(s.(b := s.b.(probes := s.b.probes + 1)), t, Unlock(true))
        else Goto(s, t, Unlock(false)))
    case OpSuccess =>
      if s.b.mode != HalfOpen then Goto(s, t, Unlock(true))
      else
        var s' := s.(b := s.b.(successes := s.b.successes + 1));
        if s'.b.successes >= c.successThreshold then Goto(s', t, CloseState(pre))
        else Goto(s', t, Unlock(true))
    case OpFailure => (
      match s.b.mode
      case Closed =>
        Goto(s.(b := s.b.(failureTimes := Prune(s.b.failureTimes, s.clock - c.window))), t, Append(pre, s.clock))
      case HalfOpen =>
        Goto(s.(b := s.b.(mode := Open)), t, TripShadow(pre, s.clock, s.clock))
      case Open => Goto(s, t, Unlock(true)))
  }

  function Next(c: Config, s: Sys, m: Move): Sys {
    match m
    case Tick(d) => s.(clock := s.clock + d)
    case Invoke(t, op) => if t < |s.pcs| && s.pcs[t] == Idle then Goto(s, t, Begin(op)) else s
    case Act(t) => if t < |s.pcs| then ActOn(c, s, t) else s
  }

  function ActOn(c: Config, s: Sys, t: nat): Sys
    requires t < |s.pcs|
  {
    match s.pcs[t]
    case Idle => s
    case Begin(op) =>
      if op != OpFailure && s.shadow == Closed then Goto(s, t, Return(true)) else Goto(s, t, Wait(op))
    case Wait(op) =>
      if s.lock == Free then Goto(s.(lock := By(t)), t, Held(op, s.b)) else s
    case Held(op, pre) => Enter(c, s, t, op, pre)
    case ProbeShadow(pre, now) => Goto(s.(shadow := HalfOpen), t, ProbeSuccesses(pre, now))
    case ProbeSuccesses(pre, now) => Goto(s.(b := s.b.(successes := 0)), t, ProbeCount(pre, now))
    case ProbeCount(pre, now) => Goto(s.(b := s.b.(probes := 1)), t, Unlock(true))
    case CloseState(pre) => Goto(s.(b := s.b.(mode := Closed)), t, CloseShadow(pre))
    case CloseShadow(pre) => Goto(s.(shadow := Closed), t, CloseTimes(pre))
    case CloseTimes(pre) => Goto(s.(b := s.b.(failureTimes := [])), t, Unlock(true))
    case Append(pre, p) =>
      var s' := s.(b := s.b.(failureTimes := s.b.failureTimes + [s.clock]));
      if |s'.b.failureTimes| >= c.failureThreshold then Goto(s', t, TripState(pre, p, s.clock))
      else Goto(s', t, Unlock(true))
    case TripState(pre, p, st) => Goto(s.(b := s.b.(mode := Open)), t, TripShadow(pre, p, st))
    case TripShadow(pre, p, st) => Goto(s.(shadow := Open), t, TripUntil(pre, p, st))
    case TripUntil(pre, p, st) =>
      Goto(s.(b := s.b.(openUntil := s.clock + c.openDuration)), t, Unlock(true))
    case Unlock(a) => Goto(s.(lock := Free), t, Return(a))
    case Return(_) => Goto(s, t, Idle)
  }

  // ---------------------------------------------------------------------------
  // The refinement mapping
  // ---------------------------------------------------------------------------

  /** A call has taken effect once it stands at one of these points. */
  predicate Effective(pc: PC) {
    pc.Idle? || pc.CloseTimes? || pc.Unlock? || pc.Return?
  }

  predicate Inside(pc: PC) {
    !pc.Idle? && !pc.Begin? && !pc.Wait? && !pc.Return?
  }

  /** The atomic breaker a system state stands for. */
  function Abs(c: Config, s: Sys): Breaker {
    if s.lock.By? && s.lock.tid < |s.pcs| then
      match s.pcs[s.lock.tid]
      case Unlock(_) => s.b
      case CloseTimes(pre) => AfterSuccess(c, pre)
      case Held(_, pre) => pre
      case ProbeShadow(pre, _) => pre
      case ProbeSuccesses(pre, _) => pre
      case ProbeCount(pre, _) => pre
      case CloseState(pre) => pre
      case CloseShadow(pre) => pre
      case Append(pre, _) => pre
      case TripState(pre, _, _) => pre
      case TripShadow(pre, _, _) => pre
      case TripUntil(pre, _, _) => pre
      case _ => s.b
    else s.b
  }

  /** The atomic operation a step stands for, if the step makes its call take
      effect. `last` dates a lock-free answer, which reads no clock. */
  function Effect(c: Config, s: Sys, m: Move, last: int): seq<Event> {
    if m.Act? && m.t < |s.pcs| && !Effective(s.pcs[m.t]) && Effective(Next(c, s, m).pcs[m.t]) then
      match s.pcs[m.t]
      case Begin(op) => if op == OpAllow then [Allow(last)] else [Success]
      case Held(op, _) => (
        match op
        case OpAllow => [Allow(s.clock)]
        case OpSuccess => [Success]
        case OpFailure => [Failure(s.clock, s.clock, s.clock)])
      case ProbeCount(_, now) => [Allow(now)]
      case CloseShadow(_) => [Success]
      case Append(_, p) => [Failure(p, s.clock, s.clock)]
      case TripUntil(_, p, st) => [Failure(p, st, s.clock)]
      case _ => []
    else []
  }

  /** What the goroutine inside the mutex has written so far, point by point. */
  predicate HolderInv(c: Config, s: Sys, last: int, pc: PC) {
    match pc
    case Held(_, pre) => s.b == pre && s.shadow == pre.mode
    case ProbeShadow(pre, now) =>
      s.b == pre.(mode := HalfOpen) && s.shadow == Open && Probing(pre, last, now, s.clock)
    case ProbeSuccesses(pre, now) =>
      s.b == pre.(mode := HalfOpen) && s.shadow == HalfOpen && Probing(pre, last, now, s.clock)
    case ProbeCount(pre, now) =>
      s.b == pre.(mode := HalfOpen, successes := 0) && s.shadow == HalfOpen && Probing(pre, last, now, s.clock)
    case CloseState(pre) => Closing(c, pre) && s.b == pre.(successes := pre.successes + 1) && s.shadow == HalfOpen
    case CloseShadow(pre) =>
      Closing(c, pre) && s.b == pre.(successes := pre.successes + 1, mode := Closed) && s.shadow == HalfOpen
    case CloseTimes(pre) =>
      Closing(c, pre) && s.b == pre.(successes := pre.successes + 1, mode := Closed) && s.shadow == Closed
    case Append(pre, p) =>
      && pre.mode == Closed && s.shadow == Closed && last <= p <= s.clock
      && s.b == pre.(failureTimes := Prune(pre.failureTimes, p - c.window))
    case TripState(pre, p, st) =>
      Tripping(c, s.b, pre, last, p, st, s.clock) && s.shadow == Closed && pre.mode == Closed
    case TripShadow(pre, p, st) =>
      Tripping(c, s.b.(mode := pre.mode), pre, last, p, st, s.clock) && s.shadow == pre.mode && s.b.mode == Open
    case TripUntil(pre, p, st) =>
      Tripping(c, s.b.(mode := pre.mode), pre, last, p, st, s.clock) && s.shadow == Open && s.b.mode == Open
    case Unlock(_) => s.shadow == s.b.mode
    case _ => false
  }

  predicate Probing(pre: Breaker, last: int, now: int, clock: int) {
    pre.mode == Open && last <= now <= clock && now > pre.openUntil
  }

  predicate Closing(c: Config, pre: Breaker) {
    pre.mode == HalfOpen && pre.successes + 1 >= c.successThreshold
  }

  predicate Tripping(c: Config, b: Breaker, pre: Breaker, last: int, p: int, st: int, clock: int) {
    && last <= p <= st <= clock
    && (pre.mode == HalfOpen ==> b == pre)
    && (pre.mode == Closed ==>
          && b == pre.(failureTimes := Prune(pre.failureTimes, p - c.window) + [st])
          && |b.failureTimes| >= c.failureThreshold)
    && pre.mode != Open
  }

  predicate Inv(c: Config, s: Sys, last: int) {
    && last <= s.clock
    && (forall t :: 0 <= t < |s.pcs| ==> (Inside(s.pcs[t]) <==> s.lock == By(t)))
    && (s.lock.By? ==> s.lock.tid < |s.pcs| && HolderInv(c, s, last, s.pcs[s.lock.tid]))
    && (s.lock.Free? ==> s.shadow == s.b.mode)
  }

  /** The lock-free hot path may be answered without the mutex: a shadow that
      reads closed means the atomic breaker is closed at that very instant. */
  lemma ShadowIsSound(c: Config, s: Sys, last: int)
    requires Inv(c, s, last)
    ensures s.shadow == Closed ==> Abs(c, s).mode == Closed
  {
  }

  /** From `b` to `b'` the atomic breaker did nothing, or the one operation in `e`. */
  predicate AtomicMove(c: Config, b: Breaker, b': Breaker, e: seq<Event>, last: int, clock: int) {
    if e == [] then b' == b
    else |e| == 1 && Timed'(last, e[0], clock) && b' == Step(c, b, e[0])
  }

  /** The answer the acting goroutine now carries is the atomic breaker's. */
  predicate AnswersLike(c: Config, b: Breaker, e: seq<Event>, pc: PC) {
    e != [] && e[0].Allow? ==>
      (pc.Return? || pc.Unlock?) && pc.answer == Admits(c, b, e[0].now)
  }

  predicate Simulates(c: Config, s: Sys, m: Move, last: int) {
    var s', e := Next(c, s, m), Effect(c, s, m, last);
    && AtomicMove(c, Abs(c, s), Abs(c, s'), e, last, s'.clock)
    && |s'.pcs| == |s.pcs|
    && (!m.Tick? && m.t < |s.pcs| ==> AnswersLike(c, Abs(c, s), e, s'.pcs[m.t]))
  }

  predicate Timed'(last: int, e: Event, clock: int) {
    match e
    case Allow(now) => last <= now <= clock
    case Failure(p, s, t) => last <= p <= s <= t <= clock
    case Success => true
  }

  function Latest(last: int, es: seq<Event>): int {
    if es == [] then last
    else match es[0]
      case Allow(now) => now
      case Failure(_, _, t) => t
      case Success => last
  }

  /** One micro-step: it either changes nothing the atomic breaker can see, or
      it is exactly one atomic operation, answered as the atomic breaker answers. */
  lemma StepSimulates(c: Config, s: Sys, m: Move, last: int)
    requires Inv(c, s, last)
    ensures Simulates(c, s, m, last)
    ensures Inv(c, Next(c, s, m), Latest(last, Effect(c, s, m, last)))
  {
    if m.Act? && m.t < |s.pcs| {
      ActSimulates(c, s, m.t, last);
    }
  }

  lemma {:induction false} ActSimulates(c: Config, s: Sys, t: nat, last: int)
    requires Inv(c, s, last) && t < |s.pcs|
    ensures Good(c, s, t, last)
  {
    match s.pcs[t] {
      case Idle => IdleActs(c, s, t, last);
      case Begin(_) => BeginActs(c, s, t, last);
      case Wait(_) => WaitActs(c, s, t, last);
      case Return(_) => IdleActs(c, s, t, last);
      case Held(op, _) =>
        match op {
          case OpAllow => AllowEnters(c, s, t, last);
          case OpSuccess => SuccessEnters(c, s, t, last);
          case OpFailure => FailureEnters(c, s, t, last);
        }
      case ProbeShadow(_, _) => ProbeActs(c, s, t, last);
      case ProbeSuccesses(_, _) => ProbeActs(c, s, t, last);
      case ProbeCount(_, _) => ProbeActs(c, s, t, last);
      case CloseState(_) => CloseActs(c, s, t, last);
      case CloseShadow(_) => CloseActs(c, s, t, last);
      case CloseTimes(_) => CloseActs(c, s, t, last);
      case Append(_, _) => AppendActs(c, s, t, last);
      case TripState(_, _, _) => TripActs(c, s, t, last);
      case TripShadow(_, _, _) => TripActs(c, s, t, last);
      case TripUntil(_, _, _) => TripActs(c, s, t, last);
      case Unlock(_) => UnlockActs(c, s, t, last);
    }
  }

  predicate Good(c: Config, s: Sys, t: nat, last: int) {
    && Simulates(c, s, Act(t), last)
    && Inv(c, Next(c, s, Act(t)), Latest(last, Effect(c, s, Act(t), last)))
  }

  lemma {:induction false} IdleActs(c: Config, s: Sys, t: nat, last: int)
    requires Inv(c, s, last) && t < |s.pcs| && (s.pcs[t].Idle? || s.pcs[t].Return?)
    ensures Good(c, s, t, last)
  {
  }

  /** The lock-free hot path, or the way to the mutex. */
  lemma {:induction false} BeginActs(c: Config, s: Sys, t: nat, last: int)
    requires Inv(c, s, last) && t < |s.pcs| && s.pcs[t].Begin?
    ensures Good(c, s, t, last)
  {
    ShadowIsSound(c, s, last);
  }

  lemma {:induction false} WaitActs(c: Config, s: Sys, t: nat, last: int)
    requires Inv(c, s, last) && t < |s.pcs| && s.pcs[t].Wait?
    ensures Good(c, s, t, last)
  {
  }

  lemma {:induction false} AllowClosed(c: Config, s: Sys, t: nat, last: int)
    requires Inv(c, s, last) && t < |s.pcs| && s.pcs[t].Held? && s.pcs[t].op == OpAllow && s.b.mode == Closed
    ensures Good(c, s, t, last)
  {
  }

  lemma {:induction false} AllowOpen(c: Config, s: Sys, t: nat, last: int)
    requires Inv(c, s, last) && t < |s.pcs| && s.pcs[t].Held? && s.pcs[t].op == OpAllow && s.b.mode == Open
    ensures Good(c, s, t, last)
  {
  }

  lemma {:induction false} AllowHalfOpen(c: Config, s: Sys, t: nat, last: int)
    requires Inv(c, s, last) && t < |s.pcs| && s.pcs[t].Held? && s.pcs[t].op == OpAllow && s.b.mode == HalfOpen
    ensures Good(c, s, t, last)
  {
  }

  lemma {:induction false} AllowEnters(c: Config, s: Sys, t: nat, last: int)
    requires Inv(c, s, last) && t < |s.pcs| && s.pcs[t].Held? && s.pcs[t].op == OpAllow
    ensures Good(c, s, t, last)
  {
    match s.b.mode
    case Closed => AllowClosed(c, s, t, last);
    case Open => AllowOpen(c, s, t, last);
    case HalfOpen => AllowHalfOpen(c, s, t, last);
  }

  lemma {:induction false} SuccessHalfOpen(c: Config, s: Sys, t: nat, last: int)
    requires Inv(c, s, last) && t < |s.pcs| && s.pcs[t].Held? && s.pcs[t].op == OpSuccess && s.b.mode == HalfOpen
    ensures Good(c, s, t, last)
  {
  }

  lemma {:induction false} SuccessElsewhere(c: Config, s: Sys, t: nat, last: int)
    requires Inv(c, s, last) && t < |s.pcs| && s.pcs[t].Held? && s.pcs[t].op == OpSuccess && s.b.mode != HalfOpen
    ensures Good(c, s, t, last)
  {
  }

  lemma {:induction false} SuccessEnters(c: Config, s: Sys, t: nat, last: int)
    requires Inv(c, s, last) && t < |s.pcs| && s.pcs[t].Held? && s.pcs[t].op == OpSuccess
    ensures Good(c, s, t, last)
  {
    if s.b.mode == HalfOpen { SuccessHalfOpen(c, s, t, last); } else { SuccessElsewhere(c, s, t, last); }
  }

  lemma {:induction false} FailureClosed(c: Config, s: Sys, t: nat, last: int)
    requires Inv(c, s, last) && t < |s.pcs| && s.pcs[t].Held? && s.pcs[t].op == OpFailure && s.b.mode == Closed
    ensures Good(c, s, t, last)
  {
  }

  lemma {:induction false} FailureElsewhere(c: Config, s: Sys, t: nat, last: int)
    requires Inv(c, s, last) && t < |s.pcs| && s.pcs[t].Held? && s.pcs[t].op == OpFailure && s.b.mode != Closed
    ensures Good(c, s, t, last)
  {
  }

  lemma {:induction false} FailureEnters(c: Config, s: Sys, t: nat, last: int)
    requires Inv(c, s, last) && t < |s.pcs| && s.pcs[t].Held? && s.pcs[t].op == OpFailure
    ensures Good(c, s, t, last)
  {
    if s.b.mode == Closed { FailureClosed(c, s, t, last); } else { FailureElsewhere(c, s, t, last); }
  }

  lemma {:induction false} ProbeActs(c: Config, s: Sys, t: nat, last: int)
    requires Inv(c, s, last) && t < |s.pcs|
    requires s.pcs[t].ProbeShadow? || s.pcs[t].ProbeSuccesses? || s.pcs[t].ProbeCount?
    ensures Good(c, s, t, last)
  {
  }

  lemma {:induction false} CloseActs(c: Config, s: Sys, t: nat, last: int)
    requires Inv(c, s, last) && t < |s.pcs|
    requires s.pcs[t].CloseState? || s.pcs[t].CloseShadow? || s.pcs[t].CloseTimes?
    ensures Good(c, s, t, last)
  {
  }

  lemma {:induction false} AppendActs(c: Config, s: Sys, t: nat, last: int)
    requires Inv(c, s, last) && t < |s.pcs| && s.pcs[t].Append?
    ensures Good(c, s, t, last)
  {
  }

  lemma {:induction false} TripActs(c: Config, s: Sys, t: nat, last: int)
    requires Inv(c, s, last) && t < |s.pcs|
    requires s.pcs[t].TripState? || s.pcs[t].TripShadow? || s.pcs[t].TripUntil?
    ensures Good(c, s, t, last)
  {
  }

  lemma {:induction false} UnlockActs(c: Config, s: Sys, t: nat, last: int)
    requires Inv(c, s, last) && t < |s.pcs| && s.pcs[t].Unlock?
    ensures Good(c, s, t, last)
  {
  }

  // ---------------------------------------------------------------------------
  // Whole schedules
  // ---------------------------------------------------------------------------

  function Execute(c: Config, n: nat, ms: seq<Move>): Sys {
    if ms == [] then Init(n) else Next(c, Execute(c, n, ms[..|ms| - 1]), ms[|ms| - 1])
  }

  /** The atomic operations of a schedule, in the order they take effect. */
  function Log(c: Config, n: nat, ms: seq<Move>): seq<Event> {
    if ms == [] then []
    else
      var before := ms[..|ms| - 1];
      var log := Log(c, n, before);
      log + Effect(c, Execute(c, n, before), ms[|ms| - 1], LastTime(log))
  }

  lemma {:induction false} LogGrows(c: Config, log: seq<Event>, b': Breaker, e: seq<Event>, clock: int)
    requires Timed(log)
    requires AtomicMove(c, Run(c, log), b', e, LastTime(log), clock)
    ensures Timed(log + e) && Run(c, log + e) == b'
    ensures LastTime(log + e) == Latest(LastTime(log), e)
  {
    if e == [] {
      assert log + e == log;
    } else {
      assert log + e == log + [e[0]];
      RunSnoc(c, log, e[0]);
      assert (log + [e[0]])[..|log|] == log;
    }
  }

  /** The schedule so far is an atomic run with a monotone clock. */
  predicate Atomic(c: Config, s: Sys, log: seq<Event>) {
    Timed(log) && Inv(c, s, LastTime(log)) && Run(c, log) == Abs(c, s)
  }

  lemma {:induction false} StepStaysAtomic(c: Config, s: Sys, log: seq<Event>, m: Move)
    requires Atomic(c, s, log)
    ensures Atomic(c, Next(c, s, m), log + Effect(c, s, m, LastTime(log)))
  {
    var last := LastTime(log);
    StepSimulates(c, s, m, last);
    LogGrows(c, log, Abs(c, Next(c, s, m)), Effect(c, s, m, last), Next(c, s, m).clock);
  }

  /** Every interleaving is an atomic run with a monotone clock: replaying the
      log gives the breaker the state stands for. */
  lemma {:induction false} InterleavingsAreAtomicRuns(c: Config, n: nat, ms: seq<Move>)
    ensures Atomic(c, Execute(c, n, ms), Log(c, n, ms))
  {
    if ms != [] {
      var before := ms[..|ms| - 1];
      InterleavingsAreAtomicRuns(c, n, before);
      StepStaysAtomic(c, Execute(c, n, before), Log(c, n, before), ms[|ms| - 1]);
    }
  }

  /** With the mutex free, the fields in memory are the atomic breaker's. */
  predicate Settled(c: Config, s: Sys, log: seq<Event>) {
    s.lock.Free? ==> s.b == Run(c, log) && s.shadow == s.b.mode
  }

  lemma {:induction false} AtomicIsSettled(c: Config, s: Sys, log: seq<Event>)
    requires Atomic(c, s, log)
    ensures Settled(c, s, log)
  {
  }

  /** Whenever the mutex is free the fields in memory are the atomic breaker's. */
  lemma {:induction false} FreeMutexShowsTheAtomicBreaker(c: Config, n: nat, ms: seq<Move>)
    ensures Settled(c, Execute(c, n, ms), Log(c, n, ms))
  {
    InterleavingsAreAtomicRuns(c, n, ms);
    AtomicIsSettled(c, Execute(c, n, ms), Log(c, n, ms));
  }

  /** A step lets a call take effect exactly when it appends to the log. The
      call is the acting goroutine's own, has not taken effect before, and its
      answer is the one the atomic breaker gives at that instant; afterwards
      it stays in effect until it returns. */
  lemma {:induction false} EffectsAreInsideTheirCalls(c: Config, n: nat, ms: seq<Move>, t: nat)
    requires t < |Execute(c, n, ms).pcs|
    ensures var s, log := Execute(c, n, ms), Log(c, n, ms);
            var s' := Next(c, s, Act(t));
            var e := Effect(c, s, Act(t), LastTime(log));
            && |s'.pcs| == |s.pcs|
            && (e != [] <==> !Effective(s.pcs[t]) && Effective(s'.pcs[t]))
            && AnswersLike(c, Run(c, log), e, s'.pcs[t])
            && (Effective(s.pcs[t]) ==> Effective(s'.pcs[t]))
            && (s'.pcs[t].Idle? ==> s.pcs[t].Idle? || s.pcs[t].Return?)
  {
    InterleavingsAreAtomicRuns(c, n, ms);
    var s, last := Execute(c, n, ms), LastTime(Log(c, n, ms));
    StepSimulates(c, s, Act(t), last);
    EffectIsOnce(c, s, t, last);
  }

  lemma {:induction false} EffectIsOnce(c: Config, s: Sys, t: nat, last: int)
    requires Inv(c, s, last) && t < |s.pcs|
    ensures var s' := Next(c, s, Act(t));
            && (Effect(c, s, Act(t), last) != [] <==> !Effective(s.pcs[t]) && Effective(s'.pcs[t]))
            && (Effective(s.pcs[t]) ==> Effective(s'.pcs[t]))
            && (s'.pcs[t].Idle? ==> s.pcs[t].Idle? || s.pcs[t].Return?)
  {
  }

  /** In every interleaving, a failure recorded while the breaker is closed
      opens it exactly when the failures of the last window reach the threshold. */
  lemma {:induction false} InterleavedFailuresTripExactly(c: Config, n: nat, ms: seq<Move>, m: Move, e: Event)
    requires Effect(c, Execute(c, n, ms), m, LastTime(Log(c, n, ms))) == [e]
    requires e.Failure? && Run(c, Log(c, n, ms)).mode == Closed
    ensures Abs(c, Execute(c, n, ms + [m])).mode == Open
       <==> CountRecent(FailuresSinceClose(c, Log(c, n, ms)), e.prune - c.window) + 1 >= c.failureThreshold
  {
    InterleavingsAreAtomicRuns(c, n, ms);
    assert (ms + [m])[..|ms|] == ms;
    TripsLikeTheAtomicBreaker(c, Execute(c, n, ms), Log(c, n, ms), m, e);
  }

  lemma {:induction false} TripsLikeTheAtomicBreaker(c: Config, s: Sys, log: seq<Event>, m: Move, e: Event)
    requires Atomic(c, s, log) && Effect(c, s, m, LastTime(log)) == [e]
    requires e.Failure? && Run(c, log).mode == Closed
    ensures Abs(c, Next(c, s, m)).mode == Open
       <==> CountRecent(FailuresSinceClose(c, log), e.prune - c.window) + 1 >= c.failureThreshold
  {
    StepSimulates(c, s, m, LastTime(log));
    OpensExactly(c, log, e.prune, e.stamp, e.trip);
  }

  /** In every interleaving, a call that takes effect while the breaker is open is
      admitted exactly when the open duration has passed since the failure that
      opened it read the clock. */
  lemma {:induction false} InterleavedOpenPeriodLasts(c: Config, n: nat, ms: seq<Move>, t: nat, now: int)
      returns (i: nat)
    requires t < |Execute(c, n, ms).pcs| && Abs(c, Execute(c, n, ms)).mode == Open
    requires Effect(c, Execute(c, n, ms), Act(t), LastTime(Log(c, n, ms))) == [Allow(now)]
    ensures OpenFrom(c, Log(c, n, ms), i)
    ensures var pc := Next(c, Execute(c, n, ms), Act(t)).pcs[t];
      (pc.Return? || pc.Unlock?) && (pc.answer <==> now > Log(c, n, ms)[i].trip + c.openDuration)
  {
    InterleavingsAreAtomicRuns(c, n, ms);
    i := OpenPeriodLasts(c, Log(c, n, ms));
    EffectsAreInsideTheirCalls(c, n, ms, t);
  }

  /** And every effect changes the state as the history of effects demands. */
  lemma {:induction false} InterleavedChangesExactly(c: Config, n: nat, ms: seq<Move>, m: Move, e: Event)
    requires Effect(c, Execute(c, n, ms), m, LastTime(Log(c, n, ms))) == [e]
    ensures var log, mode := Log(c, n, ms), Abs(c, Execute(c, n, ms + [m])).mode;
      && (forall i: nat :: OpenFrom(c, log, i) ==>
            mode == if e.Allow? && e.now > log[i].trip + c.openDuration then HalfOpen else Open)
      && (forall k: nat :: PeriodFrom(c, log, k) ==>
            mode == if e.Failure? then Open
                    else if e.Success? && SuccessesFrom(log, k) + 1 >= c.successThreshold then Closed else HalfOpen)
  {
    var log := Log(c, n, ms);
    assert (ms + [m])[..|ms|] == ms;
    InterleavingsAreAtomicRuns(c, n, ms + [m]);
    assert Log(c, n, ms + [m]) == log + [e];
    ChangesExactly(c, log, e);
  }
}
