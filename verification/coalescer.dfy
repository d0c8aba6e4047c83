/** The coalescer: identical concurrent requests share a backend call, and a
    guard (the circuit breaker) is asked only when nobody is inside for the key. */
module Coalescer {
  import opened CacheKeys

  /** Where a goroutine is inside `DoWithGuard`. */
  datatype PC =
    | Entered(key: Key)                           // counted, before the shared call
    | Leading(key: Key)                           // running the backend call
    | Waiting(key: Key, call: nat)                // joined the call that `call` leads
    | Returning(key: Key, call: nat, res: nat)    // has the answer, still counted

  /** `calls` is the singleflight group: the leader of each running call.
      `crashed` are the calls that panicked, and `lost` counts, for each key, the
      goroutines that left by a panic and so never lowered the count. */
  datatype State = State(
    inflight: map<Key, nat>,
    threads: map<nat, PC>,
    calls: map<Key, nat>,
    results: map<nat, nat>,
    crashed: set<nat>,
    lost: map<Key, nat>,
    next: nat)

  /** `guard` is the answer the guard gives if it is asked at that moment. `Panic`
      ends the backend call of a leader, and `Crash` passes it on to a waiter. */
  datatype Event =
    | Enter(key: Key, guard: bool)
    | Begin(t: nat)
    | Finish(t: nat, res: nat)
    | Wake(t: nat)
    | Leave(t: nat)
    | Panic(t: nat)
    | Crash(t: nat)

  const IDLE := State(map[], map[], map[], map[], {}, map[], 0)

  function CountIn(m: map<Key, nat>, k: Key): nat {
    if k in m then m[k] else 0
  }

  function Count(s: State, k: Key): nat {
    CountIn(s.inflight, k)
  }

  function Raised(m: map<Key, nat>, k: Key): map<Key, nat> {
    m[k := CountIn(m, k) + 1]
  }

  /** One less, and no entry at zero. */
  function Lowered(m: map<Key, nat>, k: Key): map<Key, nat> {
    if CountIn(m, k) <= 1 then m - {k} else m[k := m[k] - 1]
  }

  predicate Enabled(s: State, e: Event) {
    match e
    case Enter(_, _) => true
    case Begin(t) => t in s.threads && s.threads[t].Entered?
    case Finish(t, _) => t in s.threads && s.threads[t].Leading?
    case Wake(t) => t in s.threads && s.threads[t].Waiting? && s.threads[t].call in s.results
    case Leave(t) => t in s.threads && s.threads[t].Returning?
    case Panic(t) => t in s.threads && s.threads[t].Leading?
    case Crash(t) => t in s.threads && s.threads[t].Waiting? && s.threads[t].call in s.crashed
  }

  function EnterStep(s: State, k: Key, guard: bool): State {
    if Count(s, k) == 0 && !guard then s.(next := s.next + 1) else AdmitStep(s, k)
  }

  function AdmitStep(s: State, k: Key): State {
    s.(inflight := Raised(s.inflight, k), threads := s.threads[s.next := Entered(k)], next := s.next + 1)
  }

  function BeginStep(s: State, t: nat): State
    requires Enabled(s, Begin(t))
  {
    var k := s.threads[t].key;
    if k in s.calls then s.(threads := s.threads[t := Waiting(k, s.calls[k])])
    else s.(threads := s.threads[t := Leading(k)], calls := s.calls[k := t])
  }

  function FinishStep(s: State, t: nat, res: nat): State
    requires Enabled(s, Finish(t, res))
  {
    var k := s.threads[t].key;
    s.(threads := s.threads[t := Returning(k, t, res)], calls := s.calls - {k}, results := s.results[t := res])
  }

  function WakeStep(s: State, t: nat): State
    requires Enabled(s, Wake(t))
  {
    var p := s.threads[t];
    s.(threads := s.threads[t := Returning(p.key, p.call, s.results[p.call])])
  }

  function LeaveStep(s: State, t: nat): State
    requires Enabled(s, Leave(t))
  {
    s.(inflight := Lowered(s.inflight, s.threads[t].key), threads := s.threads - {t})
  }

  /** The leader leaves without lowering the count; its waiters will follow. */
  function PanicStep(s: State, t: nat): State
    requires Enabled(s, Panic(t))
  {
    var k := s.threads[t].key;
    s.(threads := s.threads - {t}, calls := s.calls - {k}, crashed := s.crashed + {t}, lost := Raised(s.lost, k))
  }

  function CrashStep(s: State, t: nat): State
    requires Enabled(s, Crash(t))
  {
    s.(threads := s.threads - {t}, lost := Raised(s.lost, s.threads[t].key))
  }

  function Step(s: State, e: Event): State {
    if !Enabled(s, e) then s
    else
      match e
      case Enter(k, guard) => EnterStep(s, k, guard)
      case Begin(t) => BeginStep(s, t)
      case Finish(t, res) => FinishStep(s, t, res)
      case Wake(t) => WakeStep(s, t)
      case Leave(t) => LeaveStep(s, t)
      case Panic(t) => PanicStep(s, t)
      case Crash(t) => CrashStep(s, t)
  }

  function Run(es: seq<Event>): State {
    if es == [] then IDLE else Step(Run(es[..|es| - 1]), es[|es| - 1])
  }

  lemma {:induction false} RunOne(es: seq<Event>, e: Event)
    ensures Run(es + [e]) == Step(Run(es), e)
  {
    assert (es + [e])[..|es|] == es;
  }

  // ---------------------------------------------------------------------------
  // What every interleaving keeps
  // ---------------------------------------------------------------------------

  function Lost(s: State, k: Key): nat {
    CountIn(s.lost, k)
  }

  function Inside(s: State, k: Key): set<nat> {
    set t | t in s.threads && s.threads[t].key == k
  }

  ghost predicate CountsExact(s: State) {
    && (forall k :: Count(s, k) == |Inside(s, k)| + Lost(s, k))
    && (forall k :: k in s.inflight ==> s.inflight[k] > 0)
  }

  predicate OneLeader(s: State) {
    && (forall k :: k in s.calls ==> s.calls[k] in s.threads && s.threads[s.calls[k]] == Leading(k))
    && (forall t :: t in s.threads && s.threads[t].Leading? ==>
          s.threads[t].key in s.calls && s.calls[s.threads[t].key] == t && t !in s.results)
  }

  predicate WaiterOk(s: State, p: PC) {
    match p
    case Waiting(k, c) => c in s.results || (c in s.crashed && Lost(s, k) > 0) || (k in s.calls && s.calls[k] == c)
    case Returning(_, c, res) => c in s.results && s.results[c] == res
    case _ => true
  }

  predicate Answers(s: State) {
    && (forall t :: t in s.threads ==> t < s.next && WaiterOk(s, s.threads[t]))
    && (forall t :: t in s.threads && s.threads[t].Entered? ==> t !in s.results)
    && (forall t :: t in s.results ==> t < s.next)
    && (forall t :: t in s.crashed ==> t < s.next && t !in s.threads && t !in s.results)
  }

  lemma {:induction false} AdmitCount(s: State, k: Key, j: Key)
    requires Count(s, j) == |Inside(s, j)| + Lost(s, j) && s.next !in s.threads
    ensures var s' := AdmitStep(s, k); Count(s', j) == |Inside(s', j)| + Lost(s', j)
  {
    assert Inside(AdmitStep(s, k), j) == if j == k then Inside(s, j) + {s.next} else Inside(s, j);
  }

  lemma AdmitCounts(s: State, k: Key)
    requires CountsExact(s) && s.next !in s.threads
    ensures CountsExact(AdmitStep(s, k))
  {
    var s' := AdmitStep(s, k);
    forall j ensures Count(s', j) == |Inside(s', j)| + Lost(s', j) {
      AdmitCount(s, k, j);
    }
  }

  lemma EnterCounts(s: State, k: Key, guard: bool)
    requires CountsExact(s) && s.next !in s.threads
    ensures CountsExact(EnterStep(s, k, guard))
  {
    if Count(s, k) == 0 && !guard {
      MoveCounts(s, EnterStep(s, k, guard));
    } else {
      AdmitCounts(s, k);
    }
  }

  /** A step that only moves a goroutine within its call. */
  lemma MoveCounts(s: State, s': State)
    requires CountsExact(s) && s'.inflight == s.inflight && s'.lost == s.lost && s'.threads.Keys == s.threads.Keys
    requires forall t :: t in s.threads ==> s'.threads[t].key == s.threads[t].key
    ensures CountsExact(s')
  {
    forall k ensures Count(s', k) == |Inside(s', k)| + Lost(s', k) {
      assert Inside(s', k) == Inside(s, k);
    }
  }

  lemma {:induction false} LeaveCounts(s: State, t: nat)
    requires CountsExact(s) && Enabled(s, Leave(t))
    ensures CountsExact(LeaveStep(s, t))
  {
    var s', k := LeaveStep(s, t), s.threads[t].key;
    assert t in Inside(s, k);
    forall j ensures Count(s', j) == |Inside(s', j)| + Lost(s', j) {
      if j == k {
        assert Inside(s', k) == Inside(s, k) - {t};
      } else {
        assert Inside(s', j) == Inside(s, j);
      }
    }
  }

  /** A goroutine that panics is lost, and the count stays. */
  lemma {:induction false} LostCounts(s: State, t: nat, s': State)
    requires CountsExact(s) && t in s.threads && s'.inflight == s.inflight
    requires s'.threads == s.threads - {t} && s'.lost == Raised(s.lost, s.threads[t].key)
    ensures CountsExact(s')
  {
    var k := s.threads[t].key;
    forall j ensures Count(s', j) == |Inside(s', j)| + Lost(s', j) {
      if j == k {
        assert t in Inside(s, k) && Inside(s', k) == Inside(s, k) - {t};
      } else {
        assert Inside(s', j) == Inside(s, j);
      }
    }
  }

  lemma StepKeepsCounts(s: State, e: Event)
    requires CountsExact(s) && Answers(s)
    ensures CountsExact(Step(s, e))
  {
    if Enabled(s, e) {
      match e
      case Enter(k, guard) => EnterCounts(s, k, guard);
      case Leave(t) => LeaveCounts(s, t);
      case Panic(t) => LostCounts(s, t, Step(s, e));
      case Crash(t) => LostCounts(s, t, Step(s, e));
      case _ => MoveCounts(s, Step(s, e));
    }
  }

  lemma EnterKeepsCalls(s: State, k: Key, guard: bool)
    requires OneLeader(s) && Answers(s)
    ensures OneLeader(EnterStep(s, k, guard)) && Answers(EnterStep(s, k, guard))
  {
    if Count(s, k) == 0 && !guard { SkipKeepsCalls(s); } else { AdmitKeepsCalls(s, k); }
  }

  lemma SkipKeepsCalls(s: State)
    requires OneLeader(s) && Answers(s)
    ensures OneLeader(s.(next := s.next + 1)) && Answers(s.(next := s.next + 1))
  {
  }

  lemma AdmitKeepsCalls(s: State, k: Key)
    requires OneLeader(s) && Answers(s)
    ensures OneLeader(AdmitStep(s, k)) && Answers(AdmitStep(s, k))
  {
    var s' := AdmitStep(s, k);
    forall t | t in s'.threads ensures t < s'.next && WaiterOk(s', s'.threads[t]) {
      if t in s.threads { assert WaiterOk(s, s.threads[t]); }
    }
  }

  lemma {:induction false} JoinKeepsCalls(s: State, t: nat)
    requires OneLeader(s) && Answers(s) && Enabled(s, Begin(t)) && s.threads[t].key in s.calls
    ensures OneLeader(BeginStep(s, t)) && Answers(BeginStep(s, t))
  {
  }

  lemma {:induction false} LeadKeepsCalls(s: State, t: nat)
    requires OneLeader(s) && Answers(s) && Enabled(s, Begin(t)) && s.threads[t].key !in s.calls
    ensures OneLeader(BeginStep(s, t)) && Answers(BeginStep(s, t))
  {
  }

  lemma {:induction false} BeginKeepsCalls(s: State, t: nat)
    requires OneLeader(s) && Answers(s) && Enabled(s, Begin(t))
    ensures OneLeader(BeginStep(s, t)) && Answers(BeginStep(s, t))
  {
    if s.threads[t].key in s.calls { JoinKeepsCalls(s, t); } else { LeadKeepsCalls(s, t); }
  }

  lemma {:induction false} FinishKeepsCalls(s: State, t: nat, res: nat)
    requires OneLeader(s) && Answers(s) && Enabled(s, Finish(t, res))
    ensures OneLeader(FinishStep(s, t, res)) && Answers(FinishStep(s, t, res))
  {
  }

  lemma {:induction false} WakeKeepsCalls(s: State, t: nat)
    requires OneLeader(s) && Answers(s) && Enabled(s, Wake(t))
    ensures OneLeader(WakeStep(s, t)) && Answers(WakeStep(s, t))
  {
  }

  lemma {:induction false} LeaveKeepsCalls(s: State, t: nat)
    requires OneLeader(s) && Answers(s) && Enabled(s, Leave(t))
    ensures OneLeader(LeaveStep(s, t)) && Answers(LeaveStep(s, t))
  {
  }

  lemma {:induction false} PanicKeepsCalls(s: State, t: nat)
    requires OneLeader(s) && Answers(s) && Enabled(s, Panic(t))
    ensures OneLeader(PanicStep(s, t)) && Answers(PanicStep(s, t))
  {
  }

  lemma {:induction false} CrashKeepsCalls(s: State, t: nat)
    requires OneLeader(s) && Answers(s) && Enabled(s, Crash(t))
    ensures OneLeader(CrashStep(s, t)) && Answers(CrashStep(s, t))
  {
  }

  lemma StepKeepsCalls(s: State, e: Event)
    requires OneLeader(s) && Answers(s)
    ensures OneLeader(Step(s, e)) && Answers(Step(s, e))
  {
    if Enabled(s, e) {
      match e
      case Enter(k, guard) => EnterKeepsCalls(s, k, guard);
      case Begin(t) => BeginKeepsCalls(s, t);
      case Finish(t, res) => FinishKeepsCalls(s, t, res);
      case Wake(t) => WakeKeepsCalls(s, t);
      case Leave(t) => LeaveKeepsCalls(s, t);
      case Panic(t) => PanicKeepsCalls(s, t);
      case Crash(t) => CrashKeepsCalls(s, t);
    }
  }

  /** In every run the count of a key is the number of goroutines inside for it
      and of those that a panic took out of it, no zero entry stays, and at most
      one backend call per key is running: the one the singleflight group names. */
  lemma {:induction false} EveryInterleaving(es: seq<Event>)
    ensures CountsExact(Run(es)) && OneLeader(Run(es)) && Answers(Run(es))
  {
    if es == [] {
      forall k ensures Inside(IDLE, k) == {} {
      }
    } else {
      EveryInterleaving(es[..|es| - 1]);
      var s, e := Run(es[..|es| - 1]), es[|es| - 1];
      StepKeepsCounts(s, e);
      StepKeepsCalls(s, e);
    }
  }

  // ---------------------------------------------------------------------------
  // Busy periods
  // ---------------------------------------------------------------------------

  /** Where the present busy period of `k` began; the end if `k` is idle. */
  function PeriodStart(es: seq<Event>, k: Key): (p: nat)
    ensures p <= |es|
    ensures Count(Run(es), k) > 0 ==> p < |es|
  {
    if es == [] || Count(Run(es), k) == 0 then |es|
    else if Count(Run(es[..|es| - 1]), k) == 0 then |es| - 1
    else PeriodStart(es[..|es| - 1], k)
  }

  ghost predicate BusySince(es: seq<Event>, k: Key, p: nat) {
    && p < |es|
    && es[p] == Enter(k, true) && CountAt(es, p, k) == 0
    && (forall j :: p < j <= |es| ==> CountAt(es, j, k) > 0)
  }

  /** The count of `k` after the first `j` events. */
  function CountAt(es: seq<Event>, j: nat, k: Key): nat
    requires j <= |es|
  {
    Count(Run(es[..j]), k)
  }

  /** Event `j` consults the guard for `k`. */
  predicate Asks(es: seq<Event>, j: nat, k: Key)
    requires j < |es|
  {
    es[j].Enter? && es[j].key == k && CountAt(es, j, k) == 0
  }

  /** Only an accepted guard takes a key from idle to busy. */
  lemma OnlyAGuardOpens(s: State, e: Event, k: Key)
    requires CountsExact(s)
    requires Count(s, k) == 0 && Count(Step(s, e), k) > 0
    ensures e == Enter(k, true)
  {
  }

  lemma {:induction false} InsideIsCounted(s: State, t: nat)
    requires CountsExact(s) && t in s.threads
    ensures Count(s, s.threads[t].key) > 0
  {
    assert t in Inside(s, s.threads[t].key);
  }

  /** One more event within a busy period. */
  lemma {:induction false} PeriodGoesOn(es: seq<Event>, e: Event, k: Key)
    requires Count(Run(es), k) > 0 && Count(Run(es + [e]), k) > 0
    ensures PeriodStart(es + [e], k) == PeriodStart(es, k)
    ensures CallsInPeriod(es + [e], k) == CallsInPeriod(es, k) + (if Starts(Run(es), e, k) then 1 else 0)
  {
    assert (es + [e])[..|es|] == es;
  }

  lemma {:induction false} PrefixCount(es: seq<Event>, e: Event, j: nat, k: Key)
    requires j <= |es|
    ensures CountAt(es + [e], j, k) == CountAt(es, j, k)
  {
    assert (es + [e])[..j] == es[..j];
  }

  lemma {:induction false} WholeCount(es: seq<Event>, k: Key)
    ensures CountAt(es, |es|, k) == Count(Run(es), k)
  {
    assert es[..|es|] == es;
  }

  lemma {:induction false} BusyGoesOn(es: seq<Event>, e: Event, k: Key, p: nat)
    requires BusySince(es, k, p) && CountAt(es + [e], |es| + 1, k) > 0
    ensures BusySince(es + [e], k, p)
  {
    forall j: nat | j <= |es| ensures CountAt(es + [e], j, k) == CountAt(es, j, k) {
      PrefixCount(es, e, j, k);
    }
  }

  lemma {:induction false} OpenedBy(es: seq<Event>, e: Event, k: Key)
    requires CountsExact(Run(es)) && Count(Run(es), k) == 0 && Count(Run(es + [e]), k) > 0
    ensures e == Enter(k, true)
  {
    RunOne(es, e);
    OnlyAGuardOpens(Run(es), e, k);
  }

  lemma {:induction false} BusyBegins(es: seq<Event>, e: Event, k: Key)
    requires CountsExact(Run(es)) && Count(Run(es), k) == 0 && Count(Run(es + [e]), k) > 0
    ensures BusySince(es + [e], k, |es|)
  {
    OpenedBy(es, e, k);
    PrefixCount(es, e, |es|, k);
    WholeCount(es, k);
    WholeCount(es + [e], k);
  }

  lemma {:induction false} PeriodIsBusy(es: seq<Event>, k: Key)
    requires Count(Run(es), k) > 0
    ensures BusySince(es, k, PeriodStart(es, k))
  {
    var init, e := es[..|es| - 1], es[|es| - 1];
    assert es == init + [e];
    EveryInterleaving(init);
    if Count(Run(init), k) == 0 {
      BusyBegins(init, e, k);
    } else {
      PeriodIsBusy(init, k);
      WholeCount(es, k);
      BusyGoesOn(init, e, k, PeriodStart(init, k));
      PeriodGoesOn(init, e, k);
    }
  }

  /** Every busy period begins with exactly one accepted guard, asked when nobody
      was inside, and the guard is not asked again before the period ends. */
  lemma {:induction false} OneGuardPerPeriod(es: seq<Event>, k: Key)
    requires Count(Run(es), k) > 0
    ensures BusySince(es, k, PeriodStart(es, k))
    ensures forall j :: PeriodStart(es, k) <= j < |es| ==> (Asks(es, j, k) <==> j == PeriodStart(es, k))
  {
    PeriodIsBusy(es, k);
    AskedOnce(es, k, PeriodStart(es, k));
  }

  lemma {:induction false} AskedOnce(es: seq<Event>, k: Key, p: nat)
    requires BusySince(es, k, p)
    ensures forall j :: p <= j < |es| ==> (Asks(es, j, k) <==> j == p)
  {
    assert forall j :: p < j < |es| ==> CountAt(es, j, k) > 0;
  }

  /** A caller is rejected exactly when nobody is inside, no goroutine was lost and
      the guard says no, and a rejection changes no count. */
  lemma {:induction false} RejectsOnlyWhenIdle(es: seq<Event>, k: Key, guard: bool)
    ensures var s, s' := Run(es), Step(Run(es), Enter(k, guard));
      s.next !in s'.threads <==> (Inside(s, k) == {} && Lost(s, k) == 0 && !guard)
    ensures var s, s' := Run(es), Step(Run(es), Enter(k, guard));
      s.next !in s'.threads ==> s'.inflight == s.inflight && s'.threads == s.threads && s'.calls == s.calls
  {
    EveryInterleaving(es);
  }

  // ---------------------------------------------------------------------------
  // A panic takes the guard away
  // ---------------------------------------------------------------------------

  /** Event `j` ends a backend call for `k` by a panic. */
  predicate Panics(es: seq<Event>, j: nat, k: Key) {
    j < |es| && es[j].Panic? && Enabled(Run(es[..j]), es[j]) && Run(es[..j]).threads[es[j].t].key == k
  }

  lemma {:induction false} PanicsLater(es: seq<Event>, e: Event, j: nat, k: Key)
    requires Panics(es, j, k)
    ensures Panics(es + [e], j, k)
  {
    assert (es + [e])[..j] == es[..j];
  }

  lemma LostStep(s: State, e: Event, k: Key)
    requires OneLeader(s) && Answers(s)
    ensures Lost(s, k) <= Lost(Step(s, e), k)
    ensures Lost(s, k) == 0 && Lost(Step(s, e), k) > 0 ==>
      e.Panic? && Enabled(s, e) && s.threads[e.t].key == k
    ensures e.Panic? && Enabled(s, e) && s.threads[e.t].key == k ==> Lost(Step(s, e), k) > 0
  {
  }

  /** Goroutines of a key are lost exactly if one of its backend calls panicked. */
  lemma {:induction false} LostExactly(es: seq<Event>, k: Key)
    ensures Lost(Run(es), k) > 0 <==> exists j: nat :: Panics(es, j, k)
  {
    if es != [] {
      var init, e := es[..|es| - 1], es[|es| - 1];
      assert es == init + [e] && es[..|init|] == init;
      LostExactly(init, k);
      EveryInterleaving(init);
      LostStep(Run(init), e, k);
      if exists j: nat :: Panics(init, j, k) {
        var j: nat :| Panics(init, j, k);
        PanicsLater(init, e, j, k);
      } else if Lost(Run(es), k) > 0 {
        assert Panics(es, |init|, k);
      } else {
        forall j: nat ensures !Panics(es, j, k) {
          if j < |init| { assert init[..j] == es[..j] && !Panics(init, j, k); }
        }
      }
    }
  }

  /** A caller gets past a guard that would refuse it, with nobody inside to share
      a call with, exactly if a backend call for its key has panicked before. */
  lemma {:induction false} GuardBypassedExactly(es: seq<Event>, k: Key)
    requires Inside(Run(es), k) == {}
    ensures Run(es).next in Step(Run(es), Enter(k, false)).threads <==> exists j: nat :: Panics(es, j, k)
  {
    RejectsOnlyWhenIdle(es, k, false);
    LostExactly(es, k);
  }

  /** After a panic the guard is never asked again for the key. */
  lemma {:induction false} NeverAskedAgain(es: seq<Event>, k: Key, i: nat)
    requires Panics(es, i, k)
    ensures forall j :: i < j < |es| ==> !Asks(es, j, k)
  {
    forall j | i < j < |es| ensures CountAt(es, j, k) > 0 {
      assert es[..j][..i] == es[..i] && Panics(es[..j], i, k);
      LostExactly(es[..j], k);
      EveryInterleaving(es[..j]);
    }
  }

  /** One call that panics is enough: nobody is inside, and the next caller is let
      in although the guard refuses. */
  lemma OnePanicIsEnough(k: Key)
    ensures var es := [Enter(k, true), Begin(0), Panic(0)];
      Inside(Run(es), k) == {} && Count(Run(es), k) == 1 && 1 in Step(Run(es), Enter(k, false)).threads
  {
    var e1, e2, e3 := Enter(k, true), Begin(0), Panic(0);
    assert [] + [e1] + [e2] + [e3] == [e1, e2, e3];
    RunOne([], e1);
    RunOne([] + [e1], e2);
    RunOne([] + [e1] + [e2], e3);
  }

  // ---------------------------------------------------------------------------
  // Calls lie inside periods, and answers are fresh
  // ---------------------------------------------------------------------------

  /** Goroutine `t` was admitted for `k` by event `i`. */
  predicate Enters(es: seq<Event>, i: nat, t: nat, k: Key) {
    i < |es| && es[i].Enter? && es[i].key == k && Run(es[..i]).next == t
  }

  /** Event `j` is the end of the backend call that `c` leads for `k`. */
  predicate Finishes(es: seq<Event>, j: nat, c: nat, k: Key, res: nat) {
    && j < |es| && es[j] == Finish(c, res)
    && c in Run(es[..j]).threads && Run(es[..j]).threads[c] == Leading(k)
  }

  ghost predicate FreshAnswer(es: seq<Event>, s: State, i: nat, p: PC) {
    match p
    case Waiting(k, c) => c in s.results ==> exists j :: i < j && Finishes(es, j, c, k, s.results[c])
    case Returning(k, c, res) => exists j :: i < j && Finishes(es, j, c, k, res)
    case _ => true
  }

  lemma {:induction false} EntersLater(es: seq<Event>, e: Event, i: nat, t: nat, k: Key)
    requires Enters(es, i, t, k)
    ensures Enters(es + [e], i, t, k)
  {
    assert (es + [e])[..i] == es[..i];
  }

  lemma {:induction false} FinishesLater(es: seq<Event>, e: Event, j: nat, c: nat, k: Key, res: nat)
    requires Finishes(es, j, c, k, res)
    ensures Finishes(es + [e], j, c, k, res)
  {
    assert (es + [e])[..j] == es[..j];
  }

  lemma {:induction false} FinishIsFresh(es: seq<Event>, s: State, e: Event)
    requires s == Run(es) && e.Finish? && Enabled(s, e)
    ensures Finishes(es + [e], |es|, e.t, s.threads[e.t].key, e.res)
  {
    assert (es + [e])[..|es|] == es;
  }

  /** A waiter waits on or takes the result of the call it joined. */
  lemma {:induction false} WaiterNext(s: State, e: Event, t: nat, s': State)
    requires OneLeader(s) && Answers(s) && s' == Step(s, e)
    requires t in s.threads && s.threads[t].Waiting? && t in s'.threads
    ensures var p := s.threads[t];
      s'.threads[t] == p || (p.call in s.results && s'.threads[t] == Returning(p.key, p.call, s.results[p.call]))
  {
  }

  /** A result appears only when the leader of its call finishes. */
  lemma {:induction false} ResultNext(s: State, e: Event, c: nat, k: Key, s': State)
    requires OneLeader(s) && Answers(s) && s' == Step(s, e)
    requires c in s.results || c in s.crashed || (k in s.calls && s.calls[k] == c)
    ensures c in s.results ==> c in s'.results && s'.results[c] == s.results[c]
    ensures c !in s.results && c in s'.results ==>
      e == Finish(c, s'.results[c]) && Enabled(s, e) && s.threads[c] == Leading(k)
  {
  }

  lemma {:induction false} WaiterStep(es: seq<Event>, s: State, e: Event, i: nat, t: nat, s': State)
    requires s == Run(es) && OneLeader(s) && Answers(s) && s' == Step(s, e)
    requires i < |es| && t in s.threads && t in s'.threads
    requires s.threads[t].Waiting? && FreshAnswer(es, s, i, s.threads[t])
    ensures FreshAnswer(es + [e], s', i, s'.threads[t])
  {
    WaiterNext(s, e, t, s');
    var p := s.threads[t];
    ResultNext(s, e, p.call, p.key, s');
    if p.call in s.results {
      var j :| i < j && Finishes(es, j, p.call, p.key, s.results[p.call]);
      FinishesLater(es, e, j, p.call, p.key, s.results[p.call]);
    } else if p.call in s'.results {
      FinishIsFresh(es, s, e);
    }
  }

  lemma {:induction false} OthersNext(s: State, e: Event, t: nat, s': State)
    requires OneLeader(s) && Answers(s) && s' == Step(s, e)
    requires t in s.threads && t in s'.threads && !s.threads[t].Waiting?
    ensures s.threads[t].Returning? ==> s'.threads[t] == s.threads[t]
    ensures s'.threads[t].Waiting? ==> s'.threads[t].call !in s'.results
    ensures !s.threads[t].Returning? && s'.threads[t].Returning? ==>
      e.Finish? && e.t == t && Enabled(s, e) && s'.threads[t] == Returning(s.threads[t].key, t, e.res)
  {
  }

  /** A goroutine that was already inside keeps what is known about it. */
  lemma {:induction false} FreshStep(es: seq<Event>, s: State, e: Event, i: nat, t: nat, s': State)
    requires s == Run(es) && OneLeader(s) && Answers(s) && s' == Step(s, e)
    requires i < |es| && t in s.threads && t in s'.threads && FreshAnswer(es, s, i, s.threads[t])
    ensures FreshAnswer(es + [e], s', i, s'.threads[t])
  {
    var p := s.threads[t];
    if p.Waiting? {
      WaiterStep(es, s, e, i, t, s');
    } else {
      OthersNext(s, e, t, s');
      if p.Returning? {
        var j :| i < j && Finishes(es, j, p.call, p.key, p.res);
        FinishesLater(es, e, j, p.call, p.key, p.res);
      } else if s'.threads[t].Returning? {
        FinishIsFresh(es, s, e);
      }
    }
  }

  /** A goroutine inside was admitted by some event, and an answer it has comes
      from a backend call for its key that was still running after it entered. */
  lemma {:induction false} AnswersAreFresh(es: seq<Event>, t: nat) returns (i: nat)
    requires t in Run(es).threads
    ensures Enters(es, i, t, Run(es).threads[t].key)
    ensures FreshAnswer(es, Run(es), i, Run(es).threads[t])
    ensures PeriodStart(es, Run(es).threads[t].key) <= i
  {
    var init, e := es[..|es| - 1], es[|es| - 1];
    assert es == init + [e];
    EveryInterleaving(init);
    EveryInterleaving(es);
    RunOne(init, e);
    InsideIsCounted(Run(es), t);
    if t in Run(init).threads {
      InsideIsCounted(Run(init), t);
      i := AnswersAreFresh(init, t);
      StaysInside(Run(init), e, t);
      EntersLater(init, e, i, t, Run(init).threads[t].key);
      FreshStep(init, Run(init), e, i, t, Run(es));
      PeriodGoesOn(init, e, Run(init).threads[t].key);
    } else {
      i := |init|;
      JustEntered(init, e, t);
    }
  }

  lemma {:induction false} StaysInside(s: State, e: Event, t: nat)
    requires Answers(s) && t in s.threads && t in Step(s, e).threads
    ensures Step(s, e).threads[t].key == s.threads[t].key
  {
  }

  lemma {:induction false} JustEntered(es: seq<Event>, e: Event, t: nat)
    requires t !in Run(es).threads && t in Step(Run(es), e).threads
    ensures var p := Step(Run(es), e).threads[t];
      p.Entered? && Enters(es + [e], |es|, t, p.key)
  {
    assert (es + [e])[..|es|] == es;
  }

  /** Every running backend call lies inside a busy period that an accepted guard
      opened no later than the leader entered. */
  lemma {:induction false} CallsAreGuarded(es: seq<Event>, k: Key)
    requires k in Run(es).calls
    ensures BusySince(es, k, PeriodStart(es, k))
    ensures exists i :: PeriodStart(es, k) <= i && Enters(es, i, Run(es).calls[k], k)
  {
    EveryInterleaving(es);
    var t := Run(es).calls[k];
    assert t in Inside(Run(es), k);
    OneGuardPerPeriod(es, k);
    var i := AnswersAreFresh(es, t);
  }

  // ---------------------------------------------------------------------------
  // One guard, many calls
  // ---------------------------------------------------------------------------

  /** Backend calls started for `k` in the present busy period. */
  function CallsInPeriod(es: seq<Event>, k: Key): nat {
    if es == [] || Count(Run(es), k) == 0 then 0
    else
      CallsInPeriod(es[..|es| - 1], k) + (if Starts(Run(es[..|es| - 1]), es[|es| - 1], k) then 1 else 0)
  }

  /** The event starts a backend call for `k` instead of joining one. */
  predicate Starts(s: State, e: Event, k: Key) {
    e.Begin? && Enabled(s, e) && s.threads[e.t].key == k && k !in s.calls
  }

  /** Backend calls for `k` that ended in the present busy period. */
  function EndsInPeriod(es: seq<Event>, k: Key): nat {
    if es == [] || Count(Run(es), k) == 0 then 0
    else
      EndsInPeriod(es[..|es| - 1], k) + (if Ends(Run(es[..|es| - 1]), es[|es| - 1], k) then 1 else 0)
  }

  /** The event ends the backend call for `k`. */
  predicate Ends(s: State, e: Event, k: Key) {
    (e.Finish? || e.Panic?) && Enabled(s, e) && s.threads[e.t].key == k
  }

  predicate CallsAddUp(s: State, k: Key, started: nat, ended: nat) {
    started == ended + if k in s.calls then 1 else 0
  }

  /** A step within a busy period. */
  lemma CallsStep(s: State, e: Event, k: Key, started: nat, ended: nat)
    requires OneLeader(s) && CallsAddUp(s, k, started, ended)
    ensures CallsAddUp(Step(s, e), k, started + (if Starts(s, e, k) then 1 else 0),
                       ended + (if Ends(s, e, k) then 1 else 0))
  {
  }

  lemma NothingRunsWhenIdle(s: State, k: Key)
    requires CountsExact(s) && OneLeader(s) && Count(s, k) == 0
    ensures k !in s.calls
  {
    if k in s.calls { InsideIsCounted(s, s.calls[k]); }
  }

  lemma IdleCounts(es: seq<Event>, k: Key)
    requires Count(Run(es), k) == 0
    ensures CallsInPeriod(es, k) == 0 && EndsInPeriod(es, k) == 0
  {
  }

  /** In every run the calls started in a busy period are those that ended in it
      and the one that is running. */
  lemma {:induction false} CallsOfAPeriod(es: seq<Event>, k: Key)
    ensures CallsAddUp(Run(es), k, CallsInPeriod(es, k), EndsInPeriod(es, k))
  {
    EveryInterleaving(es);
    if Count(Run(es), k) == 0 {
      NothingRunsWhenIdle(Run(es), k);
      IdleCounts(es, k);
    } else {
      var init, e := es[..|es| - 1], es[|es| - 1];
      EveryInterleaving(init);
      CallsOfAPeriod(init, k);
      CallsStep(Run(init), e, k, CallsInPeriod(init, k), EndsInPeriod(init, k));
    }
  }

  /** So in a period that has had a call, a goroutine starts another one exactly
      if it begins when every call of the period has ended. */
  lemma AnotherCallExactly(es: seq<Event>, t: nat, k: Key)
    requires Enabled(Run(es), Begin(t)) && Run(es).threads[t].key == k
    ensures Starts(Run(es), Begin(t), k) <==> EndsInPeriod(es, k) == CallsInPeriod(es, k)
  {
    CallsOfAPeriod(es, k);
  }

  /** A goroutine waiting to begin, with nothing running. */
  predicate Poised(s: State, k: Key) {
    && s.next > 0 && s.next - 1 in s.threads && s.threads[s.next - 1] == Entered(k)
    && k !in s.calls && Count(s, k) > 0
  }

  lemma {:induction false} PoisedSteps(s: State, k: Key, s1: State, s2: State)
    requires Poised(s, k) && s1 == Step(s, Begin(s.next - 1)) && s2 == Step(s1, Enter(k, false))
    ensures Starts(s, Begin(s.next - 1), k)
    ensures Count(s1, k) > 0 && Count(s2, k) > 0
    ensures var s3 := Step(s2, Finish(s.next - 1, 0)); Poised(s3, k) && Count(s3, k) > 0
  {
  }

  /** Lead a call, let one more caller in unguarded, and finish the call. */
  lemma {:induction false} AnotherCall(es: seq<Event>, k: Key) returns (es': seq<Event>)
    requires Poised(Run(es), k)
    ensures Poised(Run(es'), k) && CallsInPeriod(es', k) == CallsInPeriod(es, k) + 1
    ensures PeriodStart(es', k) == PeriodStart(es, k)
  {
    var a, b, c := Begin(Run(es).next - 1), Enter(k, false), Finish(Run(es).next - 1, 0);
    RunOne(es, a);
    RunOne(es + [a], b);
    RunOne(es + [a] + [b], c);
    PoisedSteps(Run(es), k, Run(es + [a]), Run(es + [a] + [b]));
    PeriodGoesOn(es, a, k);
    PeriodGoesOn(es + [a], b, k);
    PeriodGoesOn(es + [a] + [b], c, k);
    es' := es + [a] + [b] + [c];
  }

  /** The one guard of a period can let any number of backend calls through. */
  lemma {:induction false} OneGuardManyCalls(k: Key, n: nat) returns (es: seq<Event>)
    ensures Poised(Run(es), k) && CallsInPeriod(es, k) == n && PeriodStart(es, k) == 0
  {
    if n == 0 {
      es := [Enter(k, true)];
      assert es[..0] == [];
      assert Run([]) == IDLE;
    } else {
      var es0 := OneGuardManyCalls(k, n - 1);
      es := AnotherCall(es0, k);
    }
  }

  // ---------------------------------------------------------------------------
  // The reference counts as the code keeps them
  // ---------------------------------------------------------------------------

  class Coalescer {
    var inflight: map<Key, nat>

    constructor ()
      ensures inflight == IDLE.inflight
    {
      inflight := map[];
    }

    /** The first critical section: ask the guard only at count zero. */
    method Admit(key: Key, guard: bool) returns (admitted: bool)
      modifies this
      ensures admitted == (guard || CountIn(old(inflight), key) > 0)
      ensures inflight == if admitted then Raised(old(inflight), key) else old(inflight)
    {
      var count := if key in inflight then inflight[key] else 0;
      if count == 0 && !guard {
        return false;
      }
      inflight := inflight[key := count + 1];
      return true;
    }

    /** The second critical section. */
    method Depart(key: Key)
      requires CountIn(inflight, key) > 0
      modifies this
      ensures inflight == Lowered(old(inflight), key)
    {
      inflight := inflight[key := inflight[key] - 1];
      if inflight[key] == 0 {
        inflight := inflight - {key};
      }
    }
  }
}
