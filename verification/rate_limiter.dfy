/** The per-client token bucket and the eviction of idle buckets, over reals. A
    request looks its bucket up and spends from it in two steps, and the cleanup
    tests a bucket and deletes it in two steps. */
module RateLimiter {
  import opened Wrappers

  type Client = string

  datatype Config = Config(rate: real, burst: int, staleAfter: real)

  datatype Bucket = Bucket(tokens: real, last: real)

  /** What flows in over an interval: its length times the rate. */
  function Inflow(c: Config, from: real, to: real): real {
    to * c.rate - from * c.rate
  }

  lemma InflowIs(c: Config, from: real, to: real)
    ensures Inflow(c, from, to) == (to - from) * c.rate
  {
  }

  lemma Grows(c: Config, from: real, to: real)
    requires c.rate >= 0.0 && from <= to
    ensures Inflow(c, from, to) >= 0.0
  {
    Product(to - from, c.rate);
    InflowIs(c, from, to);
  }

  lemma Splits(c: Config, from: real, mid: real, to: real)
    ensures Inflow(c, from, to) == Inflow(c, from, mid) + Inflow(c, mid, to)
  {
  }

  lemma Product(x: real, y: real)
    requires x >= 0.0 && y >= 0.0
    ensures x * y >= 0.0
  {
  }

  /** Tokens at `now`: refilled since the last request, capped at the burst. */
  function Refilled(c: Config, b: Bucket, now: real): real {
    var t := b.tokens + Inflow(c, b.last, now);
    if t > c.burst as real then c.burst as real else t
  }

  function Admits(c: Config, b: Bucket, now: real): bool {
    Refilled(c, b, now) >= 1.0
  }

  function Spent(c: Config, b: Bucket, now: real): Bucket {
    var t := Refilled(c, b, now);
    Bucket(if t < 1.0 then t else t - 1.0, now)
  }

  function Fresh(c: Config, now: real): Bucket {
    Bucket(c.burst as real, now)
  }

  function Floor0(x: real): real {
    if x < 0.0 then 0.0 else x
  }

  // ---------------------------------------------------------------------------
  // One bucket
  // ---------------------------------------------------------------------------

  /** The times go up from `from` and stay within `to`. */
  predicate OrderedUpTo(from: real, ts: seq<real>, to: real)
    decreases |ts|
  {
    if ts == [] then from <= to else from <= ts[0] && OrderedUpTo(ts[0], ts[1..], to)
  }

  /** How many of the requests at `ts` a bucket admits. */
  function Admitted(c: Config, b: Bucket, ts: seq<real>): nat
    decreases |ts|
  {
    if ts == [] then 0
    else (if Admits(c, b, ts[0]) then 1 else 0) + Admitted(c, Spent(c, b, ts[0]), ts[1..])
  }

  function After(c: Config, b: Bucket, ts: seq<real>): Bucket
    decreases |ts|
  {
    if ts == [] then b else After(c, Spent(c, b, ts[0]), ts[1..])
  }

  /** Tokens never fall below an empty bucket's. */
  predicate Solvent(c: Config, b: Bucket) {
    b.tokens >= 0.0 || b.tokens >= c.burst as real
  }

  lemma SpentSolvent(c: Config, b: Bucket, now: real)
    requires c.rate >= 0.0 && b.last <= now && Solvent(c, b)
    ensures Solvent(c, Spent(c, b, now))
  {
    Grows(c, b.last, now);
  }

  /** What is admitted was in the bucket or flowed in. */
  lemma {:induction false} Conservation(c: Config, b: Bucket, ts: seq<real>, end: real)
    requires c.rate >= 0.0 && Solvent(c, b) && OrderedUpTo(b.last, ts, end)
    ensures Admitted(c, b, ts) as real <= Floor0(b.tokens) + Inflow(c, b.last, end)
    decreases |ts|
  {
    if ts == [] {
      Grows(c, b.last, end);
    } else {
      SpentSolvent(c, b, ts[0]);
      Conservation(c, Spent(c, b, ts[0]), ts[1..], end);
      OneRequest(c, b, ts[0]);
      Splits(c, b.last, ts[0], end);
    }
  }

  /** One request costs the bucket no more than it had and got. */
  lemma OneRequest(c: Config, b: Bucket, now: real)
    requires c.rate >= 0.0 && b.last <= now && Solvent(c, b)
    ensures Floor0(Spent(c, b, now).tokens) + Cost(Admits(c, b, now)) <= Floor0(b.tokens) + Inflow(c, b.last, now)
    ensures Floor0(Spent(c, b, now).tokens) + Cost(Admits(c, b, now)) <= Floor0(c.burst as real)
  {
    Grows(c, b.last, now);
  }

  function Cost(yes: bool): real {
    if yes then 1.0 else 0.0
  }

  /** `n` requests are no more than the burst plus the inflow of the interval. */
  predicate Allowance(c: Config, n: nat, from: real, to: real) {
    n as real <= Floor0(c.burst as real) + Inflow(c, from, to)
  }

  lemma {:induction false} FromFull(c: Config, b: Bucket, ts: seq<real>, to: real)
    requires c.rate >= 0.0 && Solvent(c, b) && ts != [] && OrderedUpTo(b.last, ts, to)
    ensures Allowance(c, Admitted(c, b, ts), ts[0], to)
  {
    OneRequest(c, b, ts[0]);
    SpentSolvent(c, b, ts[0]);
    Conservation(c, Spent(c, b, ts[0]), ts[1..], to);
  }

  lemma AllowanceGrows(c: Config, n: nat, from: real, from': real, to: real)
    requires c.rate >= 0.0 && from' <= from && Allowance(c, n, from, to)
    ensures Allowance(c, n, from', to)
  {
    Grows(c, from', from);
    Splits(c, from', from, to);
  }

  lemma {:induction false} FromFullWithin(c: Config, b: Bucket, ts: seq<real>, from: real, to: real)
    requires c.rate >= 0.0 && Solvent(c, b) && OrderedUpTo(b.last, ts, to)
    requires from <= to && (ts != [] ==> from <= ts[0])
    ensures Allowance(c, Admitted(c, b, ts), from, to)
  {
    if ts == [] {
      Grows(c, from, to);
    } else {
      FromFull(c, b, ts, to);
      AllowanceGrows(c, Admitted(c, b, ts), ts[0], from, to);
    }
  }

  /** In every interval of a run, at most the burst plus rate times its length
      is admitted, whatever came before. */
  lemma {:induction false} IntervalBound(c: Config, b: Bucket, before: seq<real>, ts: seq<real>, from: real, to: real)
    requires c.rate >= 0.0 && Solvent(c, b) && OrderedUpTo(b.last, before + ts, to)
    requires from <= to && (ts != [] ==> from <= ts[0])
    ensures Admitted(c, After(c, b, before), ts) as real <= Floor0(c.burst as real) + (to - from) * c.rate
  {
    AfterKeeps(c, b, before, ts, to);
    FromFullWithin(c, After(c, b, before), ts, from, to);
    InflowIs(c, from, to);
  }

  lemma {:induction false} AfterKeeps(c: Config, b: Bucket, before: seq<real>, ts: seq<real>, to: real)
    requires c.rate >= 0.0 && Solvent(c, b) && OrderedUpTo(b.last, before + ts, to)
    ensures var b1 := After(c, b, before); Solvent(c, b1) && OrderedUpTo(b1.last, ts, to)
    decreases |before|
  {
    if before == [] {
      assert before + ts == ts;
    } else {
      assert (before + ts)[1..] == before[1..] + ts;
      SpentSolvent(c, b, before[0]);
      AfterKeeps(c, Spent(c, b, before[0]), before[1..], ts, to);
    }
  }

  // ---------------------------------------------------------------------------
  // Levels
  // ---------------------------------------------------------------------------

  /** Refilling in two stretches is refilling in one. */
  lemma RefillTwice(c: Config, b: Bucket, now: real, later: real)
    requires c.rate >= 0.0 && now <= later
    ensures Refilled(c, b, later) == Refilled(c, Bucket(Refilled(c, b, now), now), later)
    ensures Refilled(c, b, now) == c.burst as real ==> Refilled(c, b, later) == c.burst as real
    ensures Floor0(Refilled(c, b, later)) <= Floor0(Refilled(c, b, now)) + Inflow(c, now, later)
  {
    Grows(c, now, later);
    Splits(c, b.last, now, later);
  }

  lemma FreshIsFull(c: Config, made: real, now: real)
    requires c.rate >= 0.0 && made <= now
    ensures Refilled(c, Fresh(c, made), now) == c.burst as real
  {
    Grows(c, made, now);
  }

  function Stale(c: Config, b: Bucket, tick: real): bool {
    b.last < tick - c.staleAfter
  }

  /** A bucket refills in the time it takes to go stale. */
  predicate RefillsInTime(c: Config) {
    c.staleAfter >= 0.0 && c.staleAfter * c.rate >= c.burst as real
  }

  lemma StaleIsFull(c: Config, b: Bucket, tick: real, now: real)
    requires c.rate > 0.0 && RefillsInTime(c) && tick <= now
    requires Solvent(c, b) && Stale(c, b, tick)
    ensures Refilled(c, b, now) == c.burst as real
  {
    var full := b.last + c.staleAfter;
    Grows(c, full, now);
    Splits(c, b.last, full, now);
    InflowIs(c, b.last, full);
    Product(c.staleAfter, c.rate);
    assert Inflow(c, b.last, now) >= c.staleAfter * c.rate >= 0.0;
  }

  function LevelAfter(c: Config, level: real): real {
    if level < 1.0 then level else level - 1.0
  }

  lemma SpentLevel(c: Config, b: Bucket, now: real)
    ensures Refilled(c, Spent(c, b, now), now) == LevelAfter(c, Refilled(c, b, now))
  {
    assert Inflow(c, now, now) == 0.0;
    var level := Refilled(c, b, now);
    assert LevelAfter(c, level) <= c.burst as real;
  }

  // ---------------------------------------------------------------------------
  // The limiter: requests in flight and a cleaner
  // ---------------------------------------------------------------------------

  datatype Made = Made(client: Client, bucket: Bucket)

  /** `clients` is the shared map into all buckets ever made; `flying` the bucket
      each request that has looked its bucket up is going to spend from;
      `pending` the client whose bucket tested stale and is about to be deleted,
      and `touched` whether that bucket has been spent from since. */
  datatype Sys = Sys(clients: map<Client, nat>, heap: seq<Made>, flying: map<nat, nat>, pending: Option<Client>,
      touched: bool)

  const EMPTY := Sys(map[], [], map[], None, false)

  /** `made` is the clock when a request prepares the bucket it may have to store;
      `tick` the clock from which a cleanup derives its cutoff. */
  datatype Event =
    | Load(t: nat, client: Client, made: real, now: real)
    | Spend(t: nat, now: real)
    | Test(client: Client, tick: real, now: real)
    | Delete(now: real)

  predicate Flies(s: Sys, t: nat) {
    t in s.flying && s.flying[t] < |s.heap|
  }

  predicate Has(s: Sys, k: Client) {
    k in s.clients && s.clients[k] < |s.heap|
  }

  /** The client a request in flight spends for. */
  function ClientOf(s: Sys, t: nat): Client
    requires Flies(s, t)
  {
    s.heap[s.flying[t]].client
  }

  /** The request's bucket is still the one in the map. */
  predicate Current(s: Sys, t: nat)
    requires Flies(s, t)
  {
    Has(s, ClientOf(s, t)) && s.clients[ClientOf(s, t)] == s.flying[t]
  }

  function LoadStep(c: Config, s: Sys, t: nat, k: Client, made: real): Sys {
    if t in s.flying then s
    else if k in s.clients then s.(flying := s.flying[t := s.clients[k]])
    else
      s.(clients := s.clients[k := |s.heap|], heap := s.heap + [Made(k, Fresh(c, made))],
         flying := s.flying[t := |s.heap|])
  }

  function SpendStep(c: Config, s: Sys, t: nat, now: real): Sys
    requires Flies(s, t)
  {
    var i := s.flying[t];
    s.(heap := s.heap[i := s.heap[i].(bucket := Spent(c, s.heap[i].bucket, now))],
       flying := s.flying - {t},
       touched := s.touched || (s.pending == Some(ClientOf(s, t)) && Current(s, t)))
  }

  /** `evict` false is the limiter that keeps every bucket. */
  function Step(c: Config, evict: bool, s: Sys, e: Event): Sys {
    if c.rate <= 0.0 then s
    else
      match e
      case Load(t, k, made, _) => LoadStep(c, s, t, k, made)
      case Spend(t, now) => if Flies(s, t) then SpendStep(c, s, t, now) else s
      case Test(k, tick, _) =>
        if s.pending.None? && Has(s, k) && Stale(c, s.heap[s.clients[k]].bucket, tick)
        then s.(pending := Some(k), touched := false) else s
      case Delete(_) =>
        if s.pending.None? then s
        else
          s.(clients := if evict then s.clients - {s.pending.value} else s.clients, pending := None, touched := false)
  }

  function Answer(c: Config, s: Sys, e: Event): bool {
    c.rate > 0.0 && e.Spend? && Flies(s, e.t) ==> Admits(c, s.heap[s.flying[e.t]].bucket, e.now)
  }

  function Run(c: Config, evict: bool, s: Sys, es: seq<Event>): Sys
    decreases |es|
  {
    if es == [] then s else Run(c, evict, Step(c, evict, s, es[0]), es[1..])
  }

  /** The answers to the events, one by one. */
  function Decisions(c: Config, evict: bool, s: Sys, es: seq<Event>): seq<bool>
    decreases |es|
  {
    if es == [] then [] else [Answer(c, s, es[0])] + Decisions(c, evict, Step(c, evict, s, es[0]), es[1..])
  }

  predicate EventOk(e: Event) {
    (e.Load? ==> e.made <= e.now) && (e.Test? ==> e.tick <= e.now)
  }

  predicate Timed(from: real, es: seq<Event>)
    decreases |es|
  {
    es == [] || (from <= es[0].now && EventOk(es[0]) && Timed(es[0].now, es[1..]))
  }

  /** The map and the requests in flight point to buckets, which are all in order. */
  ghost predicate Valid(c: Config, s: Sys, now: real) {
    && (forall k :: k in s.clients ==> Has(s, k) && s.heap[s.clients[k]].client == k)
    && (forall t :: t in s.flying ==> Flies(s, t))
    && (forall i :: 0 <= i < |s.heap| ==> s.heap[i].bucket.last <= now && Solvent(c, s.heap[i].bucket))
  }

  lemma StepValid(c: Config, evict: bool, s: Sys, e: Event, from: real)
    requires Valid(c, s, from) && from <= e.now && EventOk(e)
    ensures Valid(c, Step(c, evict, s, e), e.now)
  {
    if e.Spend? && c.rate > 0.0 && Flies(s, e.t) {
      SpentSolvent(c, s.heap[s.flying[e.t]].bucket, e.now);
    }
  }

  /** What the client's next request would find in its bucket. */
  function Level(c: Config, s: Sys, k: Client, now: real): real {
    if Has(s, k) then Refilled(c, s.heap[s.clients[k]].bucket, now) else c.burst as real
  }

  lemma LevelRises(c: Config, s: Sys, k: Client, now: real, later: real)
    requires c.rate >= 0.0 && now <= later
    ensures Level(c, s, k, later) == Refilled(c, Bucket(Level(c, s, k, now), now), later)
    ensures Level(c, s, k, now) == c.burst as real ==> Level(c, s, k, later) == c.burst as real
    ensures Floor0(Level(c, s, k, later)) <= Floor0(Level(c, s, k, now)) + Inflow(c, now, later)
  {
    Grows(c, now, later);
    if Has(s, k) { RefillTwice(c, s.heap[s.clients[k]].bucket, now, later); }
  }

  /** Only a request on the client's current bucket and a delete change its level. */
  lemma StepLevel(c: Config, evict: bool, s: Sys, e: Event, k: Client)
    requires c.rate > 0.0 && Valid(c, s, e.now) && EventOk(e)
    ensures Level(c, Step(c, evict, s, e), k, e.now) ==
      if e.Spend? && Flies(s, e.t) && ClientOf(s, e.t) == k && Current(s, e.t) then LevelAfter(c, Level(c, s, k, e.now))
      else if e.Delete? && evict && s.pending == Some(k) then c.burst as real
      else Level(c, s, k, e.now)
  {
    match e
    case Load(t, k', made, now) => if t !in s.flying && k !in s.clients { FreshIsFull(c, made, now); }
    case Spend(t, now) => if Flies(s, t) { SpentLevel(c, s.heap[s.flying[t]].bucket, now); }
    case _ =>
  }

  // ---------------------------------------------------------------------------
  // Without races the evicting limiter answers like the one that keeps all
  // ---------------------------------------------------------------------------

  /** A request spends between the test and the delete of its client's bucket, or
      after the delete of the bucket it had looked up. */
  predicate Race(s: Sys, e: Event) {
    e.Spend? && Flies(s, e.t) && (s.pending == Some(ClientOf(s, e.t)) || !Current(s, e.t))
  }

  predicate RaceFree(c: Config, s: Sys, es: seq<Event>)
    decreases |es|
  {
    es == [] || (!Race(s, es[0]) && RaceFree(c, Step(c, true, s, es[0]), es[1..]))
  }

  /** The same requests are in flight, and on the keeping side their buckets are current. */
  ghost predicate Alike(kept: Sys, evicting: Sys) {
    forall t :: t in kept.flying || t in evicting.flying ==>
      Flies(kept, t) && Flies(evicting, t) && ClientOf(kept, t) == ClientOf(evicting, t) && Current(kept, t)
  }

  ghost predicate SameLevels(c: Config, kept: Sys, evicting: Sys, now: real) {
    forall k :: Level(c, kept, k, now) == Level(c, evicting, k, now)
  }

  /** A bucket that is about to be deleted and has not been spent from is full. */
  predicate Untouched(c: Config, s: Sys, now: real) {
    s.pending.Some? && !s.touched ==> Level(c, s, s.pending.value, now) == c.burst as real
  }

  /** A deleted bucket that a request in flight still points to is full. */
  ghost predicate LeftFull(c: Config, s: Sys, now: real) {
    forall t :: Flies(s, t) && !Current(s, t) ==> Refilled(c, s.heap[s.flying[t]].bucket, now) == c.burst as real
  }

  ghost predicate Related(c: Config, kept: Sys, evicting: Sys, now: real) {
    && Valid(c, kept, now) && Valid(c, evicting, now)
    && Alike(kept, evicting) && SameLevels(c, kept, evicting, now)
    && Untouched(c, evicting, now) && !evicting.touched && LeftFull(c, evicting, now)
  }

  /** What a request in flight keeps while others load and spend. */
  lemma FlightKept(c: Config, evict: bool, s: Sys, e: Event, t: nat)
    requires Flies(s, t) && !(e.Spend? && e.t == t)
    ensures var s' := Step(c, evict, s, e);
      Flies(s', t) && ClientOf(s', t) == ClientOf(s, t) && (Current(s, t) && !(e.Delete? && evict) ==> Current(s', t))
  {
  }

  lemma Loaded(c: Config, s: Sys, t: nat, k: Client, made: real, now: real)
    requires Valid(c, s, now) && t !in s.flying
    ensures var s' := LoadStep(c, s, t, k, made); Flies(s', t) && ClientOf(s', t) == k && Current(s', t)
    ensures forall u :: u in LoadStep(c, s, t, k, made).flying <==> u in s.flying || u == t
  {
  }

  lemma AlikeStep(c: Config, kept: Sys, evicting: Sys, e: Event)
    requires c.rate > 0.0 && Alike(kept, evicting) && Valid(c, kept, e.now) && Valid(c, evicting, e.now)
    ensures Alike(Step(c, false, kept, e), Step(c, true, evicting, e))
  {
    var kept', evicting' := Step(c, false, kept, e), Step(c, true, evicting, e);
    if e.Load? && e.t !in kept.flying {
      Loaded(c, kept, e.t, e.client, e.made, e.now);
      Loaded(c, evicting, e.t, e.client, e.made, e.now);
    }
    forall t | t in kept'.flying || t in evicting'.flying
      ensures Flies(kept', t) && Flies(evicting', t)
              && ClientOf(kept', t) == ClientOf(evicting', t) && Current(kept', t)
    {
      if !(e.Load? && e.t == t && e.t !in kept.flying) {
        FlightKept(c, false, kept, e, t);
        FlightKept(c, true, evicting, e, t);
      }
    }
  }

  lemma Later(c: Config, kept: Sys, evicting: Sys, now: real, later: real)
    requires c.rate >= 0.0 && now <= later && Related(c, kept, evicting, now)
    ensures Related(c, kept, evicting, later)
  {
    forall k ensures Level(c, kept, k, later) == Level(c, evicting, k, later) {
      assert Level(c, kept, k, now) == Level(c, evicting, k, now);
      LevelRises(c, kept, k, now, later);
      LevelRises(c, evicting, k, now, later);
    }
    if evicting.pending.Some? { LevelRises(c, evicting, evicting.pending.value, now, later); }
    forall t | Flies(evicting, t) && !Current(evicting, t)
      ensures Refilled(c, evicting.heap[evicting.flying[t]].bucket, later) == c.burst as real
    {
      RefillTwice(c, evicting.heap[evicting.flying[t]].bucket, now, later);
    }
  }

  lemma LevelsStep(c: Config, kept: Sys, evicting: Sys, e: Event)
    requires c.rate > 0.0 && Related(c, kept, evicting, e.now) && EventOk(e) && !Race(evicting, e)
    ensures SameLevels(c, Step(c, false, kept, e), Step(c, true, evicting, e), e.now)
  {
    forall k ensures Level(c, Step(c, false, kept, e), k, e.now) == Level(c, Step(c, true, evicting, e), k, e.now) {
      StepLevel(c, false, kept, e, k);
      StepLevel(c, true, evicting, e, k);
      assert Level(c, kept, k, e.now) == Level(c, evicting, k, e.now);
    }
  }

  lemma UntouchedStep(c: Config, s: Sys, e: Event)
    requires c.rate > 0.0 && RefillsInTime(c) && Valid(c, s, e.now) && EventOk(e) && Untouched(c, s, e.now)
    ensures Untouched(c, Step(c, true, s, e), e.now)
  {
    var s' := Step(c, true, s, e);
    if s'.pending.Some? {
      StepLevel(c, true, s, e, s'.pending.value);
      if e.Test? && s.pending.None? { StaleIsFull(c, s.heap[s.clients[e.client]].bucket, e.tick, e.now); }
    }
  }

  lemma LeftFullStep(c: Config, s: Sys, e: Event)
    requires c.rate > 0.0 && Valid(c, s, e.now) && EventOk(e) && !Race(s, e)
    requires Untouched(c, s, e.now) && !s.touched && LeftFull(c, s, e.now)
    ensures LeftFull(c, Step(c, true, s, e), e.now)
  {
    var s' := Step(c, true, s, e);
    forall t | Flies(s', t) && !Current(s', t)
      ensures Refilled(c, s'.heap[s'.flying[t]].bucket, e.now) == c.burst as real
    {
      if t in s.flying {
        FlightKept(c, true, s, e, t);
        LeftKept(c, s, e, t);
      } else {
        Loaded(c, s, t, e.client, e.made, e.now);
        assert false;
      }
    }
  }

  /** A request whose bucket is deleted by this step, or was before, finds it full. */
  lemma LeftKept(c: Config, s: Sys, e: Event, t: nat)
    requires c.rate > 0.0 && Valid(c, s, e.now) && !Race(s, e) && Flies(s, t) && !(e.Spend? && e.t == t)
    requires Untouched(c, s, e.now) && !s.touched && LeftFull(c, s, e.now)
    ensures var s' := Step(c, true, s, e);
      Flies(s', t) && !Current(s', t) ==> Refilled(c, s'.heap[s'.flying[t]].bucket, e.now) == c.burst as real
  {
  }

  lemma StepRelated(c: Config, kept: Sys, evicting: Sys, e: Event, from: real)
    requires c.rate > 0.0 && RefillsInTime(c)
    requires Related(c, kept, evicting, from) && from <= e.now && EventOk(e) && !Race(evicting, e)
    ensures Related(c, Step(c, false, kept, e), Step(c, true, evicting, e), e.now)
    ensures Answer(c, kept, e) == Answer(c, evicting, e)
  {
    Later(c, kept, evicting, from, e.now);
    StepValid(c, false, kept, e, from);
    StepValid(c, true, evicting, e, from);
    AlikeStep(c, kept, evicting, e);
    LevelsStep(c, kept, evicting, e);
    UntouchedStep(c, evicting, e);
    LeftFullStep(c, evicting, e);
    SameAnswer(c, kept, evicting, e);
  }

  lemma SameAnswer(c: Config, kept: Sys, evicting: Sys, e: Event)
    requires Related(c, kept, evicting, e.now) && !Race(evicting, e)
    ensures Answer(c, kept, e) == Answer(c, evicting, e)
  {
    if e.Spend? && Flies(evicting, e.t) {
      var k := ClientOf(evicting, e.t);
      assert Level(c, kept, k, e.now) == Level(c, evicting, k, e.now);
    }
  }

  /** If a bucket refills while it goes stale and no request races the cleanup,
      the limiter that evicts answers like the one that keeps every bucket. */
  lemma {:induction false} SameDecisions(c: Config, kept: Sys, evicting: Sys, es: seq<Event>, from: real)
    requires c.rate > 0.0 && RefillsInTime(c)
    requires Related(c, kept, evicting, from) && Timed(from, es) && RaceFree(c, evicting, es)
    ensures Decisions(c, true, evicting, es) == Decisions(c, false, kept, es)
    decreases |es|
  {
    if es != [] {
      var e := es[0];
      StepRelated(c, kept, evicting, e, from);
      SameDecisions(c, Step(c, false, kept, e), Step(c, true, evicting, e), es[1..], e.now);
    }
  }

  // ---------------------------------------------------------------------------
  // What every client is admitted, in every run
  // ---------------------------------------------------------------------------

  /** What is counted of a client's events: requests admitted, those of them on a
      bucket that had already been deleted, deletes of a bucket that was not full,
      and deletes of a bucket that was spent from after its test. */
  datatype What = Taken | Late | Early | Raced

  predicate Counts(c: Config, what: What, s: Sys, e: Event, k: Client) {
    match what
    case Taken => e.Spend? && Flies(s, e.t) && ClientOf(s, e.t) == k && Answer(c, s, e)
    case Late => e.Spend? && Flies(s, e.t) && ClientOf(s, e.t) == k && Answer(c, s, e) && !Current(s, e.t)
    case Early => e.Delete? && s.pending == Some(k) && Level(c, s, k, e.now) != c.burst as real
    case Raced => e.Delete? && s.pending == Some(k) && s.touched
  }

  function Tally(c: Config, what: What, s: Sys, es: seq<Event>, k: Client): nat
    decreases |es|
  {
    if es == [] then 0
    else (if Counts(c, what, s, es[0], k) then 1 else 0) + Tally(c, what, Step(c, true, s, es[0]), es[1..], k)
  }

  predicate Ends(es: seq<Event>, to: real) {
    forall i :: 0 <= i < |es| ==> es[i].now <= to
  }

  /** One event takes no more from the level than it had, but for late requests and early deletes. */
  lemma OneEvent(c: Config, s: Sys, e: Event, k: Client)
    requires c.rate > 0.0 && Valid(c, s, e.now) && EventOk(e)
    ensures Cost(Counts(c, Taken, s, e, k)) + Floor0(Level(c, Step(c, true, s, e), k, e.now)) <=
      Floor0(Level(c, s, k, e.now)) + Cost(Counts(c, Late, s, e, k))
      + if Counts(c, Early, s, e, k) then Floor0(c.burst as real) else 0.0
  {
    StepLevel(c, true, s, e, k);
  }

  /** `n` whole bursts. */
  function Bursts(c: Config, n: nat): real {
    if n == 0 then 0.0 else Bursts(c, n - 1) + Floor0(c.burst as real)
  }

  lemma {:induction false} BurstsIs(c: Config, n: nat)
    ensures Bursts(c, n) == n as real * Floor0(c.burst as real)
  {
    if n > 0 {
      BurstsIs(c, n - 1);
      assert n as real == (n - 1) as real + 1.0;
    }
  }

  lemma {:induction false} BurstsGrow(c: Config, m: nat, n: nat)
    requires m <= n
    ensures Bursts(c, m) <= Bursts(c, n)
  {
    if m < n { BurstsGrow(c, m, n - 1); }
  }

  ghost predicate Bound(c: Config, s: Sys, es: seq<Event>, k: Client, start: real, inflow: real) {
    Tally(c, Taken, s, es, k) as real <=
      start + inflow + Bursts(c, Tally(c, Early, s, es, k)) + Tally(c, Late, s, es, k) as real
  }

  lemma {:induction false} BoundCons(c: Config, s: Sys, es: seq<Event>, k: Client, level: real, inflow: real,
      level': real, inflow': real)
    requires es != [] && Bound(c, Step(c, true, s, es[0]), es[1..], k, level', inflow')
    requires Cost(Counts(c, Taken, s, es[0], k)) + level' + inflow' <=
      level + inflow + Cost(Counts(c, Late, s, es[0], k))
      + if Counts(c, Early, s, es[0], k) then Floor0(c.burst as real) else 0.0
    ensures Bound(c, s, es, k, level, inflow)
  {
  }

  lemma {:induction false} BoundFromLevel(c: Config, s: Sys, es: seq<Event>, k: Client, at: real, to: real)
    requires c.rate > 0.0 && Valid(c, s, at) && Timed(at, es) && at <= to && Ends(es, to)
    ensures Bound(c, s, es, k, Floor0(Level(c, s, k, at)), Inflow(c, at, to))
    decreases |es|
  {
    if es == [] {
      Grows(c, at, to);
    } else {
      var e, s' := es[0], Step(c, true, s, es[0]);
      LevelRises(c, s, k, at, e.now);
      StepValid(c, true, s, e, at);
      BoundFromLevel(c, s', es[1..], k, e.now, to);
      OneEvent(c, s, e, k);
      Splits(c, at, e.now, to);
      BoundCons(c, s, es, k, Floor0(Level(c, s, k, at)), Inflow(c, at, to),
                Floor0(Level(c, s', k, e.now)), Inflow(c, e.now, to));
    }
  }

  lemma {:induction false} BoundWithin(c: Config, s: Sys, es: seq<Event>, k: Client, at: real, from: real, to: real)
    requires c.rate > 0.0 && Valid(c, s, at) && Timed(at, es) && from <= to && Ends(es, to)
    requires es != [] ==> from <= es[0].now
    ensures Bound(c, s, es, k, Floor0(c.burst as real), Inflow(c, from, to))
  {
    Grows(c, from, to);
    if es != [] {
      var first := es[0].now;
      BoundFromLevel(c, s, es, k, first, to);
      Grows(c, from, first);
      Splits(c, from, first, to);
    }
  }

  lemma {:induction false} RunConcat(c: Config, evict: bool, s: Sys, a: seq<Event>, b: seq<Event>)
    ensures Run(c, evict, s, a + b) == Run(c, evict, Run(c, evict, s, a), b)
    ensures Decisions(c, evict, s, a + b) == Decisions(c, evict, s, a) + Decisions(c, evict, Run(c, evict, s, a), b)
    decreases |a|
  {
    if a == [] {
      assert a + b == b;
    } else {
      assert (a + b)[1..] == a[1..] + b;
      RunConcat(c, evict, Step(c, evict, s, a[0]), a[1..], b);
    }
  }

  lemma {:induction false} RunValid(c: Config, evict: bool, s: Sys, pre: seq<Event>, mid: seq<Event>,
      from: real) returns (at: real)
    requires Valid(c, s, from) && Timed(from, pre + mid)
    ensures Valid(c, Run(c, evict, s, pre), at) && Timed(at, mid) && from <= at
    ensures c.rate > 0.0 && RefillsInTime(c) && evict && Untouched(c, s, from) ==>
              Untouched(c, Run(c, evict, s, pre), at)
    decreases |pre|
  {
    if pre == [] {
      assert pre + mid == mid;
      at := from;
    } else {
      var e := pre[0];
      assert (pre + mid)[1..] == pre[1..] + mid;
      StepValid(c, evict, s, e, from);
      if c.rate > 0.0 && RefillsInTime(c) && evict && Untouched(c, s, from) {
        if s.pending.Some? { LevelRises(c, s, s.pending.value, from, e.now); }
        UntouchedStep(c, s, e);
      }
      at := RunValid(c, evict, Step(c, evict, s, e), pre[1..], mid, e.now);
    }
  }

  /** In every run, every client is admitted in any interval at most the burst and
      rate times the length, one more burst for each of its buckets that was
      deleted before it was full, and the requests it had in flight to a bucket
      that was deleted before they spent. */
  lemma {:induction false} EveryRunIsBounded(c: Config, pre: seq<Event>, mid: seq<Event>, k: Client, start: real,
      from: real, to: real)
    requires c.rate > 0.0 && Timed(start, pre + mid)
    requires from <= to && Ends(mid, to) && (mid != [] ==> from <= mid[0].now)
    ensures var s := Run(c, true, EMPTY, pre);
            Tally(c, Taken, s, mid, k) as real <=
              Bursts(c, 1 + Tally(c, Early, s, mid, k)) + (to - from) * c.rate
              + Tally(c, Late, s, mid, k) as real
  {
    var s := Run(c, true, EMPTY, pre);
    var at := RunValid(c, true, EMPTY, pre, mid, start);
    BoundWithin(c, s, mid, k, at, from, to);
    InflowIs(c, from, to);
  }

  /** If a bucket refills while it goes stale, only a race makes a delete come early. */
  lemma {:induction false} EarlyDeletesAreRaced(c: Config, s: Sys, es: seq<Event>, k: Client, at: real)
    requires c.rate > 0.0 && RefillsInTime(c) && Valid(c, s, at) && Timed(at, es) && Untouched(c, s, at)
    ensures Tally(c, Early, s, es, k) <= Tally(c, Raced, s, es, k)
    decreases |es|
  {
    if es != [] {
      var e := es[0];
      if s.pending.Some? { LevelRises(c, s, s.pending.value, at, e.now); }
      StepValid(c, true, s, e, at);
      UntouchedStep(c, s, e);
      EarlyDeletesAreRaced(c, Step(c, true, s, e), es[1..], k, e.now);
    }
  }

  lemma {:induction false} RaceFreeCounts(c: Config, s: Sys, es: seq<Event>, k: Client)
    requires c.rate > 0.0 && RaceFree(c, s, es) && !s.touched
    ensures Tally(c, Raced, s, es, k) == 0 && Tally(c, Late, s, es, k) == 0
    decreases |es|
  {
    if es != [] {
      RaceFreeCounts(c, Step(c, true, s, es[0]), es[1..], k);
    }
  }

  lemma {:induction false} RaceFreeConcat(c: Config, s: Sys, a: seq<Event>, b: seq<Event>)
    ensures RaceFree(c, s, a + b) <==> RaceFree(c, s, a) && RaceFree(c, Run(c, true, s, a), b)
    ensures c.rate > 0.0 && RaceFree(c, s, a) && !s.touched ==> !Run(c, true, s, a).touched
    decreases |a|
  {
    if a == [] {
      assert a + b == b;
    } else {
      assert (a + b)[1..] == a[1..] + b;
      RaceFreeConcat(c, Step(c, true, s, a[0]), a[1..], b);
    }
  }

  /** If a bucket refills while it goes stale, every run is bounded with one more
      burst for each raced delete; and if no request races the cleanup, by the
      burst plus rate times the length. */
  lemma {:induction false} EveryClientIsBounded(c: Config, pre: seq<Event>, mid: seq<Event>, k: Client,
      start: real, from: real, to: real)
    requires c.rate > 0.0 && RefillsInTime(c) && Timed(start, pre + mid)
    requires from <= to && Ends(mid, to) && (mid != [] ==> from <= mid[0].now)
    ensures var s := Run(c, true, EMPTY, pre);
            Tally(c, Taken, s, mid, k) as real <=
              Bursts(c, 1 + Tally(c, Raced, s, mid, k)) + (to - from) * c.rate
              + Tally(c, Late, s, mid, k) as real
    ensures RaceFree(c, EMPTY, pre + mid) ==>
            Tally(c, Taken, Run(c, true, EMPTY, pre), mid, k) as real <= Floor0(c.burst as real) + (to - from) * c.rate
  {
    var s := Run(c, true, EMPTY, pre);
    EveryRunIsBounded(c, pre, mid, k, start, from, to);
    var at := RunValid(c, true, EMPTY, pre, mid, start);
    EarlyDeletesAreRaced(c, s, mid, k, at);
    BurstsGrow(c, 1 + Tally(c, Early, s, mid, k), 1 + Tally(c, Raced, s, mid, k));
    if RaceFree(c, EMPTY, pre + mid) {
      RaceFreeConcat(c, EMPTY, pre, mid);
      RaceFreeCounts(c, s, mid, k);
    }
  }

  // ---------------------------------------------------------------------------
  // The limiter as it runs
  // ---------------------------------------------------------------------------

  class TokenBucket {
    var tokens: real
    var last: real

    ghost function View(): Bucket
      reads this
    {
      Bucket(tokens, last)
    }

    constructor (c: Config, made: real)
      ensures View() == Fresh(c, made)
    {
      tokens, last := c.burst as real, made;
    }

    /** Refill, then take a token if there is one. */
    method Take(c: Config, now: real) returns (ok: bool)
      modifies this
      ensures ok == Admits(c, old(View()), now) && View() == Spent(c, old(View()), now)
    {
      var elapsed := now - last;
      InflowIs(c, last, now);
      assert elapsed * c.rate == Inflow(c, last, now);
      tokens := tokens + elapsed * c.rate;
      if tokens > c.burst as real {
        tokens := c.burst as real;
      }
      last := now;
      assert tokens == Refilled(c, old(View()), now);
      if tokens < 1.0 {
        return false;
      }
      tokens := tokens - 1.0;
      return true;
    }
  }

  /** The buckets of the clients, as values. */
  type Buckets = map<Client, Bucket>

  function Sight(s: Sys): Buckets {
    map k | k in s.clients && s.clients[k] < |s.heap| :: s.heap[s.clients[k]].bucket
  }

  class Limiter {
    const cfg: Config
    var clients: map<Client, TokenBucket>

    /** No two clients share a bucket. */
    ghost predicate Valid()
      reads this
    {
      forall k, k' :: k in clients && k' in clients && clients[k] == clients[k'] ==> k == k'
    }

    ghost function View(): Buckets
      reads this, clients.Values
    {
      map k | k in clients :: clients[k].View()
    }

    constructor (c: Config)
      ensures Valid() && cfg == c && clients == map[]
    {
      cfg, clients := c, map[];
    }

    /** The client's bucket, made and stored if it has none. */
    method LoadOrStore(client: Client, made: real) returns (bucket: TokenBucket)
      requires Valid()
      modifies this
      ensures Valid() && client in clients && clients[client] == bucket
      ensures if client in old(clients) then clients == old(clients)
              else fresh(bucket) && clients == old(clients)[client := bucket]
      ensures View() == if client in old(clients) then old(View()) else old(View())[client := Fresh(cfg, made)]
    {
      var candidate := new TokenBucket(cfg, made);
      if client !in clients {
        clients := clients[client := candidate];
      }
      bucket := clients[client];
    }

    /** One bucket has changed since the buckets were `before`. */
    lemma OnlyTaken(before: Buckets, client: Client, after: Bucket)
      requires Valid() && client in clients && clients[client].View() == after && before.Keys == clients.Keys
      requires forall k :: k in clients && k != client ==> clients[k].View() == before[k]
      ensures View() == before[client := after]
    {
    }

    /** A request that nothing interrupts. */
    method AllowClient(client: Client, made: real, now: real) returns (ok: bool)
      requires Valid()
      modifies this, clients.Values
      ensures Valid()
      ensures cfg.rate <= 0.0 ==> ok && View() == old(View())
      ensures cfg.rate > 0.0 ==>
        var b := if client in old(clients) then old(View())[client] else Fresh(cfg, made);
        ok == Admits(cfg, b, now) && View() == old(View())[client := Spent(cfg, b, now)]
    {
      if cfg.rate <= 0.0 {
        return true;
      }
      var bucket := LoadOrStore(client, made);
      ghost var loaded := View();
      ok := bucket.Take(cfg, now);
      OnlyTaken(loaded, client, Spent(cfg, loaded[client], now));
    }

    /** The staleness test of one bucket; it changes nothing. */
    method IsStale(client: Client, cutoff: real) returns (stale: bool)
      requires client in clients
      ensures stale <==> clients[client].View().last < cutoff
    {
      stale := clients[client].last < cutoff;
    }

    /** A cleanup that no request interrupts deletes exactly the stale buckets. */
    method CleanupStaleClients(tick: real)
      requires Valid()
      modifies this
      ensures Valid()
      ensures clients.Keys <= old(clients).Keys && forall k :: k in clients ==> clients[k] == old(clients)[k]
      ensures forall k :: k in old(clients) ==> (k in clients <==> !Stale(cfg, old(clients[k].View()), tick))
    {
      var cutoff := tick - cfg.staleAfter;
      var todo := clients.Keys;
      while todo != {}
        invariant Valid() && todo <= clients.Keys <= old(clients).Keys
        invariant forall k :: k in clients ==> clients[k] == old(clients)[k]
        invariant forall k :: k in old(clients) && k !in todo ==> (k in clients <==> old(clients)[k].last >= cutoff)
        decreases |todo|
      {
        var k :| k in todo;
        todo := todo - {k};
        var stale := IsStale(k, cutoff);
        if stale {
          clients := clients - {k};
        }
      }
    }
  }

  lemma LoadSight(c: Config, s: Sys, t: nat, k: Client, made: real, now: real)
    requires Valid(c, s, now) && t !in s.flying
    ensures var s1 := LoadStep(c, s, t, k, made);
            Sight(s1) == Sight(s)[k := if k in s.clients then Sight(s)[k] else Fresh(c, made)]
  {
  }

  lemma SpendSight(c: Config, s: Sys, t: nat, now: real)
    requires Valid(c, s, now) && Flies(s, t) && Current(s, t)
    ensures var k := ClientOf(s, t);
            && Sight(SpendStep(c, s, t, now)) == Sight(s)[k := Spent(c, Sight(s)[k], now)]
            && s.heap[s.flying[t]].bucket == Sight(s)[k]
  {
    var s', k := SpendStep(c, s, t, now), ClientOf(s, t);
    forall j | j in s.clients && j != k ensures Sight(s')[j] == Sight(s)[j] {
      assert s.heap[s.clients[j]].client == j;
    }
  }

  lemma Overwrite(m: Buckets, k: Client, b: Bucket, b': Bucket)
    ensures m[k := b][k := b'] == m[k := b'] && m[k := b][k] == b
  {
  }

  /** The object's calls are runs of the machine: a whole request is a load and a spend. */
  lemma WholeRequestIsTwoSteps(c: Config, evict: bool, s: Sys, t: nat, k: Client, made: real, now: real)
    requires c.rate > 0.0 && Valid(c, s, now) && t !in s.flying && made <= now
    ensures var s1 := Step(c, evict, s, Load(t, k, made, now));
            var b := if k in s.clients then Sight(s)[k] else Fresh(c, made);
            && Answer(c, s1, Spend(t, now)) == Admits(c, b, now)
            && Sight(Step(c, evict, s1, Spend(t, now))) == Sight(s)[k := Spent(c, b, now)]
  {
    var s1 := Step(c, evict, s, Load(t, k, made, now));
    Loaded(c, s, t, k, made, now);
    LoadSight(c, s, t, k, made, now);
    StepValid(c, evict, s, Load(t, k, made, now), now);
    SpendSight(c, s1, t, now);
    Overwrite(Sight(s), k, if k in s.clients then Sight(s)[k] else Fresh(c, made), Spent(c, Sight(s1)[k], now));
  }

  /** And a cleanup of one client is a test and its delete. */
  lemma WholeCleanupIsTwoSteps(c: Config, s: Sys, k: Client, tick: real, now: real)
    requires c.rate > 0.0 && Valid(c, s, now) && s.pending.None? && k in s.clients
    ensures var s' := Step(c, true, Step(c, true, s, Test(k, tick, now)), Delete(now));
            Sight(s') == if Stale(c, Sight(s)[k], tick) then Sight(s) - {k} else Sight(s)
  {
  }
}
