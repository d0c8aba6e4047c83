/** The fleet cache: replicas with a memory and a disk tier that push writes to
    the owner of a key and fetch from it. Every operation that takes time is
    split: what is still to be stored, or is on the wire, is an offer that names
    the instant its TTL was measured. Replicas may disagree on who owns a key. */
module Fleet {
  import opened CacheKeys
  import opened Wrappers

  const MS: int := 1_000_000
  const SHADOW_MAX_TTL: int := 30_000_000_000
  const DEFAULT_PUSH_TTL: int := 30_000_000_000
  const MIN_USABLE_TTL: int := 5_000_000_000

  datatype Addr = Addr(name: string)

  datatype Slot = Slot(at: Addr, key: Key)

  datatype Config = Config(writeThrough: bool, pushMinTTL: int, hasDisk: bool, diskMinTTL: int, maxValue: int,
      defaultTTL: int)

  /** An application write. */
  datatype Write = Write(key: Key, value: string, time: int, ttl: int)

  /** One move of a value: its TTL was measured at one instant and applied at another. */
  datatype Hop = Hop(measured: int, applied: int)

  /** A stored value, with the write it comes from and the moves that brought it here. */
  datatype Copy = Copy(value: string, expiresAt: int, write: nat, hops: seq<Hop>)

  /** What becomes of an offer: a store in one tier, a push to the key's owner, a
      prefetch, or the write with which `Cache.Get` keeps a value it fetched. */
  datatype Kind = Memory | Disk | Push | Shadow | Fetched

  /** A value on its way into a tier of `at`, or on the wire towards `at`. */
  datatype Offer = Offer(kind: Kind, at: Addr, key: Key, value: string, ttl: int, measured: int, write: nat,
      hops: seq<Hop>)

  datatype State = State(clock: int, memory: map<Slot, Copy>, disk: map<Slot, Copy>,
                         offers: seq<Offer>, writes: seq<Write>, pushed: seq<nat>)

  const EMPTY := State(0, map[], map[], [], [], [])

  /** `owner` is who the acting replica's ring says owns the key; `allowed` is
      its per-peer breaker. */
  datatype Event =
    | Tick(d: nat)
    | SetWithTTL(at: Addr, key: Key, value: string, ttl: int, owner: Addr, allowed: bool)
    | SetShadow(at: Addr, key: Key, value: string, ttl: int, owner: Addr)
    | SetLocalAndDisk(at: Addr, key: Key, value: string, ttl: int)
    | SetLocalOnly(at: Addr, key: Key, value: string, ttl: int)
    | Apply(i: nat, owner: Addr, allowed: bool)
    | Serve(owner: Addr, key: Key, to: Addr, kind: Kind)
    | Join(i: nat)
    | PromoteDisk(at: Addr, key: Key)
    | GetDisk(at: Addr, key: Key, owner: Addr, allowed: bool)
    | Lose(i: nat)
    | DropMemory(slot: Slot)
    | DropDisk(slot: Slot)

  // ---------------------------------------------------------------------------
  // The cache's own decisions
  // ---------------------------------------------------------------------------

  function Min(a: int, b: int): int {
    if a < b then a else b
  }

  function ClampedTTL(c: Config, ownerLocal: bool, ttl: int): int {
    if c.writeThrough && !ownerLocal then Min(ttl, SHADOW_MAX_TTL) else ttl
  }

  predicate SkipsDisk(k: Key) {
    "patterns:" <= k.name
  }

  predicate DiskAccepts(c: Config, k: Key, ttl: int) {
    c.hasDisk && !SkipsDisk(k) && ttl > 0 && !(c.diskMinTTL > 0 && ttl < c.diskMinTTL)
  }

  predicate Pushes(c: Config, at: Addr, owner: Addr, allowed: bool, value: string, ttl: int) {
    c.writeThrough && |value| > 0 && !(ttl > 0 && ttl < c.pushMinTTL) && owner != at && allowed
  }

  /** The TTL a pushed value gets at the receiver: whole milliseconds on the
      wire, and a default when none is left. */
  function ReceivedTTL(ttl: int): int {
    var ms := if ttl > 0 then ttl / MS else 0;
    if ms > 0 then ms * MS else DEFAULT_PUSH_TTL
  }

  /** What `setWithTTL` sets in motion: a store in memory, one on disk unless the
      replica is a non-owner under write-through, and a push to the owner. */
  function SetOffers(c: Config, o: Offer, owner: Addr, propagate: bool, allowed: bool): seq<Offer> {
    if |o.value| > c.maxValue then []
    else
      var ownerLocal := owner == o.at;
      var ttl := ClampedTTL(c, ownerLocal, o.ttl);
      var base := o.(ttl := ttl);
      [base.(kind := Memory)]
      + (if DiskAccepts(c, o.key, ttl) && !(c.writeThrough && !ownerLocal) then [base.(kind := Disk)] else [])
      + (if propagate && Pushes(c, o.at, owner, allowed, o.value, ttl) then [base.(kind := Push, at := owner)] else [])
  }

  function Sent(os: seq<Offer>): seq<nat> {
    if os == [] then [] else (if os[0].kind == Push then [os[0].write] else []) + Sent(os[1..])
  }

  function Offered(s: State, os: seq<Offer>): State {
    s.(offers := s.offers + os, pushed := s.pushed + Sent(os))
  }

  /** A fresh application write, as an offer measured now. */
  function NewWrite(s: State, at: Addr, k: Key, v: string, ttl: int): (State, Offer) {
    (s.(writes := s.writes + [Write(k, v, s.clock, ttl)]),
     Offer(Memory, at, k, v, ttl, s.clock, |s.writes|, []))
  }

  /** The offer re-measured on arrival. */
  function Arrived(o: Offer, now: int): Offer {
    o.(ttl := if o.kind == Push then ReceivedTTL(o.ttl) else o.ttl,
       measured := now, hops := o.hops + [Hop(o.measured, now)])
  }

  function StoredCopy(o: Offer, now: int): Copy {
    Copy(o.value, now + o.ttl, o.write, o.hops + [Hop(o.measured, now)])
  }

  /** A stored copy offered again with what is left of its TTL. */
  function Reoffer(c: Copy, kind: Kind, at: Addr, k: Key, ttl: int, now: int): Offer {
    Offer(kind, at, k, c.value, ttl, now, c.write, c.hops)
  }

  function ApplyOffer(c: Config, s: State, i: nat, owner: Addr, allowed: bool): State
    requires i < |s.offers|
  {
    var o := s.offers[i];
    var s' := s.(offers := Without(s.offers, i));
    match o.kind
    case Memory => s'.(memory := s.memory[Slot(o.at, o.key) := StoredCopy(o, s.clock)])
    case Disk => s'.(disk := s.disk[Slot(o.at, o.key) := StoredCopy(o, s.clock)])
    case Push => Offered(s', SetOffers(c, Arrived(o, s.clock), owner, true, allowed))
    case Shadow => Offered(s', SetOffers(c, Arrived(o, s.clock), owner, false, allowed))
    case Fetched => Offered(s', SetOffers(c, Arrived(o, s.clock), owner, true, allowed))
  }

  function ServeFrom(s: State, owner: Addr, k: Key, to: Addr, kind: Kind): State {
    var slot := Slot(owner, k);
    if slot !in s.memory || owner == to || kind == Disk || kind == Push then s
    else
      var left := s.memory[slot].expiresAt - s.clock;
      if left < MIN_USABLE_TTL then s
      else s.(offers := s.offers + [Reoffer(s.memory[slot], kind, to, k, left / MS * MS, s.clock)])
  }

  predicate DiskHit(s: State, slot: Slot) {
    slot in s.disk && s.clock < s.disk[slot].expiresAt
  }

  function PromoteFrom(s: State, at: Addr, k: Key): State {
    var slot := Slot(at, k);
    if !DiskHit(s, slot) then s
    else s.(offers := s.offers + [Reoffer(s.disk[slot], Memory, at, k, s.disk[slot].expiresAt - s.clock, s.clock)])
  }

  /** `Cache.Get` on a disk hit: the value is written again with the default TTL. */
  function RestartFrom(c: Config, s: State, at: Addr, k: Key, owner: Addr, allowed: bool): State {
    var slot := Slot(at, k);
    if !DiskHit(s, slot) then s
    else
      var o := Reoffer(s.disk[slot], Memory, at, k, c.defaultTTL, s.clock);
      Offered(s, SetOffers(c, o, owner, true, allowed))
  }

  function Step(c: Config, s: State, e: Event): State {
    match e
    case Tick(d) => s.(clock := s.clock + d)
    case SetWithTTL(at, k, v, ttl, owner, allowed) =>
      var (s', o) := NewWrite(s, at, k, v, ttl);
      Offered(s', SetOffers(c, o, owner, true, allowed))
    case SetShadow(at, k, v, ttl, owner) =>
      var (s', o) := NewWrite(s, at, k, v, ttl);
      Offered(s', SetOffers(c, o, owner, false, false))
    case SetLocalAndDisk(at, k, v, ttl) =>
      var (s', o) := NewWrite(s, at, k, v, ttl);
      if |v| > c.maxValue then s'
      else Offered(s', [o] + if DiskAccepts(c, k, ttl) then [o.(kind := Disk)] else [])
    case SetLocalOnly(at, k, v, ttl) =>
      var (s', o) := NewWrite(s, at, k, v, ttl);
      if |v| > c.maxValue then s' else Offered(s', [o])
    case Apply(i, owner, allowed) => if i < |s.offers| then ApplyOffer(c, s, i, owner, allowed) else s
    case Serve(owner, k, to, kind) => ServeFrom(s, owner, k, to, kind)
    case Join(i) =>
      if i < |s.offers| && s.offers[i].kind != Push then s.(offers := s.offers + [s.offers[i]]) else s
    case PromoteDisk(at, k) => PromoteFrom(s, at, k)
    case GetDisk(at, k, owner, allowed) => RestartFrom(c, s, at, k, owner, allowed)
    case Lose(i) => if i < |s.offers| then s.(offers := Without(s.offers, i)) else s
    case DropMemory(slot) => s.(memory := s.memory - {slot})
    case DropDisk(slot) => s.(disk := s.disk - {slot})
  }

  function Run(c: Config, es: seq<Event>): State {
    if es == [] then EMPTY else Step(c, Run(c, es[..|es| - 1]), es[|es| - 1])
  }

  // ---------------------------------------------------------------------------
  // Freshness
  // ---------------------------------------------------------------------------

  /** The message and processing time a value has spent between tiers. */
  function Delay(hops: seq<Hop>): int {
    if hops == [] then 0
    else Delay(hops[..|hops| - 1]) + (hops[|hops| - 1].applied - hops[|hops| - 1].measured)
  }

  /** The moves follow one another, from the write until `end`. */
  predicate Chained(start: int, hops: seq<Hop>, end: int) {
    if hops == [] then start <= end
    else
      var h := hops[|hops| - 1];
      Chained(start, hops[..|hops| - 1], h.measured) && h.measured <= h.applied <= end
  }

  lemma {:induction false} DelayIsAtMostElapsed(start: int, hops: seq<Hop>, end: int)
    requires Chained(start, hops, end)
    ensures 0 <= Delay(hops) <= end - start
  {
    if hops != [] {
      DelayIsAtMostElapsed(start, hops[..|hops| - 1], hops[|hops| - 1].measured);
    }
  }

  lemma {:induction false} ChainGrows(start: int, hops: seq<Hop>, m: int, now: int)
    requires Chained(start, hops, m) && m <= now
    ensures Chained(start, hops + [Hop(m, now)], now)
    ensures Delay(hops + [Hop(m, now)]) == Delay(hops) + (now - m)
  {
    assert (hops + [Hop(m, now)])[..|hops|] == hops;
  }

  lemma {:induction false} ChainWaits(start: int, hops: seq<Hop>, end: int, later: int)
    requires Chained(start, hops, end) && end <= later
    ensures Chained(start, hops, later)
  {
  }

  /** The write's own deadline, put off by the time the value spent travelling. */
  function Deadline(w: Write, hops: seq<Hop>): int {
    w.time + w.ttl + Delay(hops)
  }

  predicate CopyOk(ws: seq<Write>, now: int, k: Key, c: Copy) {
    && c.write < |ws|
    && ws[c.write].key == k && ws[c.write].value == c.value
    && Chained(ws[c.write].time, c.hops, now)
    && c.expiresAt <= Deadline(ws[c.write], c.hops)
  }

  /** The TTL an offer has where it lands. */
  function Lands(o: Offer): int {
    if o.kind == Push then ReceivedTTL(o.ttl) else o.ttl
  }

  predicate OfferOk(ws: seq<Write>, now: int, o: Offer) {
    && o.write < |ws|
    && ws[o.write].key == o.key && ws[o.write].value == o.value
    && o.measured <= now && Chained(ws[o.write].time, o.hops, o.measured)
    && o.measured + Lands(o) <= Deadline(ws[o.write], o.hops)
  }

  ghost predicate Fresh(s: State) {
    && (forall slot :: slot in s.memory ==> CopyOk(s.writes, s.clock, slot.key, s.memory[slot]))
    && (forall slot :: slot in s.disk ==> CopyOk(s.writes, s.clock, slot.key, s.disk[slot]))
    && (forall i :: 0 <= i < |s.offers| ==> OfferOk(s.writes, s.clock, s.offers[i]))
  }

  /** A push carries at most 30 seconds, and a fetched copy has a millisecond left. */
  predicate Capped(o: Offer) {
    (o.kind == Push ==> o.ttl <= SHADOW_MAX_TTL) && (o.kind == Fetched ==> MS <= o.ttl)
  }

  ghost predicate AllCapped(s: State) {
    forall i :: 0 <= i < |s.offers| ==> Capped(s.offers[i])
  }

  /** A write with this TTL at a non-owner is pushed to the owner. */
  predicate Reaches(c: Config, at: Addr, owner: Addr, allowed: bool, value: string, ttl: int) {
    && c.writeThrough && at != owner && allowed && 0 < |value| <= c.maxValue
    && (ttl <= 0 || Min(ttl, SHADOW_MAX_TTL) >= c.pushMinTTL)
  }

  /** A pushed write asks for a millisecond or more, and a default TTL that a disk
      hit starts anew ends before the write would have. */
  predicate InTime(c: Config, s: State, e: Event) {
    match e
    case SetWithTTL(at, _, v, ttl, owner, allowed) => Reaches(c, at, owner, allowed, v, ttl) ==> ttl >= MS
    case GetDisk(at, k, owner, allowed) =>
      DiskHit(s, Slot(at, k)) && s.disk[Slot(at, k)].write < |s.writes| ==>
        var d := s.disk[Slot(at, k)];
        var left := Deadline(s.writes[d.write], d.hops) - s.clock;
        var ttl := ClampedTTL(c, owner == at, c.defaultTTL);
        |d.value| <= c.maxValue ==>
          ttl <= left && (Reaches(c, at, owner, allowed, d.value, c.defaultTTL) ==> ReceivedTTL(ttl) <= left)
    case _ => true
  }

  ghost predicate AllOk(ws: seq<Write>, now: int, os: seq<Offer>) {
    forall i :: 0 <= i < |os| ==> OfferOk(ws, now, os[i])
  }

  lemma SetOffersAre(c: Config, o: Offer, owner: Addr, propagate: bool, allowed: bool)
    ensures var os := SetOffers(c, o, owner, propagate, allowed);
            var base := o.(ttl := ClampedTTL(c, owner == o.at, o.ttl));
            var pushes := propagate && Reaches(c, o.at, owner, allowed, o.value, o.ttl);
            && (os == [] <==> |o.value| > c.maxValue)
            && (os != [] ==> os[0] == base.(kind := Memory))
            && (pushes ==> os != [] && os[|os| - 1] == base.(kind := Push, at := owner))
            && Sent(os) == (if pushes then [o.write] else [])
            && forall i :: 0 <= i < |os| ==>
                 os[i] == base.(kind := Memory) || os[i] == base.(kind := Disk)
                 || (os[i] == base.(kind := Push, at := owner) && pushes)
  {
    if |o.value| <= c.maxValue {
      var base := o.(ttl := ClampedTTL(c, owner == o.at, o.ttl));
      SentOf(base.(kind := Memory), base.(kind := Disk), base.(kind := Push, at := owner));
    }
  }

  lemma SentOf(m: Offer, d: Offer, p: Offer)
    requires m.kind == Memory && d.kind == Disk && p.kind == Push
    ensures Sent([m] + [d] + [p]) == [p.write] && Sent([m] + [d] + []) == []
    ensures Sent([m] + [] + [p]) == [p.write] && Sent([m] + [] + []) == [] && Sent([m] + [d]) == [] && Sent([m]) == []
  {
    assert [p][1..] == [] && [d][1..] == [] && [m][1..] == [];
    assert [d, p][1..] == [p] && [m, d][1..] == [d] && [m, p][1..] == [p] && [m, d, p][1..] == [d, p];
    assert [m] + [d] + [p] == [m, d, p] && [m] + [d] + [] == [m, d] && [m] + [] + [p] == [m, p] && [m] + [] + [] == [m];
    assert Sent([p]) == [p.write] && Sent([d]) == [] && Sent([d, p]) == [p.write];
  }

  /** The offers a write sets in motion are in time exactly when the copy it
      leaves is, and the push, if there is one, is too. */
  lemma {:induction false} SetOffersOk(c: Config, ws: seq<Write>, now: int, o: Offer, owner: Addr, propagate: bool,
      allowed: bool)
    requires o.write < |ws| && ws[o.write].key == o.key && ws[o.write].value == o.value
    requires o.measured <= now && Chained(ws[o.write].time, o.hops, o.measured)
    ensures var left := Deadline(ws[o.write], o.hops) - o.measured;
            var ttl := ClampedTTL(c, owner == o.at, o.ttl);
            AllOk(ws, now, SetOffers(c, o, owner, propagate, allowed)) <==>
              |o.value| > c.maxValue
              || (ttl <= left &&
                  (propagate && Reaches(c, o.at, owner, allowed, o.value, o.ttl) ==> ReceivedTTL(ttl) <= left))
  {
    SetOffersAre(c, o, owner, propagate, allowed);
    var os := SetOffers(c, o, owner, propagate, allowed);
    var left := Deadline(ws[o.write], o.hops) - o.measured;
    if AllOk(ws, now, os) && os != [] {
      assert OfferOk(ws, now, os[0]) && OfferOk(ws, now, os[|os| - 1]);
    }
  }

  lemma {:induction false} ArrivedOk(c: Config, ws: seq<Write>, now: int, o: Offer, owner: Addr, allowed: bool)
    requires OfferOk(ws, now, o) && Capped(o) && (o.kind == Push || o.kind == Shadow || o.kind == Fetched)
    ensures AllOk(ws, now, SetOffers(c, Arrived(o, now), owner, o.kind != Shadow, allowed))
  {
    ChainGrows(ws[o.write].time, o.hops, o.measured, now);
    var ttl := ClampedTTL(c, owner == o.at, Lands(o));
    PushNeverExtends(ttl);
    PushNeverExtends(o.ttl);
    SetOffersOk(c, ws, now, Arrived(o, now), owner, o.kind != Shadow, allowed);
  }

  lemma {:induction false} StoredOk(ws: seq<Write>, now: int, o: Offer)
    requires OfferOk(ws, now, o) && (o.kind == Memory || o.kind == Disk)
    ensures CopyOk(ws, now, o.key, StoredCopy(o, now))
  {
    ChainGrows(ws[o.write].time, o.hops, o.measured, now);
  }

  /** On the wire a TTL is rounded down, never up, exactly when it is a whole
      millisecond or more; anything shorter comes back as 30 seconds. */
  lemma PushNeverExtends(ttl: int)
    ensures ReceivedTTL(ttl) <= ttl <==> ttl >= MS
    ensures ReceivedTTL(ttl) >= MS
  {
    if ttl >= MS {
      assert ttl == ttl / MS * MS + ttl % MS;
    }
  }

  lemma {:induction false} OfferWaits(ws: seq<Write>, now: int, o: Offer, w: Write, later: int)
    requires OfferOk(ws, now, o) && now <= later
    ensures OfferOk(ws + [w], later, o) && OfferOk(ws, later, o)
  {
  }

  lemma {:induction false} CopyWaits(ws: seq<Write>, now: int, k: Key, c: Copy, w: Write, later: int)
    requires CopyOk(ws, now, k, c) && now <= later
    ensures CopyOk(ws + [w], later, k, c) && CopyOk(ws, later, k, c)
  {
    ChainWaits(ws[c.write].time, c.hops, now, later);
  }

  lemma {:induction false} TickKeeps(s: State, d: nat)
    requires Fresh(s)
    ensures Fresh(s.(clock := s.clock + d))
  {
    var w := Write(Key(""), "", 0, 0);
    forall slot | slot in s.memory ensures CopyOk(s.writes, s.clock + d, slot.key, s.memory[slot]) {
      CopyWaits(s.writes, s.clock, slot.key, s.memory[slot], w, s.clock + d);
    }
    forall slot | slot in s.disk ensures CopyOk(s.writes, s.clock + d, slot.key, s.disk[slot]) {
      CopyWaits(s.writes, s.clock, slot.key, s.disk[slot], w, s.clock + d);
    }
    forall i | 0 <= i < |s.offers| ensures OfferOk(s.writes, s.clock + d, s.offers[i]) {
      OfferWaits(s.writes, s.clock, s.offers[i], w, s.clock + d);
    }
  }

  lemma {:induction false} NewWriteKeeps(s: State, at: Addr, k: Key, v: string, ttl: int)
    requires Fresh(s)
    ensures var (s', o) := NewWrite(s, at, k, v, ttl);
            Fresh(s') && OfferOk(s'.writes, s'.clock, o) && s'.clock == s.clock && o.kind == Memory
  {
    var w := Write(k, v, s.clock, ttl);
    forall slot | slot in s.memory ensures CopyOk(s.writes + [w], s.clock, slot.key, s.memory[slot]) {
      CopyWaits(s.writes, s.clock, slot.key, s.memory[slot], w, s.clock);
    }
    forall slot | slot in s.disk ensures CopyOk(s.writes + [w], s.clock, slot.key, s.disk[slot]) {
      CopyWaits(s.writes, s.clock, slot.key, s.disk[slot], w, s.clock);
    }
    forall i | 0 <= i < |s.offers| ensures OfferOk(s.writes + [w], s.clock, s.offers[i]) {
      OfferWaits(s.writes, s.clock, s.offers[i], w, s.clock);
    }
  }

  lemma {:induction false} OfferedKeeps(s: State, os: seq<Offer>)
    requires Fresh(s)
    ensures Fresh(Offered(s, os)) <==> AllOk(s.writes, s.clock, os)
  {
    var s' := Offered(s, os);
    if Fresh(s') {
      forall i | 0 <= i < |os| ensures OfferOk(s.writes, s.clock, os[i]) {
        assert s'.offers[|s.offers| + i] == os[i];
      }
    }
  }

  lemma {:induction false} TakenKeeps(s: State, i: nat)
    requires Fresh(s) && i < |s.offers|
    ensures Fresh(s.(offers := Without(s.offers, i)))
  {
  }

  lemma StoreKeeps(s: State, o: Offer)
    requires Fresh(s) && OfferOk(s.writes, s.clock, o) && (o.kind == Memory || o.kind == Disk)
    ensures Fresh(s.(memory := s.memory[Slot(o.at, o.key) := StoredCopy(o, s.clock)]))
    ensures Fresh(s.(disk := s.disk[Slot(o.at, o.key) := StoredCopy(o, s.clock)]))
  {
    StoredOk(s.writes, s.clock, o);
  }

  lemma {:induction false} ApplyKeeps(c: Config, s: State, i: nat, owner: Addr, allowed: bool)
    requires Fresh(s) && AllCapped(s) && i < |s.offers|
    ensures Fresh(ApplyOffer(c, s, i, owner, allowed))
  {
    var o := s.offers[i];
    var s' := s.(offers := Without(s.offers, i));
    TakenKeeps(s, i);
    match o.kind
    case Memory => StoreKeeps(s', o);
    case Disk => StoreKeeps(s', o);
    case _ =>
      ArrivedOk(c, s.writes, s.clock, o, owner, allowed);
      OfferedKeeps(s', SetOffers(c, Arrived(o, s.clock), owner, o.kind != Shadow, allowed));
  }

  lemma {:induction false} ReofferOk(ws: seq<Write>, now: int, k: Key, c: Copy, kind: Kind, at: Addr, ttl: int)
    requires CopyOk(ws, now, k, c) && ttl <= c.expiresAt - now
    requires kind != Push
    ensures OfferOk(ws, now, Reoffer(c, kind, at, k, ttl, now))
  {
  }

  lemma ServeKeeps(s: State, owner: Addr, k: Key, to: Addr, kind: Kind)
    requires Fresh(s)
    ensures Fresh(ServeFrom(s, owner, k, to, kind))
  {
    var slot := Slot(owner, k);
    if slot in s.memory && owner != to && kind != Disk && kind != Push {
      var left := s.memory[slot].expiresAt - s.clock;
      if left >= MIN_USABLE_TTL {
        assert left == left / MS * MS + left % MS;
        ReofferOk(s.writes, s.clock, k, s.memory[slot], kind, to, left / MS * MS);
      }
    }
  }

  lemma PromoteKeeps(s: State, at: Addr, k: Key)
    requires Fresh(s)
    ensures Fresh(PromoteFrom(s, at, k))
  {
    var slot := Slot(at, k);
    if DiskHit(s, slot) {
      ReofferOk(s.writes, s.clock, k, s.disk[slot], Memory, at, s.disk[slot].expiresAt - s.clock);
    }
  }

  lemma SetKeeps(c: Config, s: State, e: Event)
    requires Fresh(s)
    requires e.SetWithTTL? || e.SetShadow? || e.SetLocalAndDisk? || e.SetLocalOnly?
    ensures Fresh(Step(c, s, e)) <==> InTime(c, s, e)
  {
    var (s', o) := NewWrite(s, e.at, e.key, e.value, e.ttl);
    NewWriteKeeps(s, e.at, e.key, e.value, e.ttl);
    if e.SetWithTTL? {
      PushNeverExtends(ClampedTTL(c, e.owner == e.at, e.ttl));
      SetOffersOk(c, s'.writes, s'.clock, o, e.owner, true, e.allowed);
      OfferedKeeps(s', SetOffers(c, o, e.owner, true, e.allowed));
    } else if e.SetShadow? {
      SetOffersOk(c, s'.writes, s'.clock, o, e.owner, false, false);
      OfferedKeeps(s', SetOffers(c, o, e.owner, false, false));
    } else {
      OfferedKeeps(s', [o]);
      OfferedKeeps(s', [o] + [o.(kind := Disk)]);
      assert [o] + [] == [o];
    }
  }

  lemma RestartKeeps(c: Config, s: State, e: Event)
    requires Fresh(s) && e.GetDisk?
    ensures Fresh(Step(c, s, e)) <==> InTime(c, s, e)
  {
    var slot := Slot(e.at, e.key);
    if DiskHit(s, slot) {
      var d := s.disk[slot];
      var o := Reoffer(d, Memory, e.at, e.key, c.defaultTTL, s.clock);
      assert CopyOk(s.writes, s.clock, e.key, d);
      SetOffersOk(c, s.writes, s.clock, o, e.owner, true, e.allowed);
      OfferedKeeps(s, SetOffers(c, o, e.owner, true, e.allowed));
    }
  }

  /** A step from a fresh state leads to a fresh one exactly when it is in time. */
  lemma StepKeepsFresh(c: Config, s: State, e: Event)
    requires Fresh(s) && AllCapped(s)
    ensures Fresh(Step(c, s, e)) <==> InTime(c, s, e)
  {
    match e
    case Tick(d) => TickKeeps(s, d);
    case Apply(i, owner, allowed) => if i < |s.offers| { ApplyKeeps(c, s, i, owner, allowed); }
    case Serve(owner, k, to, kind) => ServeKeeps(s, owner, k, to, kind);
    case PromoteDisk(at, k) => PromoteKeeps(s, at, k);
    case GetDisk(_, _, _, _) => RestartKeeps(c, s, e);
    case Join(_) =>
    case Lose(_) =>
    case DropMemory(_) =>
    case DropDisk(_) =>
    case _ => SetKeeps(c, s, e);
  }

  lemma OfferedCapped(c: Config, s: State, o: Offer, owner: Addr, propagate: bool, allowed: bool)
    requires AllCapped(s)
    ensures AllCapped(Offered(s, SetOffers(c, o, owner, propagate, allowed)))
  {
    SetOffersAre(c, o, owner, propagate, allowed);
  }

  lemma {:induction false} ApplyCapped(c: Config, s: State, i: nat, owner: Addr, allowed: bool)
    requires AllCapped(s) && i < |s.offers|
    ensures AllCapped(ApplyOffer(c, s, i, owner, allowed))
  {
    var o, s' := s.offers[i], s.(offers := Without(s.offers, i));
    assert AllCapped(s');
    if o.kind != Memory && o.kind != Disk {
      OfferedCapped(c, s', Arrived(o, s.clock), owner, o.kind != Shadow, allowed);
    }
  }

  lemma StepKeepsCapped(c: Config, s: State, e: Event)
    requires AllCapped(s)
    ensures AllCapped(Step(c, s, e))
  {
    match e
    case SetWithTTL(at, k, v, ttl, owner, allowed) =>
      var (s', o) := NewWrite(s, at, k, v, ttl);
      OfferedCapped(c, s', o, owner, true, allowed);
    case SetShadow(at, k, v, ttl, owner) =>
      var (s', o) := NewWrite(s, at, k, v, ttl);
      OfferedCapped(c, s', o, owner, false, false);
    case Apply(i, owner, allowed) => if i < |s.offers| { ApplyCapped(c, s, i, owner, allowed); }
    case GetDisk(at, k, owner, allowed) =>
      if DiskHit(s, Slot(at, k)) {
        var o := Reoffer(s.disk[Slot(at, k)], Memory, at, k, c.defaultTTL, s.clock);
        OfferedCapped(c, s, o, owner, true, allowed);
      }
    case _ =>
  }

  lemma {:induction false} AlwaysCapped(c: Config, es: seq<Event>)
    ensures AllCapped(Run(c, es))
  {
    if es != [] {
      AlwaysCapped(c, es[..|es| - 1]);
      StepKeepsCapped(c, Run(c, es[..|es| - 1]), es[|es| - 1]);
    }
  }

  ghost predicate AllInTime(c: Config, es: seq<Event>) {
    forall i :: 0 <= i < |es| ==> InTime(c, Run(c, es[..i]), es[i])
  }

  ghost predicate AllFresh(c: Config, es: seq<Event>) {
    forall n :: 0 <= n <= |es| ==> Fresh(Run(c, es[..n]))
  }

  lemma {:induction false} AllFreshGrows(c: Config, es: seq<Event>)
    requires es != []
    ensures AllFresh(c, es) <==> AllFresh(c, es[..|es| - 1]) && Fresh(Run(c, es))
    ensures AllFresh(c, es[..|es| - 1]) ==> Fresh(Run(c, es[..|es| - 1]))
  {
    var before := es[..|es| - 1];
    assert es[..|es|] == es && before[..|before|] == before;
    assert forall n :: 0 <= n <= |before| ==> before[..n] == es[..n];
  }

  lemma {:induction false} AllInTimeGrows(c: Config, es: seq<Event>)
    requires es != []
    ensures AllInTime(c, es) <==>
      AllInTime(c, es[..|es| - 1]) && InTime(c, Run(c, es[..|es| - 1]), es[|es| - 1])
  {
    var before := es[..|es| - 1];
    assert forall n :: 0 <= n <= |before| ==> before[..n] == es[..n];
  }

  /** In every run, on every replica and tier, a copy of a key holds the value
      one write put there and expires no later than that write's time plus its
      TTL plus the time the value spent travelling, and so will whatever is on its
      way: exactly as long as no write of less than a millisecond is pushed and no
      disk hit starts a default TTL that ends later than the write's. */
  lemma {:induction false} NoCopyOutlivesItsWrite(c: Config, es: seq<Event>)
    ensures AllFresh(c, es) <==> AllInTime(c, es)
  {
    if es != [] {
      var before := es[..|es| - 1];
      NoCopyOutlivesItsWrite(c, before);
      AllFreshGrows(c, es);
      AllInTimeGrows(c, es);
      if Fresh(Run(c, before)) {
        AlwaysCapped(c, before);
        StepKeepsFresh(c, Run(c, before), es[|es| - 1]);
      }
    }
  }

  function AppliedAt(o: Offer): Event {
    Apply(0, o.at, false)
  }

  lemma {:induction false} LateStoreLands(c: Config, s: State, o: Offer)
    requires s.offers != [] && s.offers[0] == o && o.kind == Memory && o.write < |s.writes|
    requires o.measured == s.clock && o.measured + o.ttl > Deadline(s.writes[o.write], o.hops)
    ensures var u := Step(c, s, AppliedAt(o));
            var slot := Slot(o.at, o.key);
            slot in u.memory && !CopyOk(s.writes, u.clock, o.key, u.memory[slot])
  {
    DelayOfOne(o.hops, s.clock);
  }

  /** A push that is late does leave a copy that outlives its write. */
  lemma {:induction false} LatePushLands(c: Config, s: State, o: Offer)
    requires s.offers == [o] && o.kind == Push && o.write < |s.writes| && |o.value| <= c.maxValue
    requires o.measured == s.clock && o.measured + Lands(o) > Deadline(s.writes[o.write], o.hops)
    ensures var u := Step(c, Step(c, s, AppliedAt(o)), AppliedAt(o));
            var slot := Slot(o.at, o.key);
            slot in u.memory && !CopyOk(s.writes, u.clock, o.key, u.memory[slot])
  {
    var t := Step(c, s, AppliedAt(o));
    SetOffersAre(c, Arrived(o, s.clock), o.at, true, false);
    DelayOfOne(o.hops, s.clock);
    LateStoreLands(c, t, t.offers[0]);
  }

  lemma {:induction false} DelayOfOne(hops: seq<Hop>, now: int)
    ensures Delay(hops + [Hop(now, now)]) == Delay(hops)
  {
    assert (hops + [Hop(now, now)])[..|hops|] == hops;
  }

  /** Every pushed write of less than a millisecond, and so a write without a TTL
      under the default settings, can outlive itself at the owner. */
  lemma ShortPushOutlives(c: Config, s: State, e: Event)
    requires s.offers == [] && e.SetWithTTL? && Reaches(c, e.at, e.owner, e.allowed, e.value, e.ttl) && e.ttl < MS
    ensures var t := Step(c, Step(c, s, e), Apply(0, e.owner, false));
            var u := Step(c, Step(c, t, Apply(0, e.owner, false)), Apply(0, e.owner, false));
            var slot := Slot(e.owner, e.key);
            slot in u.memory && !CopyOk(t.writes, u.clock, e.key, u.memory[slot])
  {
    var (s', o) := NewWrite(s, e.at, e.key, e.value, e.ttl);
    var os := SetOffers(c, o, e.owner, true, e.allowed);
    SetOffersAre(c, o, e.owner, true, e.allowed);
    assert |os| == 2 && Step(c, s, e).offers == os;
    PushNeverExtends(os[1].ttl);
    LatePushLands(c, Step(c, Step(c, s, e), Apply(0, e.owner, false)), os[1]);
  }

  /** Every disk hit at the owner that starts a default TTL longer than what is
      left of the write's can leave a copy that outlives the write. */
  lemma RestartOutlives(c: Config, s: State, at: Addr, k: Key)
    requires s.offers == [] && DiskHit(s, Slot(at, k))
    requires var d := s.disk[Slot(at, k)];
      d.write < |s.writes| && |d.value| <= c.maxValue && s.clock + c.defaultTTL > Deadline(s.writes[d.write], d.hops)
    ensures var u := Step(c, Step(c, s, GetDisk(at, k, at, false)), Apply(0, at, false));
            var slot := Slot(at, k);
            slot in u.memory && !CopyOk(s.writes, u.clock, k, u.memory[slot])
  {
    var o := Reoffer(s.disk[Slot(at, k)], Memory, at, k, c.defaultTTL, s.clock);
    SetOffersAre(c, o, at, true, false);
    LateStoreLands(c, Step(c, s, GetDisk(at, k, at, false)), o);
  }

  // ---------------------------------------------------------------------------
  // What the owner keeps of a write's TTL
  // ---------------------------------------------------------------------------

  /** The offer `o` taken off the wire by the owner of its key, and the store that follows. */
  function OwnerStores(c: Config, s: State, o: Offer): Copy
    requires |o.value| <= c.maxValue
  {
    SetOffersAre(c, Arrived(o, s.clock), o.at, true, false);
    StoredCopy(SetOffers(c, Arrived(o, s.clock), o.at, true, false)[0], s.clock)
  }

  /** The push that a write sets in motion. */
  lemma PushOf(c: Config, s: State, e: Event)
    requires e.SetWithTTL? && Reaches(c, e.at, e.owner, e.allowed, e.value, e.ttl)
    ensures var s' := Step(c, s, e);
            s'.clock == s.clock && |s'.offers| > 0 && s'.offers[|s'.offers| - 1] ==
              Offer(Push, e.owner, e.key, e.value, Min(e.ttl, SHADOW_MAX_TTL), s.clock, |s.writes|, [])
  {
    var (_, o) := NewWrite(s, e.at, e.key, e.value, e.ttl);
    SetOffersAre(c, o, e.owner, true, e.allowed);
    assert Step(c, s, e).offers == s.offers + SetOffers(c, o, e.owner, true, e.allowed);
  }

  lemma OwnerStoresReceived(c: Config, s: State, o: Offer)
    requires |o.value| <= c.maxValue && o.kind == Push
    ensures OwnerStores(c, s, o).expiresAt == s.clock + ReceivedTTL(o.ttl)
  {
    SetOffersAre(c, Arrived(o, s.clock), o.at, true, false);
  }

  lemma ReceivedIsKept(ttl: int)
    ensures ReceivedTTL(Min(ttl, SHADOW_MAX_TTL)) == ttl <==> MS <= ttl <= SHADOW_MAX_TTL && ttl % MS == 0
    ensures ttl > SHADOW_MAX_TTL ==> ReceivedTTL(Min(ttl, SHADOW_MAX_TTL)) == SHADOW_MAX_TTL
  {
    assert ttl == ttl / MS * MS + ttl % MS;
  }

  /** A push carries the whole TTL of its write exactly when that is at most 30
      seconds, and 30 seconds otherwise; the owner's copy gets the write's own TTL
      exactly when that is also a whole number of milliseconds, at least one. */
  lemma OwnerKeepsTTLExactly(c: Config, s: State, e: Event)
    requires e.SetWithTTL? && Reaches(c, e.at, e.owner, e.allowed, e.value, e.ttl)
    ensures var s' := Step(c, s, e);
            |s'.offers| > 0 &&
            var o := s'.offers[|s'.offers| - 1];
            && o.kind == Push && o.at == e.owner && o.write == |s.writes| && o.value == e.value
            && (o.ttl == e.ttl <==> e.ttl <= SHADOW_MAX_TTL)
            && (e.ttl > SHADOW_MAX_TTL ==> o.ttl == SHADOW_MAX_TTL)
            && (OwnerStores(c, s', o).expiresAt == s'.clock + e.ttl <==>
                  MS <= e.ttl <= SHADOW_MAX_TTL && e.ttl % MS == 0)
  {
    PushOf(c, s, e);
    var s' := Step(c, s, e);
    OwnerStoresReceived(c, s', s'.offers[|s'.offers| - 1]);
    ReceivedIsKept(e.ttl);
  }

  /** A write of five minutes at a non-owner lives for 30 seconds at its owner. */
  lemma FiveMinutesBecomeThirtySeconds(c: Config, s: State, e: Event)
    requires e.SetWithTTL? && e.ttl == 10 * SHADOW_MAX_TTL && Reaches(c, e.at, e.owner, e.allowed, e.value, e.ttl)
    ensures var s' := Step(c, s, e);
            |s'.offers| > 0 && |s'.offers[|s'.offers| - 1].value| <= c.maxValue
            && OwnerStores(c, s', s'.offers[|s'.offers| - 1]).expiresAt == s.clock + SHADOW_MAX_TTL
  {
    PushOf(c, s, e);
    var s' := Step(c, s, e);
    OwnerStoresReceived(c, s', s'.offers[|s'.offers| - 1]);
    ReceivedIsKept(e.ttl);
  }

  // ---------------------------------------------------------------------------
  // Pushes under an agreed ring
  // ---------------------------------------------------------------------------

  /** Every acting replica's ring gives the same owner for a key. */
  predicate Agrees(ring: Key -> Addr, s: State, e: Event) {
    match e
    case SetWithTTL(_, k, _, _, owner, _) => owner == ring(k)
    case SetShadow(_, k, _, _, owner) => owner == ring(k)
    case Apply(i, owner, _) => i < |s.offers| ==> owner == ring(s.offers[i].key)
    case Serve(owner, k, _, _) => owner == ring(k)
    case GetDisk(_, k, owner, _) => owner == ring(k)
    case _ => true
  }

  ghost predicate AgreedRun(c: Config, ring: Key -> Addr, es: seq<Event>) {
    forall i :: 0 <= i < |es| ==> Agrees(ring, Run(c, es[..i]), es[i])
  }

  /** Pushes are addressed to the owner. */
  ghost predicate PushesHome(ring: Key -> Addr, s: State) {
    forall i :: 0 <= i < |s.offers| && s.offers[i].kind == Push ==> s.offers[i].at == ring(s.offers[i].key)
  }

  /** A non-owner's own write of number `w` that is pushed. */
  predicate OwnPush(c: Config, ring: Key -> Addr, s: State, e: Event, w: nat) {
    e.SetWithTTL? && w == |s.writes| && Reaches(c, e.at, ring(e.key), e.allowed, e.value, e.ttl)
  }

  /** A read of write `w` by `Cache.Get` whose value a non-owner writes, and so
      pushes, again: fetched from a peer, with the TTL left there, or found on
      disk, with the default TTL. */
  predicate PushBack(c: Config, ring: Key -> Addr, s: State, e: Event, w: nat) {
    match e
    case Apply(i, _, allowed) =>
      && i < |s.offers| && s.offers[i].kind == Fetched && s.offers[i].write == w
      && Reaches(c, s.offers[i].at, ring(s.offers[i].key), allowed, s.offers[i].value, s.offers[i].ttl)
    case GetDisk(at, k, _, allowed) =>
      && DiskHit(s, Slot(at, k)) && s.disk[Slot(at, k)].write == w
      && Reaches(c, at, ring(k), allowed, s.disk[Slot(at, k)].value, c.defaultTTL)
    case _ => false
  }

  function OwnPushes(c: Config, ring: Key -> Addr, es: seq<Event>, w: nat): nat {
    if es == [] then 0
    else
      var before := es[..|es| - 1];
      OwnPushes(c, ring, before, w) + if OwnPush(c, ring, Run(c, before), es[|es| - 1], w) then 1 else 0
  }

  function PushesBack(c: Config, ring: Key -> Addr, es: seq<Event>, w: nat): nat {
    if es == [] then 0
    else
      var before := es[..|es| - 1];
      PushesBack(c, ring, before, w) + if PushBack(c, ring, Run(c, before), es[|es| - 1], w) then 1 else 0
  }

  function Count(s: seq<nat>, w: nat): nat {
    if s == [] then 0 else Count(s[..|s| - 1], w) + if s[|s| - 1] == w then 1 else 0
  }

  lemma {:induction false} CountOne(s: seq<nat>, x: nat, w: nat)
    ensures Count(s + [x], w) == Count(s, w) + if x == w then 1 else 0
    ensures Count(s + [], w) == Count(s, w)
  {
    assert (s + [x])[..|s|] == s && s + [] == s;
  }

  lemma {:induction false} OfferedPush(ring: Key -> Addr, s: State, c: Config, o: Offer, owner: Addr,
      propagate: bool, allowed: bool, w: nat)
    requires PushesHome(ring, s) && owner == ring(o.key)
    ensures var t := Offered(s, SetOffers(c, o, owner, propagate, allowed));
            && PushesHome(ring, t)
            && Count(t.pushed, w) == Count(s.pushed, w)
                 + if propagate && w == o.write && Reaches(c, o.at, owner, allowed, o.value, o.ttl) then 1 else 0
  {
    SetOffersAre(c, o, owner, propagate, allowed);
    CountOne(s.pushed, o.write, w);
  }

  lemma SetPush(c: Config, ring: Key -> Addr, s: State, e: Event, w: nat)
    requires PushesHome(ring, s) && Agrees(ring, s, e)
    requires e.SetWithTTL? || e.SetShadow? || e.SetLocalAndDisk? || e.SetLocalOnly?
    ensures var t := Step(c, s, e);
            PushesHome(ring, t) && Count(t.pushed, w) == Count(s.pushed, w) + if OwnPush(c, ring, s, e, w) then 1 else 0
  {
    var (s', o) := NewWrite(s, e.at, e.key, e.value, e.ttl);
    if e.SetWithTTL? {
      OfferedPush(ring, s', c, o, e.owner, true, e.allowed, w);
    } else if e.SetShadow? {
      OfferedPush(ring, s', c, o, e.owner, false, false, w);
    } else {
      SentOf(o, o.(kind := Disk), o.(kind := Push));
      assert [o] + [] == [o];
      CountOne(s.pushed, 0, w);
    }
  }

  /** The owner never forwards what it is sent: only a kept fetch is pushed. */
  lemma {:induction false} ApplyPush(c: Config, ring: Key -> Addr, s: State, i: nat, owner: Addr, allowed: bool, w: nat)
    requires PushesHome(ring, s) && i < |s.offers| && owner == ring(s.offers[i].key)
    ensures var t := ApplyOffer(c, s, i, owner, allowed);
            PushesHome(ring, t) &&
            Count(t.pushed, w) == Count(s.pushed, w)
              + if PushBack(c, ring, s, Apply(i, owner, allowed), w) then 1 else 0
  {
    var o := s.offers[i];
    var s' := s.(offers := Without(s.offers, i));
    assert PushesHome(ring, s');
    if o.kind != Memory && o.kind != Disk {
      OfferedPush(ring, s', c, Arrived(o, s.clock), owner, o.kind != Shadow, allowed, w);
    }
  }

  lemma PushStep(c: Config, ring: Key -> Addr, s: State, e: Event, w: nat)
    requires PushesHome(ring, s) && Agrees(ring, s, e)
    ensures var t := Step(c, s, e);
            PushesHome(ring, t) && Count(t.pushed, w) == Count(s.pushed, w)
              + (if OwnPush(c, ring, s, e, w) then 1 else 0) + if PushBack(c, ring, s, e, w) then 1 else 0
  {
    if e.SetWithTTL? || e.SetShadow? || e.SetLocalAndDisk? || e.SetLocalOnly? {
      SetPush(c, ring, s, e, w);
    } else if e.Apply? && e.i < |s.offers| {
      ApplyPush(c, ring, s, e.i, e.owner, e.allowed, w);
    } else if e.GetDisk? && DiskHit(s, Slot(e.at, e.key)) {
      var o := Reoffer(s.disk[Slot(e.at, e.key)], Memory, e.at, e.key, c.defaultTTL, s.clock);
      OfferedPush(ring, s, c, o, e.owner, true, e.allowed, w);
    }
  }

  lemma WritesGrow(c: Config, s: State, e: Event)
    ensures |s.writes| <= |Step(c, s, e).writes|
    ensures e.SetWithTTL? ==> |Step(c, s, e).writes| == |s.writes| + 1
  {
  }

  /** With an agreed ring every push goes to the owner, which never forwards it.
      A write is pushed once for a non-owner's own write, and once more for every
      `Cache.Get` at a non-owner that keeps a fetched or stored copy with a TTL
      long enough; so it is pushed at most once exactly when there is no such
      read, or there is one and the write itself was not pushed. */
  lemma {:induction false} PushesExactly(c: Config, ring: Key -> Addr, es: seq<Event>, w: nat)
    requires AgreedRun(c, ring, es)
    ensures PushesHome(ring, Run(c, es))
    ensures Count(Run(c, es).pushed, w) == OwnPushes(c, ring, es, w) + PushesBack(c, ring, es, w)
    ensures OwnPushes(c, ring, es, w) == 0 || (OwnPushes(c, ring, es, w) == 1 && w < |Run(c, es).writes|)
    ensures Count(Run(c, es).pushed, w) <= 1 <==>
      PushesBack(c, ring, es, w) == 0 || (PushesBack(c, ring, es, w) == 1 && OwnPushes(c, ring, es, w) == 0)
  {
    if es != [] {
      var before := es[..|es| - 1];
      forall i | 0 <= i < |before| ensures Agrees(ring, Run(c, before[..i]), before[i]) {
        assert before[..i] == es[..i];
      }
      PushesExactly(c, ring, before, w);
      assert Agrees(ring, Run(c, es[..|es| - 1]), es[|es| - 1]);
      PushStep(c, ring, Run(c, before), es[|es| - 1], w);
      WritesGrow(c, Run(c, before), es[|es| - 1]);
    }
  }

  // ---------------------------------------------------------------------------
  // Runs that show what the conditions are for
  // ---------------------------------------------------------------------------

  const SECOND: int := 1_000_000_000
  const OWNER := Addr("a")
  const READER := Addr("b")
  const ITEM := Key("k")

  /** The defaults: write-through from 30 seconds up, and entries of five minutes. */
  const DEFAULTS := Config(true, 30 * SECOND, true, 0, 10, 300 * SECOND)

  function OneOwner(k: Key): Addr {
    OWNER
  }

  lemma {:induction false} RunGrows(c: Config, es: seq<Event>, e: Event)
    ensures Run(c, es + [e]) == Step(c, Run(c, es), e)
  {
    assert (es + [e])[..|es|] == es;
  }

  lemma {:induction false} AgreedGrows(c: Config, ring: Key -> Addr, es: seq<Event>, e: Event)
    requires AgreedRun(c, ring, es) && Agrees(ring, Run(c, es), e)
    ensures AgreedRun(c, ring, es + [e])
  {
    var all := es + [e];
    forall i | 0 <= i < |all| ensures Agrees(ring, Run(c, all[..i]), all[i]) {
      assert all[..i] == es[..i];
      if i == |es| { assert es[..i] == es; }
    }
  }

  /** The owner holds the item, and nothing is on its way. */
  predicate Held(s: State) {
    && s.clock == 0 && s.offers == [] && |s.writes| == 1 && Slot(OWNER, ITEM) in s.memory
    && s.memory[Slot(OWNER, ITEM)] == Copy("v", 300 * SECOND, 0, [Hop(0, 0)])
  }

  const FIRST := SetWithTTL(OWNER, ITEM, "v", 300 * SECOND, OWNER, true)

  const FETCH := Serve(OWNER, ITEM, READER, Fetched)
  const NEXT := Apply(0, OWNER, true)
  const EVICT := DropMemory(Slot(READER, ITEM))

  /** A five-minute write at its owner, stored in memory and on disk, then `n`
      reads at another replica. Each keeps its copy, which is evicted before the
      next, and sends a push, which the network loses. */
  function FetchRun(n: nat): seq<Event> {
    if n == 0 then [FIRST, NEXT, NEXT]
    else FetchRun(n - 1) + [FETCH] + [NEXT] + [NEXT] + [EVICT] + [Lose(0)]
  }

  lemma FirstWrite()
    ensures var t := Step(DEFAULTS, EMPTY, FIRST);
            t.pushed == [] && |t.writes| == 1 && t.clock == 0 && |t.offers| == 2
            && t.offers[0] == Offer(Memory, OWNER, ITEM, "v", 300 * SECOND, 0, 0, []) && t.offers[1].key == ITEM
  {
    SetOffersAre(DEFAULTS, Offer(Memory, OWNER, ITEM, "v", 300 * SECOND, 0, 0, []), OWNER, true, true);
  }

  lemma HeldAtFirst()
    ensures var s := Run(DEFAULTS, FetchRun(0)); Held(s) && s.pushed == []
    ensures AgreedRun(DEFAULTS, OneOwner, FetchRun(0))
  {
    var e1 := [] + [FIRST];
    var e2 := e1 + [NEXT];
    assert FetchRun(0) == e2 + [NEXT];
    RunGrows(DEFAULTS, [], FIRST);
    RunGrows(DEFAULTS, e1, NEXT);
    RunGrows(DEFAULTS, e2, NEXT);
    FirstWrite();
    AgreedGrows(DEFAULTS, OneOwner, [], FIRST);
    AgreedGrows(DEFAULTS, OneOwner, e1, NEXT);
    AgreedGrows(DEFAULTS, OneOwner, e2, NEXT);
  }

  /** The fetched value is kept at the reader, and pushed back. */
  predicate Fetching(s: State) {
    |s.offers| == 2 && s.offers[0].kind == Memory && s.offers[0].at == READER
    && s.offers[0].key == ITEM && s.offers[1].key == ITEM
  }

  lemma FetchKeeps(s: State)
    requires Held(s)
    ensures var t := Step(DEFAULTS, s, FETCH);
            var u := Step(DEFAULTS, t, NEXT);
            && |t.offers| == 1 && t.offers[0].key == ITEM
            && Fetching(u) && Held(u.(offers := [])) && u.pushed == s.pushed + [0]
  {
    var t := Step(DEFAULTS, s, FETCH);
    var o := t.offers[0];
    assert o.ttl == 300 * SECOND / MS * MS;
    SetOffersAre(DEFAULTS, Arrived(o, 0), OWNER, true, true);
  }

  lemma EvictLeaves(u: State)
    requires Fetching(u) && Held(u.(offers := []))
    ensures var v := Step(DEFAULTS, Step(DEFAULTS, u, NEXT), EVICT);
            var x := Step(DEFAULTS, v, Lose(0));
            Held(x) && x.pushed == u.pushed
  {
  }

  /** With an agreed ring and the defaults, a write made at the owner itself is
      pushed back to it as often as another replica reads it. */
  lemma {:induction false} EveryFetchPushesBack(n: nat)
    ensures AgreedRun(DEFAULTS, OneOwner, FetchRun(n))
    ensures var s := Run(DEFAULTS, FetchRun(n)); |s.writes| == 1 && Count(s.pushed, 0) == n && Held(s)
  {
    PushedBack(n);
  }

  ghost predicate FetchedTimes(es: seq<Event>, n: nat) {
    AgreedRun(DEFAULTS, OneOwner, es) && Held(Run(DEFAULTS, es)) && Count(Run(DEFAULTS, es).pushed, 0) == n
  }

  lemma {:induction false} PushedBack(n: nat)
    ensures FetchedTimes(FetchRun(n), n)
  {
    if n == 0 {
      HeldAtFirst();
    } else {
      PushedBack(n - 1);
      OneFetch(FetchRun(n - 1), n - 1);
    }
  }

  lemma {:induction false} OneFetch(es: seq<Event>, n: nat)
    requires FetchedTimes(es, n)
    ensures FetchedTimes(es + [FETCH] + [NEXT] + [NEXT] + [EVICT] + [Lose(0)], n + 1)
  {
    var e2 := FirstHalf(es);
    SecondHalf(e2);
    CountOne(Run(DEFAULTS, es).pushed, 0, 0);
  }

  lemma {:induction false} FirstHalf(es: seq<Event>) returns (es': seq<Event>)
    requires AgreedRun(DEFAULTS, OneOwner, es) && Held(Run(DEFAULTS, es))
    ensures es' == es + [FETCH] + [NEXT] && AgreedRun(DEFAULTS, OneOwner, es')
    ensures var s, u := Run(DEFAULTS, es), Run(DEFAULTS, es');
            Fetching(u) && Held(u.(offers := [])) && u.pushed == s.pushed + [0]
  {
    var e1 := es + [FETCH];
    es' := e1 + [NEXT];
    FetchKeeps(Run(DEFAULTS, es));
    RunGrows(DEFAULTS, es, FETCH);
    RunGrows(DEFAULTS, e1, NEXT);
    AgreedGrows(DEFAULTS, OneOwner, es, FETCH);
    AgreedGrows(DEFAULTS, OneOwner, e1, NEXT);
  }

  lemma {:induction false} SecondHalf(es: seq<Event>)
    requires AgreedRun(DEFAULTS, OneOwner, es) && Fetching(Run(DEFAULTS, es))
    requires Held(Run(DEFAULTS, es).(offers := []))
    ensures var es' := es + [NEXT] + [EVICT] + [Lose(0)];
            var x := Run(DEFAULTS, es');
            AgreedRun(DEFAULTS, OneOwner, es') && Held(x) && x.pushed == Run(DEFAULTS, es).pushed
  {
    var e1 := es + [NEXT];
    var e2 := e1 + [EVICT];
    EvictLeaves(Run(DEFAULTS, es));
    RunGrows(DEFAULTS, es, NEXT);
    RunGrows(DEFAULTS, e1, EVICT);
    RunGrows(DEFAULTS, e2, Lose(0));
    AgreedGrows(DEFAULTS, OneOwner, es, NEXT);
    AgreedGrows(DEFAULTS, OneOwner, e1, EVICT);
    AgreedGrows(DEFAULTS, OneOwner, e2, Lose(0));
  }
}
