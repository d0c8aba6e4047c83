/** The other side of freshness: no copy of a value is cut short by more than the
    settings ask for and the rounding to milliseconds costs. */
module FleetBounds {
  import opened CacheKeys
  import opened Wrappers
  import opened Fleet

  /** The TTL every copy of a write is entitled to: the write's own, the default one
      where a disk hit may start it anew, and 30 seconds under write-through. */
  function Entitled(c: Config, w: Write): int {
    var ttl := Min(w.ttl, c.defaultTTL);
    if c.writeThrough then Min(ttl, SHADOW_MAX_TTL) else ttl
  }

  /** Less than a millisecond is lost on each move. */
  function Floor(c: Config, w: Write, hops: seq<Hop>, moves: nat): int {
    w.time + Entitled(c, w) + Delay(hops) - moves * MS
  }

  predicate CopyLasts(c: Config, ws: seq<Write>, now: int, k: Key, copy: Copy) {
    && copy.write < |ws|
    && ws[copy.write].key == k && ws[copy.write].value == copy.value
    && Chained(ws[copy.write].time, copy.hops, now)
    && copy.expiresAt > Floor(c, ws[copy.write], copy.hops, |copy.hops|)
  }

  predicate OfferLasts(c: Config, ws: seq<Write>, now: int, o: Offer) {
    && o.write < |ws|
    && ws[o.write].key == o.key && ws[o.write].value == o.value
    && o.measured <= now && Chained(ws[o.write].time, o.hops, o.measured)
    && o.measured + Lands(o) > Floor(c, ws[o.write], o.hops, |o.hops| + 1)
  }

  ghost predicate AllLast(c: Config, s: State) {
    && (forall slot :: slot in s.memory ==> CopyLasts(c, s.writes, s.clock, slot.key, s.memory[slot]))
    && (forall slot :: slot in s.disk ==> CopyLasts(c, s.writes, s.clock, slot.key, s.disk[slot]))
    && (forall i :: 0 <= i < |s.offers| ==> OfferLasts(c, s.writes, s.clock, s.offers[i]))
  }

  // ---------------------------------------------------------------------------
  // Single offers and copies
  // ---------------------------------------------------------------------------

  /** Rounding to milliseconds loses less than one. */
  lemma RoundingLoses(ttl: int)
    ensures ReceivedTTL(ttl) > ttl - MS || ReceivedTTL(ttl) == DEFAULT_PUSH_TTL
    ensures ttl <= SHADOW_MAX_TTL ==> ReceivedTTL(ttl) > ttl - MS
    ensures ttl >= 0 ==> ttl / MS * MS > ttl - MS
  {
    assert ttl == ttl / MS * MS + ttl % MS;
  }

  lemma {:induction false} OfferWaits(c: Config, ws: seq<Write>, now: int, o: Offer, w: Write, later: int)
    requires OfferLasts(c, ws, now, o) && now <= later
    ensures OfferLasts(c, ws + [w], later, o) && OfferLasts(c, ws, later, o)
  {
  }

  lemma {:induction false} CopyWaits(c: Config, ws: seq<Write>, now: int, k: Key, copy: Copy, w: Write, later: int)
    requires CopyLasts(c, ws, now, k, copy) && now <= later
    ensures CopyLasts(c, ws + [w], later, k, copy) && CopyLasts(c, ws, later, k, copy)
  {
    ChainWaits(ws[copy.write].time, copy.hops, now, later);
  }

  lemma {:induction false} StoredLasts(c: Config, ws: seq<Write>, now: int, o: Offer)
    requires OfferLasts(c, ws, now, o) && (o.kind == Memory || o.kind == Disk)
    ensures CopyLasts(c, ws, now, o.key, StoredCopy(o, now))
  {
    ChainGrows(ws[o.write].time, o.hops, o.measured, now);
  }

  /** A write measured now, with a TTL that has lost at most `moves` milliseconds. */
  predicate Measured(c: Config, ws: seq<Write>, o: Offer, moves: nat) {
    && o.write < |ws|
    && ws[o.write].key == o.key && ws[o.write].value == o.value
    && Chained(ws[o.write].time, o.hops, o.measured)
    && o.measured + o.ttl >= Floor(c, ws[o.write], o.hops, moves)
  }

  /** The clamp leaves what the write is entitled to. */
  lemma {:induction false} ClampedLasts(c: Config, ws: seq<Write>, o: Offer, ownerLocal: bool)
    requires Measured(c, ws, o, |o.hops|)
    ensures Measured(c, ws, o.(ttl := ClampedTTL(c, ownerLocal, o.ttl)), |o.hops|)
  {
    DelayIsAtMostElapsed(ws[o.write].time, o.hops, o.measured);
  }

  lemma {:induction false} SetOffersLast(c: Config, ws: seq<Write>, now: int, o: Offer, owner: Addr, propagate: bool,
      allowed: bool)
    requires Measured(c, ws, o, |o.hops|) && o.measured <= now
    ensures forall i :: 0 <= i < |SetOffers(c, o, owner, propagate, allowed)| ==>
      OfferLasts(c, ws, now, SetOffers(c, o, owner, propagate, allowed)[i])
  {
    var base := o.(ttl := ClampedTTL(c, owner == o.at, o.ttl));
    SetOffersAre(c, o, owner, propagate, allowed);
    ClampedLasts(c, ws, o, owner == o.at);
    RoundingLoses(base.ttl);
    var os := SetOffers(c, o, owner, propagate, allowed);
    forall i | 0 <= i < |os| ensures OfferLasts(c, ws, now, os[i]) {
      if os[i].kind == Push { PushLasts(c, ws, now, base, owner); }
    }
  }

  lemma {:induction false} PushLasts(c: Config, ws: seq<Write>, now: int, o: Offer, owner: Addr)
    requires Measured(c, ws, o, |o.hops|) && o.measured <= now && o.ttl <= SHADOW_MAX_TTL
    ensures OfferLasts(c, ws, now, o.(kind := Push, at := owner))
  {
    RoundingLoses(o.ttl);
  }

  lemma {:induction false} ArrivedLasts(c: Config, ws: seq<Write>, now: int, o: Offer)
    requires OfferLasts(c, ws, now, o)
    ensures Measured(c, ws, Arrived(o, now), |Arrived(o, now).hops|)
  {
    ChainGrows(ws[o.write].time, o.hops, o.measured, now);
  }

  lemma {:induction false} ReofferLasts(c: Config, ws: seq<Write>, now: int, k: Key, copy: Copy, kind: Kind, at: Addr,
      ttl: int)
    requires CopyLasts(c, ws, now, k, copy) && ttl > copy.expiresAt - now - MS && kind != Push
    ensures OfferLasts(c, ws, now, Reoffer(copy, kind, at, k, ttl, now))
  {
  }

  // ---------------------------------------------------------------------------
  // Every step
  // ---------------------------------------------------------------------------

  lemma {:induction false} TickLasts(c: Config, s: State, d: nat)
    requires AllLast(c, s)
    ensures AllLast(c, s.(clock := s.clock + d))
  {
    var w := Write(Key(""), "", 0, 0);
    forall slot | slot in s.memory ensures CopyLasts(c, s.writes, s.clock + d, slot.key, s.memory[slot]) {
      CopyWaits(c, s.writes, s.clock, slot.key, s.memory[slot], w, s.clock + d);
    }
    forall slot | slot in s.disk ensures CopyLasts(c, s.writes, s.clock + d, slot.key, s.disk[slot]) {
      CopyWaits(c, s.writes, s.clock, slot.key, s.disk[slot], w, s.clock + d);
    }
    forall i | 0 <= i < |s.offers| ensures OfferLasts(c, s.writes, s.clock + d, s.offers[i]) {
      OfferWaits(c, s.writes, s.clock, s.offers[i], w, s.clock + d);
    }
  }

  lemma {:induction false} NewWriteLasts(c: Config, s: State, at: Addr, k: Key, v: string, ttl: int)
    requires AllLast(c, s)
    ensures var (s', o) := NewWrite(s, at, k, v, ttl);
      AllLast(c, s') && Measured(c, s'.writes, o, 0) && s'.clock == s.clock && o.measured == s.clock && o.hops == []
  {
    var w := Write(k, v, s.clock, ttl);
    forall slot | slot in s.memory ensures CopyLasts(c, s.writes + [w], s.clock, slot.key, s.memory[slot]) {
      CopyWaits(c, s.writes, s.clock, slot.key, s.memory[slot], w, s.clock);
    }
    forall slot | slot in s.disk ensures CopyLasts(c, s.writes + [w], s.clock, slot.key, s.disk[slot]) {
      CopyWaits(c, s.writes, s.clock, slot.key, s.disk[slot], w, s.clock);
    }
    forall i | 0 <= i < |s.offers| ensures OfferLasts(c, s.writes + [w], s.clock, s.offers[i]) {
      OfferWaits(c, s.writes, s.clock, s.offers[i], w, s.clock);
    }
  }

  lemma {:induction false} OfferedLasts(c: Config, s: State, os: seq<Offer>)
    requires AllLast(c, s) && forall i :: 0 <= i < |os| ==> OfferLasts(c, s.writes, s.clock, os[i])
    ensures AllLast(c, Offered(s, os))
  {
  }

  lemma {:induction false} SetLasts(c: Config, s: State, o: Offer, owner: Addr, propagate: bool, allowed: bool)
    requires AllLast(c, s) && Measured(c, s.writes, o, |o.hops|) && o.measured == s.clock
    ensures AllLast(c, Offered(s, SetOffers(c, o, owner, propagate, allowed)))
  {
    SetOffersLast(c, s.writes, s.clock, o, owner, propagate, allowed);
    OfferedLasts(c, s, SetOffers(c, o, owner, propagate, allowed));
  }

  lemma WriteLasts(c: Config, s: State, e: Event)
    requires AllLast(c, s)
    requires e.SetWithTTL? || e.SetShadow? || e.SetLocalAndDisk? || e.SetLocalOnly?
    ensures AllLast(c, Step(c, s, e))
  {
    var (s', o) := NewWrite(s, e.at, e.key, e.value, e.ttl);
    NewWriteLasts(c, s, e.at, e.key, e.value, e.ttl);
    if e.SetWithTTL? {
      SetLasts(c, s', o, e.owner, true, e.allowed);
    } else if e.SetShadow? {
      SetLasts(c, s', o, e.owner, false, false);
    } else {
      assert OfferLasts(c, s'.writes, s'.clock, o) && OfferLasts(c, s'.writes, s'.clock, o.(kind := Disk));
      OfferedLasts(c, s', [o]);
      OfferedLasts(c, s', [o] + [o.(kind := Disk)]);
      assert [o] + [] == [o];
    }
  }

  lemma {:induction false} TakenLasts(c: Config, s: State, i: nat)
    requires AllLast(c, s) && i < |s.offers|
    ensures AllLast(c, s.(offers := Without(s.offers, i)))
  {
  }

  lemma StoreLasts(c: Config, s: State, o: Offer)
    requires AllLast(c, s) && OfferLasts(c, s.writes, s.clock, o) && (o.kind == Memory || o.kind == Disk)
    ensures AllLast(c, s.(memory := s.memory[Slot(o.at, o.key) := StoredCopy(o, s.clock)]))
    ensures AllLast(c, s.(disk := s.disk[Slot(o.at, o.key) := StoredCopy(o, s.clock)]))
  {
    StoredLasts(c, s.writes, s.clock, o);
  }

  lemma {:induction false} ApplyLasts(c: Config, s: State, i: nat, owner: Addr, allowed: bool)
    requires AllLast(c, s) && i < |s.offers|
    ensures AllLast(c, ApplyOffer(c, s, i, owner, allowed))
  {
    var o, s' := s.offers[i], s.(offers := Without(s.offers, i));
    TakenLasts(c, s, i);
    if o.kind == Memory || o.kind == Disk {
      StoreLasts(c, s', o);
    } else {
      ArrivedLasts(c, s.writes, s.clock, o);
      SetLasts(c, s', Arrived(o, s.clock), owner, o.kind != Shadow, allowed);
    }
  }

  lemma ServeLasts(c: Config, s: State, owner: Addr, k: Key, to: Addr, kind: Kind)
    requires AllLast(c, s)
    ensures AllLast(c, ServeFrom(s, owner, k, to, kind))
  {
    var slot := Slot(owner, k);
    if slot in s.memory && owner != to && kind != Disk && kind != Push {
      var left := s.memory[slot].expiresAt - s.clock;
      if left >= MIN_USABLE_TTL {
        RoundingLoses(left);
        ReofferLasts(c, s.writes, s.clock, k, s.memory[slot], kind, to, left / MS * MS);
      }
    }
  }

  lemma PromoteLasts(c: Config, s: State, at: Addr, k: Key)
    requires AllLast(c, s)
    ensures AllLast(c, PromoteFrom(s, at, k))
  {
    var slot := Slot(at, k);
    if DiskHit(s, slot) {
      ReofferLasts(c, s.writes, s.clock, k, s.disk[slot], Memory, at, s.disk[slot].expiresAt - s.clock);
    }
  }

  lemma RestartLasts(c: Config, s: State, at: Addr, k: Key, owner: Addr, allowed: bool)
    requires AllLast(c, s)
    ensures AllLast(c, RestartFrom(c, s, at, k, owner, allowed))
  {
    var slot := Slot(at, k);
    if DiskHit(s, slot) {
      var d := s.disk[slot];
      assert CopyLasts(c, s.writes, s.clock, k, d);
      DelayIsAtMostElapsed(s.writes[d.write].time, d.hops, s.clock);
      SetLasts(c, s, Reoffer(d, Memory, at, k, c.defaultTTL, s.clock), owner, true, allowed);
    }
  }

  lemma StepLasts(c: Config, s: State, e: Event)
    requires AllLast(c, s)
    ensures AllLast(c, Step(c, s, e))
  {
    match e
    case Tick(d) => TickLasts(c, s, d);
    case Apply(i, owner, allowed) => if i < |s.offers| { ApplyLasts(c, s, i, owner, allowed); }
    case Serve(owner, k, to, kind) => ServeLasts(c, s, owner, k, to, kind);
    case PromoteDisk(at, k) => PromoteLasts(c, s, at, k);
    case GetDisk(at, k, owner, allowed) => RestartLasts(c, s, at, k, owner, allowed);
    case Join(_) =>
    case Lose(_) =>
    case DropMemory(_) =>
    case DropDisk(_) =>
    case _ => WriteLasts(c, s, e);
  }

  /** In every run, on every replica and tier, a copy lives at least for the TTL its
      write is entitled to, counted from the write and put off by the time the
      value spent travelling, less one millisecond for every move. */
  lemma {:induction false} NoCopyIsCutShort(c: Config, es: seq<Event>)
    ensures AllLast(c, Run(c, es))
  {
    if es != [] {
      NoCopyIsCutShort(c, es[..|es| - 1]);
      StepLasts(c, Run(c, es[..|es| - 1]), es[|es| - 1]);
    }
  }

  /** The owner hands out a value exactly if five seconds or more are left of it,
      and with it what is left, rounded down to milliseconds: so a copy of it, once
      stored, expires with the original, put off by its travel, up to a millisecond. */
  lemma ServesWhatIsLeft(s: State, owner: Addr, k: Key, to: Addr, kind: Kind)
    requires owner != to && (kind == Memory || kind == Shadow || kind == Fetched)
    ensures var slot, t := Slot(owner, k), ServeFrom(s, owner, k, to, kind);
      if slot in s.memory && s.clock + 5_000_000_000 <= s.memory[slot].expiresAt
      then
        && |t.offers| == |s.offers| + 1 && t == s.(offers := t.offers) && t.offers[..|s.offers|] == s.offers
        && var o, copy := t.offers[|s.offers|], s.memory[slot];
           && o.kind == kind && o.at == to && o.key == k && o.value == copy.value && o.write == copy.write
           && copy.expiresAt - MS < s.clock + o.ttl <= copy.expiresAt && o.ttl % MS == 0
      else t == s
  {
    var slot := Slot(owner, k);
    if slot in s.memory {
      var left := s.memory[slot].expiresAt - s.clock;
      if left >= 0 { Whole(left); }
    }
  }

  lemma Whole(left: int)
    requires left >= 0
    ensures left - MS < left / MS * MS <= left && left / MS * MS % MS == 0
  {
    assert left == left / MS * MS + left % MS;
  }
}
