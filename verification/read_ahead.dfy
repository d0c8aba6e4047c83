/** Choosing which hot keys of other replicas to fetch ahead of demand: a fair
    first pass over the candidates, then a second pass over what it put off. */
module ReadAhead {

  datatype Entry = Entry(key: string, tenant: string, ttl: int, size: int)

  datatype Config = Config(maxKeys: int, maxBytes: int, fairShare: int, minTTL: int, maxObject: int)

  /** The selection so far and what is left of the two budgets. */
  datatype Sel = Sel(chosen: seq<Entry>, keys: int, bytes: int)

  function Cap(c: Config): (cap: int)
    ensures cap >= 1
  {
    var share := c.maxKeys * c.fairShare / 100;
    if share < 1 then 1 else share
  }

  predicate Eligible(c: Config, e: Entry) {
    && e.key != "" && e.ttl >= c.minTTL
    && (c.maxObject > 0 ==> e.size <= c.maxObject)
    && e.size > 0
  }

  predicate Has(es: seq<Entry>, key: string) {
    exists i :: 0 <= i < |es| && es[i].key == key
  }

  /** How many of the entries belong to tenant `t`. */
  function Held(es: seq<Entry>, t: string): nat {
    if es == [] then 0 else Held(es[..|es| - 1], t) + (if es[|es| - 1].tenant == t then 1 else 0)
  }

  function Size(es: seq<Entry>): int {
    if es == [] then 0 else Size(es[..|es| - 1]) + es[|es| - 1].size
  }

  predicate AtCap(c: Config, es: seq<Entry>, t: string) {
    t != "" && Held(es, t) >= Cap(c)
  }

  predicate Takes(c: Config, s: Sel, e: Entry, fair: bool) {
    Eligible(c, e) && !Has(s.chosen, e.key) && e.size <= s.bytes && !(fair && AtCap(c, s.chosen, e.tenant))
  }

  function Add(s: Sel, e: Entry): Sel {
    Sel(s.chosen + [e], s.keys - 1, s.bytes - e.size)
  }

  predicate Open(s: Sel) {
    s.keys > 0 && s.bytes > 0
  }

  /** The fair pass: what it chose and what it put off. */
  function First(c: Config, s: Sel, cs: seq<Entry>): (Sel, seq<Entry>)
    decreases |cs|
  {
    if cs == [] || !Open(s) then (s, [])
    else if Takes(c, s, cs[0], true) then First(c, Add(s, cs[0]), cs[1..])
    else (First(c, s, cs[1..]).0, [cs[0]] + First(c, s, cs[1..]).1)
  }

  function Second(c: Config, s: Sel, ds: seq<Entry>): Sel
    decreases |ds|
  {
    if ds == [] || !Open(s) then s
    else Second(c, if Takes(c, s, ds[0], false) then Add(s, ds[0]) else s, ds[1..])
  }

  function Start(c: Config): Sel {
    Sel([], c.maxKeys, c.maxBytes)
  }

  function FairPart(c: Config, cs: seq<Entry>): Sel {
    First(c, Start(c), cs).0
  }

  function Whole(c: Config, cs: seq<Entry>): Sel {
    Second(c, FairPart(c, cs), First(c, Start(c), cs).1)
  }

  function Selected(c: Config, cs: seq<Entry>): seq<Entry> {
    if cs == [] || c.maxKeys <= 0 then [] else Whole(c, cs).chosen
  }

  // ---------------------------------------------------------------------------
  // What every choice keeps
  // ---------------------------------------------------------------------------

  predicate Distinct(es: seq<Entry>) {
    forall i, j :: 0 <= i < j < |es| ==> es[i].key != es[j].key
  }

  predicate Sound(c: Config, s: Sel) {
    && Distinct(s.chosen)
    && (forall i :: 0 <= i < |s.chosen| ==> Eligible(c, s.chosen[i]))
    && |s.chosen| + s.keys == c.maxKeys
    && Size(s.chosen) + s.bytes == c.maxBytes
    && (s.chosen != [] ==> s.keys >= 0 && s.bytes >= 0)
  }

  ghost predicate Fair(c: Config, es: seq<Entry>) {
    forall t :: t != "" ==> Held(es, t) <= Cap(c)
  }

  lemma AddSound(c: Config, s: Sel, e: Entry, fair: bool)
    requires Sound(c, s) && Open(s) && Takes(c, s, e, fair)
    ensures Sound(c, Add(s, e))
    ensures forall t :: Held(Add(s, e).chosen, t) == Held(s.chosen, t) + (if e.tenant == t then 1 else 0)
  {
    assert Add(s, e).chosen[..|s.chosen|] == s.chosen;
  }

  /** `s'` grew out of `s`. */
  predicate Grown(s: Sel, s': Sel) {
    s.chosen <= s'.chosen && s'.keys <= s.keys && s'.bytes <= s.bytes
  }

  lemma {:induction false} FirstSound(c: Config, s: Sel, cs: seq<Entry>)
    requires Sound(c, s) && Fair(c, s.chosen)
    ensures var s' := First(c, s, cs).0; Sound(c, s') && Fair(c, s'.chosen) && Grown(s, s')
    decreases |cs|
  {
    if cs != [] && Open(s) {
      if Takes(c, s, cs[0], true) {
        AddSound(c, s, cs[0], true);
        FirstSound(c, Add(s, cs[0]), cs[1..]);
      } else {
        FirstSound(c, s, cs[1..]);
      }
    }
  }

  lemma {:induction false} SecondSound(c: Config, s: Sel, ds: seq<Entry>)
    requires Sound(c, s)
    ensures Sound(c, Second(c, s, ds)) && Grown(s, Second(c, s, ds))
    decreases |ds|
  {
    if ds != [] && Open(s) {
      if Takes(c, s, ds[0], false) {
        AddSound(c, s, ds[0], false);
        SecondSound(c, Add(s, ds[0]), ds[1..]);
      } else {
        SecondSound(c, s, ds[1..]);
      }
    }
  }

  /** Distinct eligible candidates within both budgets. */
  lemma {:induction false} WithinBudgets(c: Config, cs: seq<Entry>)
    ensures var r := Selected(c, cs);
      && Distinct(r) && (forall i :: 0 <= i < |r| ==> Eligible(c, r[i]) && r[i] in cs)
      && (r != [] ==> |r| <= c.maxKeys && Size(r) <= c.maxBytes)
  {
    StartSound(c);
    FirstSound(c, Start(c), cs);
    SecondSound(c, FairPart(c, cs), First(c, Start(c), cs).1);
    FirstFrom(c, Start(c), cs);
    SecondFrom(c, FairPart(c, cs), First(c, Start(c), cs).1, cs);
  }

  lemma StartSound(c: Config)
    ensures Sound(c, Start(c)) && Fair(c, Start(c).chosen)
  {
  }

  lemma {:induction false} FirstFrom(c: Config, s: Sel, cs: seq<Entry>)
    ensures forall e :: e in First(c, s, cs).0.chosen ==> e in s.chosen || e in cs
    ensures forall e :: e in First(c, s, cs).1 ==> e in cs
    decreases |cs|
  {
    if cs != [] && Open(s) {
      assert forall e :: e in cs[1..] ==> e in cs;
      if Takes(c, s, cs[0], true) {
        FirstFrom(c, Add(s, cs[0]), cs[1..]);
      } else {
        FirstFrom(c, s, cs[1..]);
      }
    }
  }

  lemma {:induction false} SecondFrom(c: Config, s: Sel, ds: seq<Entry>, cs: seq<Entry>)
    requires forall e :: e in ds || e in s.chosen ==> e in cs
    ensures forall e :: e in Second(c, s, ds).chosen ==> e in cs
    decreases |ds|
  {
    if ds != [] && Open(s) {
      assert ds[0] in ds && forall e :: e in ds[1..] ==> e in ds;
      SecondFrom(c, if Takes(c, s, ds[0], false) then Add(s, ds[0]) else s, ds[1..], cs);
    }
  }

  // ---------------------------------------------------------------------------
  // Maximality
  // ---------------------------------------------------------------------------

  /** Nothing more can be done with `e`. */
  predicate Settled(c: Config, s: Sel, e: Entry) {
    !Eligible(c, e) || Has(s.chosen, e.key) || e.size > s.bytes
  }

  lemma SettledStays(c: Config, s: Sel, s': Sel, e: Entry)
    requires Settled(c, s, e) && Grown(s, s')
    ensures Settled(c, s', e)
  {
    if Has(s.chosen, e.key) {
      var i :| 0 <= i < |s.chosen| && s.chosen[i].key == e.key;
      assert s'.chosen[i].key == e.key;
    }
  }

  lemma AddSettles(c: Config, s: Sel, e: Entry)
    ensures Settled(c, Add(s, e), e)
  {
    assert Add(s, e).chosen[|s.chosen|].key == e.key;
  }

  /** With budget left over, the first pass settled or put off every candidate. */
  lemma {:induction false} FirstCovers(c: Config, s: Sel, cs: seq<Entry>)
    requires Sound(c, s) && Fair(c, s.chosen) && Open(First(c, s, cs).0)
    ensures forall e :: e in cs ==> e in First(c, s, cs).1 || Settled(c, First(c, s, cs).0, e)
    decreases |cs|
  {
    FirstSound(c, s, cs);
    if cs != [] {
      var e, s' := cs[0], First(c, s, cs).0;
      if Takes(c, s, e, true) {
        AddSound(c, s, e, true);
        FirstSound(c, Add(s, e), cs[1..]);
        FirstCovers(c, Add(s, e), cs[1..]);
        AddSettles(c, s, e);
        SettledStays(c, Add(s, e), s', e);
      } else {
        FirstCovers(c, s, cs[1..]);
      }
      assert forall x :: x in cs ==> x == e || x in cs[1..];
    }
  }

  lemma {:induction false} SecondSettles(c: Config, s: Sel, ds: seq<Entry>)
    requires Sound(c, s) && Open(Second(c, s, ds))
    ensures forall e :: e in ds ==> Settled(c, Second(c, s, ds), e)
    decreases |ds|
  {
    SecondSound(c, s, ds);
    if ds != [] {
      var e := ds[0];
      var s1 := if Takes(c, s, e, false) then Add(s, e) else s;
      if Takes(c, s, e, false) {
        AddSound(c, s, e, false);
        AddSettles(c, s, e);
      }
      SecondSound(c, s1, ds[1..]);
      SecondSettles(c, s1, ds[1..]);
      SettledStays(c, s1, Second(c, s, ds), e);
      assert forall x :: x in ds ==> x == e || x in ds[1..];
    }
  }

  /** At the end a budget is used up, or no eligible candidate whose key was not
      chosen fits into the bytes left. */
  lemma {:induction false} Maximal(c: Config, cs: seq<Entry>)
    requires cs != [] && c.maxKeys > 0
    ensures var s := Whole(c, cs);
      !Open(s) || forall e :: e in cs && Eligible(c, e) && !Has(s.chosen, e.key) ==> e.size > s.bytes
    ensures var s := Whole(c, cs);
      s.chosen == Selected(c, cs) && s.keys == c.maxKeys - |s.chosen| && s.bytes == c.maxBytes - Size(s.chosen)
  {
    var s1, ds := FairPart(c, cs), First(c, Start(c), cs).1;
    StartSound(c);
    FirstSound(c, Start(c), cs);
    SecondSound(c, s1, ds);
    if Open(Whole(c, cs)) {
      FirstCovers(c, Start(c), cs);
      SecondSettles(c, s1, ds);
      forall e | e in cs ensures Settled(c, Whole(c, cs), e) {
        if Settled(c, s1, e) { SettledStays(c, s1, Whole(c, cs), e); }
      }
    }
  }

  // ---------------------------------------------------------------------------
  // Fairness
  // ---------------------------------------------------------------------------

  /** Whether the first pass put `e` off only for its tenant's share. */
  predicate OnlyUnfair(c: Config, s: Sel, e: Entry) {
    Settled(c, s, e) || AtCap(c, s.chosen, e.tenant)
  }

  lemma {:induction false} HeldGrows(es: seq<Entry>, es': seq<Entry>, t: string)
    requires es <= es'
    ensures Held(es, t) <= Held(es', t)
    decreases |es'|
  {
    if es != es' {
      assert es <= es'[..|es'| - 1];
      HeldGrows(es, es'[..|es'| - 1], t);
    }
  }

  lemma {:induction false} DeferredForShare(c: Config, s: Sel, cs: seq<Entry>)
    requires Sound(c, s) && Fair(c, s.chosen)
    ensures forall e :: e in First(c, s, cs).1 ==> OnlyUnfair(c, First(c, s, cs).0, e)
    decreases |cs|
  {
    FirstSound(c, s, cs);
    if cs != [] && Open(s) {
      var e, s' := cs[0], First(c, s, cs).0;
      if Takes(c, s, e, true) {
        AddSound(c, s, e, true);
        DeferredForShare(c, Add(s, e), cs[1..]);
      } else {
        DeferredForShare(c, s, cs[1..]);
        HeldGrows(s.chosen, s'.chosen, e.tenant);
        if Settled(c, s, e) { SettledStays(c, s, s', e); }
      }
    }
  }

  /** Everything `r` has past `es` belongs to tenants at their cap in `es`. */
  predicate OverShare(c: Config, es: seq<Entry>, r: seq<Entry>) {
    forall i :: |es| <= i < |r| ==> AtCap(c, es, r[i].tenant)
  }

  lemma OverShareAdd(c: Config, first: Sel, s: Sel, e: Entry)
    requires Grown(first, s) && OverShare(c, first.chosen, s.chosen)
    requires OnlyUnfair(c, first, e) && Takes(c, s, e, false)
    ensures OverShare(c, first.chosen, Add(s, e).chosen)
  {
    if Settled(c, first, e) { SettledStays(c, first, s, e); }
  }

  /** Whatever the second pass adds comes from tenants that had used up their
      share by the end of the first. */
  lemma {:induction false} SecondIsOverShare(c: Config, first: Sel, s: Sel, ds: seq<Entry>)
    requires Sound(c, s) && Grown(first, s) && OverShare(c, first.chosen, s.chosen)
    requires forall e :: e in ds ==> OnlyUnfair(c, first, e)
    ensures OverShare(c, first.chosen, Second(c, s, ds).chosen)
    decreases |ds|
  {
    if ds != [] && Open(s) {
      assert ds[0] in ds;
      if Takes(c, s, ds[0], false) {
        OverShareAdd(c, first, s, ds[0]);
        AddSound(c, s, ds[0], false);
        SecondIsOverShare(c, first, Add(s, ds[0]), ds[1..]);
      } else {
        SecondIsOverShare(c, first, s, ds[1..]);
      }
    }
  }

  /** The selection is a part in which no tenant passes its cap, followed by
      entries of tenants that are at their cap in it; and there are such entries
      only if every candidate had its turn in the first pass. */
  lemma {:induction false} FairShares(c: Config, cs: seq<Entry>)
    requires cs != [] && c.maxKeys > 0
    ensures FairPart(c, cs).chosen <= Selected(c, cs) && Fair(c, FairPart(c, cs).chosen)
    ensures OverShare(c, FairPart(c, cs).chosen, Selected(c, cs))
    ensures FairPart(c, cs).chosen != Selected(c, cs) ==>
      forall e :: e in cs ==> OnlyUnfair(c, FairPart(c, cs), e)
  {
    var s1, ds := FairPart(c, cs), First(c, Start(c), cs).1;
    StartSound(c);
    FirstSound(c, Start(c), cs);
    SecondSound(c, s1, ds);
    DeferredForShare(c, Start(c), cs);
    SecondIsOverShare(c, s1, s1, ds);
    if Open(s1) { FirstCovers(c, Start(c), cs); }
  }

  /** A tenant's cap is the greatest number of keys within its percentage of the
      key budget, and at least one. */
  lemma CapIsTheShare(c: Config, n: int)
    requires n >= 1
    ensures n <= Cap(c) <==> n == 1 || 100 * n <= c.maxKeys * c.fairShare
  {
  }

  /** In the fair part no tenant has a second key beyond its percentage of the key
      budget, and every tenant with an entry past it could not have had one more. */
  lemma {:induction false} TenantsWithinTheirShare(c: Config, cs: seq<Entry>, t: string)
    requires cs != [] && c.maxKeys > 0 && t != ""
    ensures var held := Held(FairPart(c, cs).chosen, t);
      && (held <= 1 || 100 * held <= c.maxKeys * c.fairShare)
      && forall i :: |FairPart(c, cs).chosen| <= i < |Selected(c, cs)| && Selected(c, cs)[i].tenant == t ==>
           held >= 1 && 100 * (held + 1) > c.maxKeys * c.fairShare
  {
    FairShares(c, cs);
    var held := Held(FairPart(c, cs).chosen, t);
    if held >= 1 { CapIsTheShare(c, held); }
    CapIsTheShare(c, held + 1);
  }

  /** The fair pass goes through the candidates in their order: one more at the end
      is taken exactly if it is eligible, new, affordable and within its share
      given what those before it left, and changes nothing about them. */
  lemma {:induction false} FirstComeFirstServed(c: Config, s: Sel, cs: seq<Entry>, e: Entry)
    ensures First(c, s, cs + [e]).0 ==
      (var s' := First(c, s, cs).0; if Open(s') && Takes(c, s', e, true) then Add(s', e) else s')
    decreases |cs|
  {
    if cs == [] {
      assert [] + [e] == [e] && [e][1..] == [];
    } else {
      assert (cs + [e])[1..] == cs[1..] + [e] && (cs + [e])[0] == cs[0];
      FirstComeFirstServed(c, if Takes(c, s, cs[0], true) then Add(s, cs[0]) else s, cs[1..], e);
    }
  }

  // ---------------------------------------------------------------------------
  // The selector as it runs
  // ---------------------------------------------------------------------------

  class Selector {
    const cfg: Config
    var remainingKeys: int
    var remainingBytes: int
    var selected: seq<Entry>
    var seen: set<string>
    var perTenant: map<string, int>

    ghost function State(): Sel
      reads this
    {
      Sel(selected, remainingKeys, remainingBytes)
    }

    ghost predicate Valid()
      reads this
    {
      Tracks(selected, seen, perTenant)
    }

    constructor (c: Config)
      ensures cfg == c && Valid() && State() == Start(c)
    {
      cfg, remainingKeys, remainingBytes := c, c.maxKeys, c.maxBytes;
      selected, seen, perTenant := [], {}, map[];
    }

    method TryAdd(e: Entry, enforceFair: bool) returns (added: bool)
      requires Valid()
      modifies this
      ensures Valid() && added == Takes(cfg, old(State()), e, enforceFair)
      ensures State() == if added then Add(old(State()), e) else old(State())
    {
      if e.key == "" || e.key in seen || e.ttl < cfg.minTTL {
        return false;
      }
      if cfg.maxObject > 0 && e.size > cfg.maxObject {
        return false;
      }
      if e.size <= 0 || e.size > remainingBytes {
        return false;
      }
      var held := if e.tenant in perTenant then perTenant[e.tenant] else 0;
      if enforceFair && e.tenant != "" && held >= Cap(cfg) {
        return false;
      }
      seen := seen + {e.key};
      if e.tenant != "" {
        perTenant := perTenant[e.tenant := held + 1];
      }
      remainingKeys := remainingKeys - 1;
      remainingBytes := remainingBytes - e.size;
      Appended(selected, e, old(seen), old(perTenant));
      selected := selected + [e];
      return true;
    }
  }

  /** The seen keys and the tenant counts describe the selection. */
  ghost predicate Tracks(es: seq<Entry>, seen: set<string>, perTenant: map<string, int>) {
    && (forall k :: k in seen <==> Has(es, k))
    && (forall t :: t != "" ==> Held(es, t) == if t in perTenant then perTenant[t] else 0)
  }

  lemma {:induction false} Appended(es: seq<Entry>, e: Entry, seen: set<string>, per: map<string, int>)
    requires Tracks(es, seen, per)
    ensures e.tenant == "" ==> Tracks(es + [e], seen + {e.key}, per)
    ensures e.tenant != "" ==> Tracks(es + [e], seen + {e.key}, per[e.tenant := Held(es, e.tenant) + 1])
  {
    assert (es + [e])[..|es|] == es;
    forall k ensures Has(es + [e], k) <==> Has(es, k) || k == e.key {
      assert (es + [e])[|es|].key == e.key;
      if Has(es, k) {
        var i :| 0 <= i < |es| && es[i].key == k;
        assert (es + [e])[i].key == k;
      }
    }
  }

  lemma {:induction false} FirstSkips(c: Config, s: Sel, cs: seq<Entry>, deferred: seq<Entry>)
    requires cs != [] && Open(s) && !Takes(c, s, cs[0], true)
    ensures First(c, s, cs).0 == First(c, s, cs[1..]).0
    ensures deferred + First(c, s, cs).1 == deferred + [cs[0]] + First(c, s, cs[1..]).1
  {
    assert deferred + ([cs[0]] + First(c, s, cs[1..]).1) == deferred + [cs[0]] + First(c, s, cs[1..]).1;
  }

  /** The fair pass; what it put off is returned for the second one. */
  method FairPass(s: Selector, candidates: seq<Entry>) returns (deferred: seq<Entry>)
    requires s.Valid()
    modifies s
    ensures s.Valid() && (s.State(), deferred) == First(s.cfg, old(s.State()), candidates)
  {
    deferred := [];
    var rest := candidates;
    while |rest| > 0 && s.remainingKeys > 0 && s.remainingBytes > 0
      invariant s.Valid()
      invariant First(s.cfg, s.State(), rest).0 == First(s.cfg, old(s.State()), candidates).0
      invariant deferred + First(s.cfg, s.State(), rest).1 == First(s.cfg, old(s.State()), candidates).1
      decreases |rest|
    {
      var e := rest[0];
      ghost var before := s.State();
      var ok := s.TryAdd(e, true);
      if !ok {
        FirstSkips(s.cfg, before, rest, deferred);
        deferred := deferred + [e];
      }
      rest := rest[1..];
    }
    assert deferred + [] == deferred;
  }

  method FillPass(s: Selector, deferred: seq<Entry>)
    requires s.Valid()
    modifies s
    ensures s.Valid() && s.State() == Second(s.cfg, old(s.State()), deferred)
  {
    var rest := deferred;
    while |rest| > 0 && s.remainingKeys > 0 && s.remainingBytes > 0
      invariant s.Valid()
      invariant Second(s.cfg, s.State(), rest) == Second(s.cfg, old(s.State()), deferred)
      decreases |rest|
    {
      var _ := s.TryAdd(rest[0], false);
      rest := rest[1..];
    }
  }

  method Select(c: Config, candidates: seq<Entry>) returns (selected: seq<Entry>)
    ensures selected == Selected(c, candidates)
  {
    if |candidates| == 0 || c.maxKeys <= 0 {
      return [];
    }
    var s := new Selector(c);
    var deferred := FairPass(s, candidates);
    FillPass(s, deferred);
    selected := s.selected;
  }
}
