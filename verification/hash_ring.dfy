/** The consistent hash ring that assigns every cache key to one peer. The hash
    is a parameter and may collide at will, between virtual nodes of one peer,
    between peers, and between keys. */
module HashRing {

  const VNODES_PER_PEER: nat := 150

  function Decimal(n: nat): string {
    if n < 10 then [DIGITS[n]] else Decimal(n / 10) + [DIGITS[n % 10]]
  }

  const DIGITS := "0123456789"

  function VNode(addr: string, i: nat): string {
    addr + "#" + Decimal(i)
  }

  // ---------------------------------------------------------------------------
  // The reference definition: no ring, no sorting, no search
  // ---------------------------------------------------------------------------

  function PointsOf(hash: string -> nat, vnodes: nat, addr: string): set<nat> {
    if vnodes == 0 then {} else PointsOf(hash, vnodes - 1, addr) + {hash(VNode(addr, vnodes - 1))}
  }

  function Points(hash: string -> nat, vnodes: nat, peers: seq<string>): set<nat> {
    if peers == [] then {}
    else Points(hash, vnodes, peers[..|peers| - 1]) + PointsOf(hash, vnodes, peers[|peers| - 1])
  }

  /** The peer a point belongs to: the last one in the list that has it. */
  function LastHolder(hash: string -> nat, vnodes: nat, peers: seq<string>, x: nat): string {
    if peers == [] then ""
    else if x in PointsOf(hash, vnodes, peers[|peers| - 1]) then peers[|peers| - 1]
    else LastHolder(hash, vnodes, peers[..|peers| - 1], x)
  }

  /** `x` is the first point met going clockwise from `k`, wrapping past zero. */
  ghost predicate IsSuccessor(points: set<nat>, k: nat, x: nat) {
    && x in points
    && if exists y :: y in points && y >= k
       then x >= k && forall y :: y in points && y >= k ==> x <= y
       else forall y :: y in points ==> x <= y
  }

  lemma {:induction false} LeastExists(points: set<nat>) returns (x: nat)
    requires points != {}
    ensures x in points && forall y :: y in points ==> x <= y
  {
    x :| x in points;
    var rest := points - {x};
    if rest != {} {
      var z := LeastExists(rest);
      assert forall y :: y in points ==> y == x || y in rest;
      if z < x { x := z; }
    } else {
      assert forall y :: y in points && y != x ==> y in rest;
    }
  }

  lemma {:induction false} SuccessorExists(points: set<nat>, k: nat)
    requires points != {}
    ensures exists x :: IsSuccessor(points, k, x)
  {
    var above := set y | y in points && y >= k;
    if above != {} {
      var x := LeastExists(above);
      assert forall y :: y in points && y >= k ==> y in above;
      assert x in above;
      assert IsSuccessor(points, k, x);
    } else {
      var x := LeastExists(points);
      assert forall y :: y in points && y >= k ==> y in above;
      assert IsSuccessor(points, k, x);
    }
  }

  /** The owner of a key whose hash is `k`, or "" on an empty ring. */
  ghost function Owner(hash: string -> nat, vnodes: nat, peers: seq<string>, k: nat): string {
    var points := Points(hash, vnodes, peers);
    if points == {} then ""
    else
      SuccessorExists(points, k);
      var x :| IsSuccessor(points, k, x);
      LastHolder(hash, vnodes, peers, x)
  }

  lemma {:induction false} OwnerIs(hash: string -> nat, vnodes: nat, peers: seq<string>, k: nat, x: nat)
    requires IsSuccessor(Points(hash, vnodes, peers), k, x)
    ensures Owner(hash, vnodes, peers, k) == LastHolder(hash, vnodes, peers, x)
  {
    SuccessorExists(Points(hash, vnodes, peers), k);
  }

  // ---------------------------------------------------------------------------
  // Consistency: what membership changes may move
  // ---------------------------------------------------------------------------

  lemma {:induction false} PointsConcat(hash: string -> nat, vnodes: nat, a: seq<string>, b: seq<string>)
    ensures Points(hash, vnodes, a + b) == Points(hash, vnodes, a) + Points(hash, vnodes, b)
  {
    if b == [] {
      assert a + b == a;
    } else {
      assert (a + b)[..|a + b| - 1] == a + b[..|b| - 1];
      PointsConcat(hash, vnodes, a, b[..|b| - 1]);
    }
  }

  lemma {:induction false} LastHolderConcat(hash: string -> nat, vnodes: nat, a: seq<string>, b: seq<string>, x: nat)
    ensures LastHolder(hash, vnodes, a + b, x) ==
            if x in Points(hash, vnodes, b) then LastHolder(hash, vnodes, b, x)
            else LastHolder(hash, vnodes, a, x)
  {
    if b == [] {
      assert a + b == a;
    } else {
      assert (a + b)[..|a + b| - 1] == a + b[..|b| - 1];
      LastHolderConcat(hash, vnodes, a, b[..|b| - 1], x);
    }
  }

  lemma {:induction false} PointsInsert(hash: string -> nat, vnodes: nat, a: seq<string>, q: string, b: seq<string>)
    ensures Points(hash, vnodes, a + [q] + b) == Points(hash, vnodes, a + b) + PointsOf(hash, vnodes, q)
  {
    PointsConcat(hash, vnodes, a, b);
    PointsConcat(hash, vnodes, a, [q]);
    PointsConcat(hash, vnodes, a + [q], b);
    assert Points(hash, vnodes, [q]) == Points(hash, vnodes, []) + PointsOf(hash, vnodes, q);
  }

  lemma {:induction false} HolderInsert(hash: string -> nat, vnodes: nat, a: seq<string>, q: string,
      b: seq<string>, x: nat)
    ensures var h := LastHolder(hash, vnodes, a + [q] + b, x);
            h == LastHolder(hash, vnodes, a + b, x) || (h == q && x in PointsOf(hash, vnodes, q))
    ensures x in PointsOf(hash, vnodes, q) && x !in Points(hash, vnodes, a + b) ==>
              LastHolder(hash, vnodes, a + [q] + b, x) == q
  {
    LastHolderConcat(hash, vnodes, a + [q], b, x);
    LastHolderConcat(hash, vnodes, a, [q], x);
    LastHolderConcat(hash, vnodes, a, b, x);
    PointsConcat(hash, vnodes, a, b);
    assert Points(hash, vnodes, [q]) == Points(hash, vnodes, []) + PointsOf(hash, vnodes, q);
    assert [q][..0] == [];
  }

  /** Inserting a peer anywhere in the list leaves a key where it was or moves it
      to the new peer. Read from right to left: removing a peer moves only the
      keys it owned. */
  lemma {:induction false} MembershipMovesOnlyItsKeys(hash: string -> nat, vnodes: nat, a: seq<string>, q: string,
      b: seq<string>, k: nat)
    ensures Owner(hash, vnodes, a + [q] + b, k) == Owner(hash, vnodes, a + b, k)
         || Owner(hash, vnodes, a + [q] + b, k) == q
    ensures Owner(hash, vnodes, a + [q] + b, k) != q ==>
              Owner(hash, vnodes, a + b, k) == Owner(hash, vnodes, a + [q] + b, k)
  {
    var small, big := Points(hash, vnodes, a + b), Points(hash, vnodes, a + [q] + b);
    PointsInsert(hash, vnodes, a, q, b);
    if big != {} {
      SuccessorExists(big, k);
      var x :| IsSuccessor(big, k, x);
      OwnerIs(hash, vnodes, a + [q] + b, k, x);
      HolderInsert(hash, vnodes, a, q, b, x);
      if x in small {
        assert IsSuccessor(small, k, x);
        OwnerIs(hash, vnodes, a + b, k, x);
      }
    }
  }

  // ---------------------------------------------------------------------------
  // The ring as an object
  // ---------------------------------------------------------------------------

  predicate Sorted(s: seq<nat>) {
    forall i, j :: 0 <= i < j < |s| ==> s[i] <= s[j]
  }

  /** The library sort. */
  function SortPoints(s: seq<nat>): (r: seq<nat>)
    ensures Sorted(r)
    ensures multiset(r) == multiset(s)
  {
    if s == [] then []
    else
      assert s == s[..|s| - 1] + [s[|s| - 1]];
      InsertPoint(SortPoints(s[..|s| - 1]), s[|s| - 1])
  }

  function InsertPoint(s: seq<nat>, x: nat): (r: seq<nat>)
    requires Sorted(s)
    ensures multiset(r) == multiset(s) + multiset{x}
    ensures |r| > 0 && (r[0] == x || (|s| > 0 && r[0] == s[0]))
    ensures Sorted(r)
  {
    if s == [] then [x]
    else if x <= s[0] then PrependKeepsOrder(x, s); [x] + s
    else
      HeadAndTail(s);
      var r := InsertPoint(s[1..], x);
      PrependKeepsOrder(s[0], r);
      [s[0]] + r
  }

  lemma {:induction false} HeadAndTail(s: seq<nat>)
    requires Sorted(s) && s != []
    ensures Sorted(s[1..]) && multiset(s) == multiset{s[0]} + multiset(s[1..]) && (|s| > 1 ==> s[0] <= s[1..][0])
  {
    assert s == [s[0]] + s[1..];
  }

  lemma {:induction false} PrependKeepsOrder(y: nat, r: seq<nat>)
    requires Sorted(r) && |r| > 0 && y <= r[0]
    ensures Sorted([y] + r)
  {
  }

  lemma {:induction false} SortKeepsElements(s: seq<nat>)
    ensures forall x :: x in SortPoints(s) <==> x in s
  {
    assert multiset(SortPoints(s)) == multiset(s);
    forall x ensures x in SortPoints(s) <==> x in s {
      assert x in SortPoints(s) <==> x in multiset(SortPoints(s));
      assert x in s <==> x in multiset(s);
    }
  }

  /** The list and the map hold exactly the points of `peers`, each with its last holder. */
  ghost predicate Holds(hash: string -> nat, vnodes: nat, peers: seq<string>, ring: seq<nat>, m: map<nat, string>) {
    && (forall x :: x in ring <==> x in m)
    && m.Keys == Points(hash, vnodes, peers)
    && (forall x :: x in m ==> m[x] == LastHolder(hash, vnodes, peers, x))
  }

  /** The old list and map once `addr` has taken the points in `mine`. */
  ghost predicate Overlaid(m: map<nat, string>, mine: set<nat>, addr: string, ring': seq<nat>, m': map<nat, string>) {
    && (forall x :: x in ring' <==> x in m')
    && m'.Keys == m.Keys + mine
    && (forall x :: x in m' ==> m'[x] == if x in mine then addr else m[x])
  }

  lemma {:induction false} TakeOne(m: map<nat, string>, mine: set<nat>, addr: string, ring: seq<nat>, m': map<nat,
      string>, h: nat)
    requires Overlaid(m, mine, addr, ring, m')
    ensures Overlaid(m, mine + {h}, addr, ring + [h], m'[h := addr])
  {
  }

  lemma {:induction false} AddedPeer(hash: string -> nat, vnodes: nat, peers: seq<string>, addr: string,
                  ring: seq<nat>, m: map<nat, string>, ring': seq<nat>, m': map<nat, string>)
    requires Holds(hash, vnodes, peers, ring, m)
    requires Overlaid(m, PointsOf(hash, vnodes, addr), addr, ring', m')
    ensures Holds(hash, vnodes, peers + [addr], ring', m')
  {
    assert (peers + [addr])[..|peers|] == peers;
  }

  lemma {:induction false} Resorted(hash: string -> nat, vnodes: nat, peers: seq<string>, ring: seq<nat>,
      m: map<nat, string>)
    requires Holds(hash, vnodes, peers, ring, m)
    ensures Holds(hash, vnodes, peers, SortPoints(ring), m)
  {
    SortKeepsElements(ring);
  }

  class Ring {
    const hash: string -> nat
    const vnodes: nat
    var ring: seq<nat>
    var nodeMap: map<nat, string>

    /** The ring holds exactly the points of `peers`, each mapped to its last holder. */
    ghost predicate Represents(peers: seq<string>)
      reads this
    {
      Sorted(ring) && Holds(hash, vnodes, peers, ring, nodeMap)
    }

    constructor (hash: string -> nat, vnodes: nat)
      ensures this.hash == hash && this.vnodes == vnodes
      ensures Represents([])
    {
      this.hash, this.vnodes := hash, vnodes;
      ring, nodeMap := [], map[];
    }

    method Add(addr: string, ghost peers: seq<string>)
      requires Represents(peers)
      modifies this
      ensures Represents(peers + [addr])
    {
      ghost var before, nodes := ring, nodeMap;
      var i := 0;
      while i < vnodes
        invariant 0 <= i <= vnodes && Overlaid(nodes, PointsOf(hash, i, addr), addr, ring, nodeMap)
      {
        var h := hash(VNode(addr, i));
        TakeOne(nodes, PointsOf(hash, i, addr), addr, ring, nodeMap, h);
        ring := ring + [h];
        nodeMap := nodeMap[h := addr];
        i := i + 1;
      }
      AddedPeer(hash, vnodes, peers, addr, before, nodes, ring, nodeMap);
      Resorted(hash, vnodes, peers + [addr], ring, nodeMap);
      ring := SortPoints(ring);
    }

    /** The binary search agrees with the clockwise definition. */
    method Get(key: string, ghost peers: seq<string>) returns (owner: string)
      requires Represents(peers)
      ensures owner == Owner(hash, vnodes, peers, hash(key))
    {
      if |ring| == 0 {
        assert forall x :: x in Points(hash, vnodes, peers) ==> x in ring;
        return "";
      }
      var h := hash(key);
      var lo, hi := 0, |ring|;
      while lo < hi
        invariant 0 <= lo <= hi <= |ring|
        invariant forall i :: 0 <= i < lo ==> ring[i] < h
        invariant forall i :: hi <= i < |ring| ==> ring[i] >= h
      {
        var m := (lo + hi) / 2;
        if ring[m] >= h { hi := m; } else { lo := m + 1; }
      }
      var idx := lo;
      if idx == |ring| {
        idx := 0;
      }
      FirstAtOrAfter(ring, Points(hash, vnodes, peers), h, lo);
      assert ring[idx] in ring;
      OwnerIs(hash, vnodes, peers, h, ring[idx]);
      return nodeMap[ring[idx]];
    }
  }

  lemma {:induction false} FirstAtOrAfter(ring: seq<nat>, points: set<nat>, h: nat, lo: nat)
    requires ring != [] && Sorted(ring) && lo <= |ring|
    requires forall x :: x in ring <==> x in points
    requires forall i :: 0 <= i < lo ==> ring[i] < h
    requires forall i :: lo <= i < |ring| ==> ring[i] >= h
    ensures IsSuccessor(points, h, ring[if lo == |ring| then 0 else lo])
  {
    var x := ring[if lo == |ring| then 0 else lo];
    assert x in ring;
    forall y | y in points ensures lo == |ring| ==> x <= y && y < h
                           ensures lo < |ring| && y >= h ==> x <= y {
      assert y in ring;
      var i :| 0 <= i < |ring| && ring[i] == y;
    }
  }

  method BuildRing(hash: string -> nat, vnodes: nat, peers: seq<string>) returns (r: Ring)
    ensures fresh(r) && r.hash == hash && r.vnodes == vnodes && r.Represents(peers)
  {
    r := new Ring(hash, vnodes);
    var i := 0;
    while i < |peers|
      invariant 0 <= i <= |peers| && fresh(r)
      invariant r.hash == hash && r.vnodes == vnodes && r.Represents(peers[..i])
    {
      r.Add(peers[i], peers[..i]);
      assert peers[..i] + [peers[i]] == peers[..i + 1];
      i := i + 1;
    }
    assert peers[..i] == peers;
  }

  /** The peer list of one replica and the ring built from it. */
  class PeerTable {
    const self: string
    const hash: string -> nat
    var peers: seq<string>
    var ring: Ring

    ghost predicate Valid()
      reads this, ring
    {
      ring.hash == hash && ring.vnodes == VNODES_PER_PEER && ring.Represents(peers)
    }

    constructor (self: string, hash: string -> nat)
      ensures Valid() && fresh(ring) && peers == [] && this.self == self && this.hash == hash
    {
      this.self, this.hash, peers := self, hash, [];
      ring := new Ring(hash, VNODES_PER_PEER);
    }

    method UpdatePeers(peers: seq<string>)
      modifies this
      ensures Valid() && fresh(ring) && this.peers == peers
    {
      var r := BuildRing(hash, VNODES_PER_PEER, peers);
      this.peers, ring := peers, r;
    }

    method IsOwner(key: string) returns (own: bool)
      requires Valid()
      ensures own <==> peers == [] || Owner(hash, VNODES_PER_PEER, peers, hash(key)) == self
    {
      if |peers| == 0 {
        return true;
      }
      var owner := ring.Get(key, peers);
      return owner == self;
    }
  }
}
