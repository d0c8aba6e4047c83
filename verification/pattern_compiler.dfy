/** Compiling a pattern from the matches of its regular expression. */
module PatternCompiler {
  import opened PatternText
  import PatternValidator
  import opened Wrappers

  /** A literal, or a capture whose name is empty for `<_>`. */
  datatype Part = Literal(text: string) | Capture(name: string)

  /** `locs` are the leftmost non-overlapping matches in `p` from `from` on. */
  ghost predicate Leftmost(p: string, from: nat, locs: seq<(nat, nat)>)
    decreases |locs|
  {
    if locs == [] then NoMatch(p, from, |p|)
    else
      var (b, e) := locs[0];
      from <= b < e <= |p| && IsCapture(p[b..e]) && NoMatch(p, from, b) && Leftmost(p, e, locs[1..])
  }

  /** No match begins from `from` up to `to`. */
  ghost predicate NoMatch(p: string, from: nat, to: nat) {
    forall b: nat, e: nat :: from <= b < to && b <= e <= |p| ==> !IsCapture(p[b..e])
  }

  function Lits(s: string): (ps: seq<Piece>)
    ensures |ps| == |s| && forall i :: 0 <= i < |s| ==> ps[i] == Lit(s[i])
  {
    if s == "" then [] else Lits(s[..|s| - 1]) + [Lit(s[|s| - 1])]
  }

  /** Neighbouring characters join into literals. */
  function Parts(ps: seq<Piece>): seq<Part> {
    if ps == [] then []
    else Extended(Parts(ps[..|ps| - 1]), ps[|ps| - 1])
  }

  function Extended(parts: seq<Part>, p: Piece): seq<Part> {
    match p
    case Cap(name) => parts + [Capture(if name == "_" then "" else name)]
    case Lit(c) =>
      if parts != [] && parts[|parts| - 1].Literal? then
        parts[..|parts| - 1] + [Literal(parts[|parts| - 1].text + [c])]
      else parts + [Literal([c])]
  }

  function Compiled(p: string): Option<seq<Part>> {
    if Accepted(Lex(p)) then Some(Parts(Lex(p))) else None
  }

  // ---------------------------------------------------------------------------
  // What the regular expression's matches say about the pieces
  // ---------------------------------------------------------------------------

  lemma {:induction false} NoCaptureHere(p: string, i: nat, to: nat)
    requires i < to <= |p| && NoMatch(p, i, to)
    ensures CaptureLen(p[i..]) == 0
  {
    CaptureFits(p[i..]);
    assert forall n: nat :: n <= |p| - i ==> p[i..][..n] == p[i..i + n];
  }

  /** Up to the next match everything is literal. */
  lemma {:induction false} LiteralRun(p: string, from: nat, to: nat)
    requires from <= to <= |p| && NoMatch(p, from, to)
    ensures Lex(p[from..]) == Lits(p[from..to]) + Lex(p[to..])
    decreases |p| - from
  {
    if from == to {
      assert Lits(p[from..to]) == [];
      assert [] + Lex(p[to..]) == Lex(p[to..]);
    } else {
      NoCaptureHere(p, from, to);
      LexStep(p, from);
      LiteralRun(p, from + 1, to);
      LitsCons(p, from, to);
      Assoc([Lit(p[from])], Lits(p[from + 1..to]), Lex(p[to..]));
    }
  }

  lemma {:induction false} LitsCons(p: string, from: nat, to: nat)
    requires from < to <= |p|
    ensures Lits(p[from..to]) == [Lit(p[from])] + Lits(p[from + 1..to])
  {
  }

  lemma {:induction false} CaptureHere(p: string, b: nat, e: nat)
    requires b < e <= |p| && IsCapture(p[b..e])
    ensures Lex(p[b..]) == [Cap(p[b + 1..e - 1])] + Lex(p[e..])
  {
    assert p[b..][..e - b] == p[b..e];
    CaptureLenIs(p[b..], e - b);
    assert p[b..][1..e - b - 1] == p[b + 1..e - 1];
    assert p[b..][e - b..] == p[e..];
  }

  lemma {:induction false} MatchSplits(p: string, from: nat, b: nat, e: nat)
    requires from <= b < e <= |p| && NoMatch(p, from, b) && IsCapture(p[b..e])
    ensures Lex(p[from..]) == Lits(p[from..b]) + [Cap(p[b + 1..e - 1])] + Lex(p[e..])
  {
    LiteralRun(p, from, b);
    CaptureHere(p, b, e);
    Assoc(Lits(p[from..b]), [Cap(p[b + 1..e - 1])], Lex(p[e..]));
  }

  // ---------------------------------------------------------------------------
  // Parts
  // ---------------------------------------------------------------------------

  lemma {:induction false} LitsNamed(s: string)
    ensures Named(Lits(s)) == []
  {
    if s != "" {
      assert Lits(s)[..|s| - 1] == Lits(s[..|s| - 1]);
      LitsNamed(s[..|s| - 1]);
    }
  }

  lemma {:induction false} PartsStep(ps: seq<Piece>, p: Piece)
    ensures Parts(ps + [p]) == Extended(Parts(ps), p)
  {
    assert (ps + [p])[..|ps|] == ps;
  }

  lemma {:induction false} ExtendRun(parts: seq<Part>, s: string, c: char)
    requires parts == [] || parts[|parts| - 1].Capture?
    ensures Extended(if s == "" then parts else parts + [Literal(s)], Lit(c)) == parts + [Literal(s + [c])]
  {
    if s == "" {
      assert s + [c] == [c];
    } else {
      var longer := parts + [Literal(s)];
      assert longer[..|longer| - 1] == parts && longer[|longer| - 1] == Literal(s);
    }
  }

  lemma {:induction false} RunStep(base: seq<Piece>, run: seq<Piece>, s: string, c: char)
    requires base == [] || base[|base| - 1].Cap?
    requires Parts(base + run) == if s == "" then Parts(base) else Parts(base) + [Literal(s)]
    ensures Parts(base + (run + [Lit(c)])) == Parts(base) + [Literal(s + [c])]
  {
    Assoc(base, run, [Lit(c)]);
    PartsStep(base + run, Lit(c));
    LastPart(base);
    ExtendRun(Parts(base), s, c);
  }

  /** A run of characters after a capture is one literal. */
  lemma {:induction false} PartsRun(ps: seq<Piece>, s: string)
    requires ps == [] || ps[|ps| - 1].Cap?
    ensures Parts(ps + Lits(s)) == if s == "" then Parts(ps) else Parts(ps) + [Literal(s)]
  {
    if s == "" {
      assert ps + Lits(s) == ps;
    } else {
      var init, c := s[..|s| - 1], s[|s| - 1];
      PartsRun(ps, init);
      RunStep(ps, Lits(init), init, c);
      assert init + [c] == s;
    }
  }

  lemma {:induction false} LastPart(ps: seq<Piece>)
    ensures Parts(ps) == [] <==> ps == []
    ensures ps != [] ==> (Parts(ps)[|Parts(ps)| - 1].Capture? <==> ps[|ps| - 1].Cap?)
  {
  }

  lemma {:induction false} AdjacentLits(ps: seq<Piece>, s: string)
    ensures Adjacent(ps + Lits(s)) <==> Adjacent(ps)
  {
    AdjacentPrefix(ps, Lits(s));
    var all := ps + Lits(s);
    if i, j :| 0 <= i < |all| && 0 <= j < |all| && j == i + 1 && all[i].Cap? && all[j].Cap? {
      assert ps[i].Cap? && ps[j].Cap?;
    }
  }

  /** The pieces so far and the next literal run with its capture. */
  function Grown(done: seq<Piece>, s: string, name: string): seq<Piece> {
    done + Lits(s) + [Cap(name)]
  }

  lemma {:induction false} GrownNames(done: seq<Piece>, s: string, name: string)
    ensures Named(Grown(done, s, name)) == Named(done) + (if name != "_" then [name] else [])
  {
    NamedConcat(done, Lits(s));
    LitsNamed(s);
    assert Named(done) + [] == Named(done);
    NamedStep(done + Lits(s), Cap(name));
  }

  lemma {:induction false} GrownAdjacent(done: seq<Piece>, s: string, name: string)
    requires done == [] || done[|done| - 1].Cap?
    ensures Adjacent(Grown(done, s, name)) <==> Adjacent(done) || (s == "" && done != [])
  {
    AdjacentLits(done, s);
    AdjacentStep(done + Lits(s), Cap(name));
  }

  lemma {:induction false} GrownParts(done: seq<Piece>, s: string, name: string)
    requires done == [] || done[|done| - 1].Cap?
    ensures Parts(Grown(done, s, name))
         == (if s == "" then Parts(done) else Parts(done) + [Literal(s)]) + [Capture(if name == "_" then "" else name)]
  {
    PartsRun(done, s);
    PartsStep(done + Lits(s), Cap(name));
  }

  lemma {:induction false} NotAccepted(done: seq<Piece>, rest: seq<Piece>)
    requires Adjacent(done) || !Distinct(Named(done))
    ensures !Accepted(done + rest)
  {
    NamedConcat(done, rest);
    AdjacentPrefix(done, rest);
    if Distinct(Named(done) + Named(rest)) { DistinctPrefix(Named(done), Named(rest)); }
  }

  /** The compiler has taken the pieces `done`, up to `last`. */
  ghost predicate Building(p: string, last: nat, done: seq<Piece>, parts: seq<Part>, named: nat, seen: set<string>) {
    && last <= |p| && Lex(p) == done + Lex(p[last..]) && (done == [] || done[|done| - 1].Cap?)
    && parts == Parts(done) && named == |Named(done)| && !Adjacent(done) && Distinct(Named(done))
    && (forall n :: n in seen <==> n in Named(done))
  }

  lemma {:induction false} BuildStep(p: string, last: nat, b: nat, e: nat, done: seq<Piece>, parts: seq<Part>,
      named: nat, seen: set<string>)
    requires Building(p, last, done, parts, named, seen)
    requires last <= b < e <= |p| && NoMatch(p, last, b) && IsCapture(p[b..e])
    ensures var lit, name := p[last..b], p[b + 1..e - 1];
      if (lit == "" && |parts| > 0 && parts[|parts| - 1].Capture?) || (name != "_" && name in seen)
      then !Accepted(Lex(p))
      else
        var parts1 := if lit == "" then parts else parts + [Literal(lit)];
        if name == "_" then Building(p, e, Grown(done, lit, name), parts1 + [Capture("")], named, seen)
        else Building(p, e, Grown(done, lit, name), parts1 + [Capture(name)], named + 1, seen + {name})
  {
    var lit, name := p[last..b], p[b + 1..e - 1];
    NextMatch(p, last, b, e, done);
    GrownNames(done, lit, name);
    GrownAdjacent(done, lit, name);
    GrownParts(done, lit, name);
    LastPart(done);
    DistinctStep(Named(done), name);
    if Adjacent(Grown(done, lit, name)) || !Distinct(Named(Grown(done, lit, name))) {
      NotAccepted(Grown(done, lit, name), Lex(p[e..]));
    }
  }

  lemma {:induction false} Built(p: string, last: nat, done: seq<Piece>, parts: seq<Part>, named: nat,
      seen: set<string>)
    requires Building(p, last, done, parts, named, seen) && NoMatch(p, last, |p|)
    ensures Compiled(p) ==
      if named == 0 then None else Some(if last < |p| then parts + [Literal(p[last..])] else parts)
  {
    Tail(p, last, done);
  }

  lemma {:induction false} LeftmostStep(p: string, last: nat, locs: seq<(nat, nat)>, i: nat)
    requires i < |locs| && Leftmost(p, last, locs[i..])
    ensures var (b, e) := locs[i];
      last <= b < e <= |p| && e - b >= 3 && IsCapture(p[b..e]) && NoMatch(p, last, b) && Leftmost(p, e, locs[i + 1..])
  {
    assert locs[i..][0] == locs[i] && locs[i..][1..] == locs[i + 1..];
  }

  /** `locs` is what the regular expression finds. The result is there exactly
      for the patterns the validator accepts. */
  method Compile(pat: string, locs: seq<(nat, nat)>) returns (r: Option<seq<Part>>)
    requires Leftmost(pat, 0, locs)
    ensures r == Compiled(pat)
  {
    var parts: seq<Part> := [];
    var last, named := 0, 0;
    var seen: set<string> := {};
    ghost var done: seq<Piece> := [];
    assert pat[0..] == pat && done + Lex(pat) == Lex(pat);
    var i := 0;
    while i < |locs|
      invariant 0 <= i <= |locs| && Leftmost(pat, last, locs[i..])
      invariant Building(pat, last, done, parts, named, seen)
    {
      var (b, e) := locs[i];
      LeftmostStep(pat, last, locs, i);
      var lit, name := pat[last..b], pat[b + 1..e - 1];
      BuildStep(pat, last, b, e, done, parts, named, seen);
      if lit != "" {
        parts := parts + [Literal(lit)];
      } else if |parts| > 0 && parts[|parts| - 1].Capture? {
        return None;
      }
      if name == "_" {
        parts := parts + [Capture("")];
      } else {
        if name in seen {
          return None;
        }
        seen := seen + {name};
        named := named + 1;
        parts := parts + [Capture(name)];
      }
      done := Grown(done, lit, name);
      last := e;
      i := i + 1;
    }
    Built(pat, last, done, parts, named, seen);
    if last < |pat| {
      parts := parts + [Literal(pat[last..])];
    }
    if named == 0 {
      return None;
    }
    return Some(parts);
  }

  /** Every pattern has such matches, and the validator and the compiler accept
      exactly the same patterns. */
  lemma {:induction false} SamePatterns(p: string) returns (locs: seq<(nat, nat)>)
    ensures Leftmost(p, 0, locs)
    ensures PatternValidator.FirstComplaint(p) == PatternValidator.Fine <==> Compiled(p).Some?
  {
    locs := MatchesExist(p, 0);
    assert Lex("") == [];
  }

  /** Every pattern has such matches. */
  lemma {:induction false} MatchesExist(p: string, from: nat) returns (locs: seq<(nat, nat)>)
    requires from <= |p|
    ensures Leftmost(p, from, locs)
    decreases |p| - from
  {
    if from == |p| {
      locs := [];
    } else {
      CaptureFits(p[from..]);
      var n := CaptureLen(p[from..]);
      if n > 0 {
        var rest := MatchesExist(p, from + n);
        locs := [(from, from + n)] + rest;
        assert p[from..][..n] == p[from..from + n];
        assert locs[1..] == rest;
      } else {
        locs := MatchesExist(p, from + 1);
        NoneAt(p, from);
      }
    }
  }

  lemma {:induction false} NoneAt(p: string, i: nat)
    requires i < |p| && CaptureLen(p[i..]) == 0
    ensures NoMatch(p, i, i + 1)
  {
    forall e: nat | i <= e <= |p| ensures !IsCapture(p[i..e]) {
      CaptureLenIs(p[i..], e - i);
      assert p[i..][..e - i] == p[i..e];
    }
  }

  lemma {:induction false} NextMatch(p: string, last: nat, b: nat, e: nat, done: seq<Piece>)
    requires last <= b < e <= |p| && NoMatch(p, last, b) && IsCapture(p[b..e])
    requires Lex(p) == done + Lex(p[last..])
    ensures Lex(p) == Grown(done, p[last..b], p[b + 1..e - 1]) + Lex(p[e..])
  {
    MatchSplits(p, last, b, e);
    var l, c, r := Lits(p[last..b]), [Cap(p[b + 1..e - 1])], Lex(p[e..]);
    Assoc(done, l + c, r);
    Assoc(done, l, c);
  }

  lemma {:induction false} Tail(p: string, last: nat, done: seq<Piece>)
    requires last <= |p| && NoMatch(p, last, |p|) && Lex(p) == done + Lex(p[last..])
    requires done == [] || done[|done| - 1].Cap?
    ensures Named(Lex(p)) == Named(done) && (Adjacent(Lex(p)) <==> Adjacent(done))
    ensures Parts(Lex(p)) == if last < |p| then Parts(done) + [Literal(p[last..])] else Parts(done)
  {
    LiteralRun(p, last, |p|);
    var s := p[last..];
    assert p[last..|p|] == s && Lits(s) + Lex(p[|p|..]) == Lits(s);
    NamedConcat(done, Lits(s));
    LitsNamed(s);
    AdjacentLits(done, s);
    PartsRun(done, s);
  }

  // ---------------------------------------------------------------------------
  // What a compiled pattern is
  // ---------------------------------------------------------------------------

  /** Captures and non-empty literals take turns. */
  predicate Alternates(parts: seq<Part>) {
    && (forall i :: 0 <= i < |parts| && parts[i].Literal? ==> parts[i].text != "")
    && (forall i, j :: 0 <= i < |parts| && 0 <= j < |parts| && j == i + 1 ==> parts[i].Literal? == parts[j].Capture?)
  }

  function PartText(p: Part): string {
    match p
    case Literal(s) => s
    case Capture(name) => "<" + (if name == "" then "_" else name) + ">"
  }

  function PartsText(parts: seq<Part>): string {
    if parts == [] then "" else PartsText(parts[..|parts| - 1]) + PartText(parts[|parts| - 1])
  }

  function PieceText(p: Piece): string {
    match p
    case Lit(c) => [c]
    case Cap(name) => "<" + name + ">"
  }

  function PiecesText(ps: seq<Piece>): string {
    if ps == [] then "" else PieceText(ps[0]) + PiecesText(ps[1..])
  }

  lemma {:induction false} PieceThenRest(p: string, n: nat, piece: Piece, tail: seq<Piece>)
    requires n <= |p| && PieceText(piece) == p[..n] && PiecesText(tail) == p[n..]
    ensures PiecesText([piece] + tail) == p
  {
    PiecesCons(piece, tail);
    assert p == p[..n] + p[n..];
  }

  lemma {:induction false} LexFirst(p: string)
    requires p != ""
    ensures var (piece, n) := FirstPiece(p); Lex(p) == [piece] + Lex(p[n..])
  {
  }

  lemma {:induction false} LexKeepsText(p: string)
    ensures PiecesText(Lex(p)) == p
    decreases |p|
  {
    if p != "" {
      var (piece, n) := FirstPiece(p);
      LexKeepsText(p[n..]);
      LexFirst(p);
      PieceKeepsText(p);
      PieceThenRest(p, n, piece, Lex(p[n..]));
    }
  }

  lemma {:induction false} PiecesCons(p: Piece, ps: seq<Piece>)
    ensures PiecesText([p] + ps) == PieceText(p) + PiecesText(ps)
  {
    assert ([p] + ps)[1..] == ps;
  }

  lemma {:induction false} PieceKeepsText(p: string)
    requires p != ""
    ensures PieceText(FirstPiece(p).0) == p[..FirstPiece(p).1]
  {
    CaptureFits(p);
  }

  lemma {:induction false} LexNames(p: string)
    ensures forall i :: 0 <= i < |Lex(p)| && Lex(p)[i].Cap? ==> Lex(p)[i].name != ""
    decreases |p|
  {
    CaptureFits(p);
    if p != "" {
      LexNames(if CaptureLen(p) > 0 then p[CaptureLen(p)..] else p[1..]);
    }
  }

  lemma {:induction false} PiecesAppend(ps: seq<Piece>, p: Piece)
    ensures PiecesText(ps + [p]) == PiecesText(ps) + PieceText(p)
  {
    if ps == [] {
      assert [p][1..] == [] && ps + [p] == [p];
    } else {
      assert (ps + [p])[1..] == ps[1..] + [p];
      PiecesAppend(ps[1..], p);
    }
  }

  lemma {:induction false} PartsTextStep(parts: seq<Part>, p: Part)
    ensures PartsText(parts + [p]) == PartsText(parts) + PartText(p)
  {
    assert (parts + [p])[..|parts|] == parts;
  }

  lemma {:induction false} ExtendedText(parts: seq<Part>, p: Piece)
    requires p.Cap? ==> p.name != ""
    ensures PartsText(Extended(parts, p)) == PartsText(parts) + PieceText(p)
  {
    match p
    case Cap(name) => PartsTextStep(parts, Capture(if name == "_" then "" else name));
    case Lit(c) =>
      if parts != [] && parts[|parts| - 1].Literal? {
        PartsTextStep(parts[..|parts| - 1], Literal(parts[|parts| - 1].text + [c]));
      } else {
        PartsTextStep(parts, Literal([c]));
      }
  }

  lemma {:induction false} PartsKeepText(ps: seq<Piece>)
    requires forall i :: 0 <= i < |ps| && ps[i].Cap? ==> ps[i].name != ""
    ensures PartsText(Parts(ps)) == PiecesText(ps)
  {
    if ps != [] {
      var init, p := ps[..|ps| - 1], ps[|ps| - 1];
      assert init + [p] == ps;
      PartsKeepText(init);
      PartsStep(init, p);
      ExtendedText(Parts(init), p);
      PiecesAppend(init, p);
    }
  }

  lemma {:induction false} ExtendAlternates(parts: seq<Part>, p: Piece)
    requires Alternates(parts) && (p.Cap? && parts != [] ==> parts[|parts| - 1].Literal?)
    ensures Alternates(Extended(parts, p))
  {
    var parts' := Extended(parts, p);
    assert forall i :: 0 <= i < |parts| - 1 ==> parts'[i] == parts[i];
  }

  lemma {:induction false} PartsAlternate(ps: seq<Piece>)
    requires !Adjacent(ps)
    ensures Alternates(Parts(ps))
  {
    if ps != [] {
      var init, p := ps[..|ps| - 1], ps[|ps| - 1];
      assert init + [p] == ps;
      AdjacentStep(init, p);
      PartsAlternate(init);
      LastPart(init);
      ExtendAlternates(Parts(init), p);
      PartsStep(init, p);
    }
  }

  /** The names of the named captures, in order. */
  function PartNames(parts: seq<Part>): seq<string> {
    if parts == [] then []
    else PartNames(parts[..|parts| - 1]) + NameOf(parts[|parts| - 1])
  }

  function NameOf(p: Part): seq<string> {
    if p.Capture? && p.name != "" then [p.name] else []
  }

  lemma {:induction false} PartNamesStep(parts: seq<Part>, p: Part)
    ensures PartNames(parts + [p]) == PartNames(parts) + NameOf(p)
  {
    assert (parts + [p])[..|parts|] == parts;
  }

  lemma {:induction false} PartsKeepNames(ps: seq<Piece>)
    requires forall i :: 0 <= i < |ps| && ps[i].Cap? ==> ps[i].name != ""
    ensures PartNames(Parts(ps)) == Named(ps)
  {
    if ps != [] {
      var init, p := ps[..|ps| - 1], ps[|ps| - 1];
      assert init + [p] == ps;
      PartsKeepNames(init);
      ExtendNames(Parts(init), p);
      PartsStep(init, p);
      NamedStep(init, p);
    }
  }

  lemma {:induction false} ExtendNames(parts: seq<Part>, p: Piece)
    requires p.Cap? ==> p.name != ""
    ensures PartNames(Extended(parts, p)) == PartNames(parts) + (if p.Cap? && p.name != "_" then [p.name] else [])
  {
    match p
    case Cap(name) => PartNamesStep(parts, Capture(if name == "_" then "" else name));
    case Lit(c) =>
      if parts != [] && parts[|parts| - 1].Literal? {
        PartNamesStep(parts[..|parts| - 1], Literal(parts[|parts| - 1].text + [c]));
      } else {
        PartNamesStep(parts, Literal([c]));
      }
  }

  /** A compiled pattern alternates captures and literals, names something, no
      name twice, and written out again is the pattern. */
  lemma {:induction false} CompiledShape(p: string)
    requires Compiled(p).Some?
    ensures var parts := Compiled(p).value;
      Alternates(parts) && PartsText(parts) == p && PartNames(parts) != [] && Distinct(PartNames(parts))
  {
    PartsAlternate(Lex(p));
    LexNames(p);
    PartsKeepText(Lex(p));
    PartsKeepNames(Lex(p));
    LexKeepsText(p);
  }
}
