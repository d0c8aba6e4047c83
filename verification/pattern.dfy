/** Pattern expressions: what a pattern consists of, as the stage validator reads
    it character by character. */
module PatternText {

  datatype Piece = Lit(c: char) | Cap(name: string)

  predicate StartsName(c: char) {
    'a' <= c <= 'z' || 'A' <= c <= 'Z' || c == '_'
  }

  predicate InName(c: char) {
    StartsName(c) || '0' <= c <= '9'
  }

  /** The regular expression for one capture, anchored at both ends. */
  predicate IsCapture(s: string) {
    && |s| >= 3 && s[0] == '<' && s[|s| - 1] == '>'
    && StartsName(s[1]) && (forall j :: 1 < j < |s| - 1 ==> InName(s[j]))
  }

  /** Where the name that runs on at `j` closes; 0 if it does not. */
  function CloseFrom(s: string, j: nat): nat
    decreases |s| - j
  {
    if j >= |s| then 0
    else if s[j] == '>' then j + 1
    else if InName(s[j]) then CloseFrom(s, j + 1)
    else 0
  }

  /** The length of the capture that `s` starts with, or 0. */
  function CaptureLen(s: string): nat {
    if |s| < 3 || s[0] != '<' || !StartsName(s[1]) then 0 else CloseFrom(s, 2)
  }

  lemma {:induction false} CloseFromIs(s: string, j: nat, n: nat)
    requires j <= n
    ensures CloseFrom(s, j) == n + 1 <==> n < |s| && s[n] == '>' && forall i :: j <= i < n ==> InName(s[i])
    decreases n - j
  {
    if j < n && j < |s| && InName(s[j]) {
      CloseFromIs(s, j + 1, n);
    } else if j < |s| && j < n {
      assert !InName(s[j]);
      CloseIsAfter(s, j + 1);
    } else if j < |s| && s[j] != '>' && InName(s[j]) {
      CloseIsAfter(s, j + 1);
    }
  }

  lemma {:induction false} CloseIsAfter(s: string, j: nat)
    ensures CloseFrom(s, j) == 0 || j < CloseFrom(s, j) <= |s|
    decreases |s| - j
  {
    if j < |s| && s[j] != '>' && InName(s[j]) { CloseIsAfter(s, j + 1); }
  }

  /** The hand-written recogniser finds exactly the prefix the regular
      expression matches, and there is only one. */
  lemma {:induction false} CaptureLenIs(s: string, n: nat)
    requires n <= |s|
    ensures IsCapture(s[..n]) <==> CaptureLen(s) == n && n > 0
  {
    CloseIsAfter(s, 2);
    if n >= 3 { CloseFromIs(s, 2, n - 1); }
  }

  lemma {:induction false} CaptureFits(s: string)
    ensures CaptureLen(s) <= |s| && (CaptureLen(s) > 0 ==> CaptureLen(s) >= 3 && IsCapture(s[..CaptureLen(s)]))
  {
    CloseIsAfter(s, 2);
    if 0 < CaptureLen(s) { CaptureLenIs(s, CaptureLen(s)); }
  }

  function Lex(p: string): seq<Piece>
    decreases |p|
  {
    CaptureFits(p);
    if p == "" then []
    else if CaptureLen(p) > 0 then [Cap(p[1..CaptureLen(p) - 1])] + Lex(p[CaptureLen(p)..])
    else [Lit(p[0])] + Lex(p[1..])
  }

  /** The first piece and where the rest begins. */
  function FirstPiece(p: string): (r: (Piece, nat))
    requires p != ""
    ensures 0 < r.1 <= |p|
  {
    CaptureFits(p);
    if CaptureLen(p) > 0 then (Cap(p[1..CaptureLen(p) - 1]), CaptureLen(p)) else (Lit(p[0]), 1)
  }

  lemma {:induction false} LexStep(p: string, i: nat)
    requires i < |p|
    ensures var (piece, n) := FirstPiece(p[i..]);
      i + n <= |p| && Lex(p[i..]) == [piece] + Lex(p[i + n..])
  {
    var (piece, n) := FirstPiece(p[i..]);
    assert p[i..][n..] == p[i + n..];
  }

  lemma {:induction false} Assoc<T>(a: seq<T>, b: seq<T>, c: seq<T>)
    ensures a + b + c == a + (b + c)
  {
  }

  /** The names that are not `_`, in order. */
  function Named(ps: seq<Piece>): seq<string> {
    if ps == [] then []
    else Named(ps[..|ps| - 1]) + (if ps[|ps| - 1].Cap? && ps[|ps| - 1].name != "_" then [ps[|ps| - 1].name] else [])
  }

  predicate Adjacent(ps: seq<Piece>) {
    exists i, j :: 0 <= i < |ps| && 0 <= j < |ps| && j == i + 1 && ps[i].Cap? && ps[j].Cap?
  }

  predicate Distinct(ns: seq<string>) {
    forall i, j :: 0 <= i < j < |ns| ==> ns[i] != ns[j]
  }

  /** At least one name, no name twice, and no two captures in a row. */
  predicate Accepted(ps: seq<Piece>) {
    Named(ps) != [] && Distinct(Named(ps)) && !Adjacent(ps)
  }

  // ---------------------------------------------------------------------------
  // Sequences of pieces
  // ---------------------------------------------------------------------------

  lemma {:induction false} NamedConcat(a: seq<Piece>, b: seq<Piece>)
    ensures Named(a + b) == Named(a) + Named(b)
  {
    if b == [] {
      assert a + b == a && Named(a) + [] == Named(a);
    } else {
      assert (a + b)[..|a + b| - 1] == a + b[..|b| - 1];
      NamedConcat(a, b[..|b| - 1]);
    }
  }

  lemma {:induction false} AdjacentPrefix(a: seq<Piece>, b: seq<Piece>)
    ensures Adjacent(a) ==> Adjacent(a + b)
  {
    if i, j :| 0 <= i < |a| && 0 <= j < |a| && j == i + 1 && a[i].Cap? && a[j].Cap? {
      assert (a + b)[i].Cap? && (a + b)[j].Cap?;
    }
  }

  lemma {:induction false} AdjacentStep(ps: seq<Piece>, p: Piece)
    ensures Adjacent(ps + [p]) <==> Adjacent(ps) || (ps != [] && ps[|ps| - 1].Cap? && p.Cap?)
  {
    AdjacentPrefix(ps, [p]);
    if ps != [] && ps[|ps| - 1].Cap? && p.Cap? {
      assert (ps + [p])[|ps| - 1].Cap? && (ps + [p])[|ps|].Cap?;
    }
    var all := ps + [p];
    if i, j :| 0 <= i < |all| && 0 <= j < |all| && j == i + 1 && all[i].Cap? && all[j].Cap? {
      if j < |ps| { assert ps[i].Cap? && ps[j].Cap?; }
    }
  }

  lemma {:induction false} NamedStep(ps: seq<Piece>, p: Piece)
    ensures Named(ps + [p]) == Named(ps) + (if p.Cap? && p.name != "_" then [p.name] else [])
  {
    assert (ps + [p])[..|ps|] == ps;
  }

  lemma {:induction false} DistinctStep(ns: seq<string>, n: string)
    ensures Distinct(ns + [n]) <==> Distinct(ns) && n !in ns
  {
    var all := ns + [n];
    assert all[|ns|] == n && forall i :: 0 <= i < |ns| ==> all[i] == ns[i];
  }

  lemma {:induction false} DistinctPrefix(a: seq<string>, b: seq<string>)
    requires Distinct(a + b)
    ensures Distinct(a)
  {
    forall i, j | 0 <= i < j < |a| ensures a[i] != a[j] {
      assert (a + b)[i] == a[i] && (a + b)[j] == a[j];
    }
  }
}

/** The stage validator's walk over a pattern. */
module PatternValidator {
  import opened PatternText

  datatype Verdict = Fine | Empty | NoName | Consecutive | Duplicate

  /** The first complaint, in the validator's order. */
  function FirstComplaint(p: string): Verdict {
    if p == "" then Empty
    else if Named(Lex(p)) == [] then NoName
    else if Adjacent(Lex(p)) then Consecutive
    else if !Distinct(Named(Lex(p))) then Duplicate
    else Fine
  }

  method PatternCapture(s: string) returns (name: string, size: nat)
    ensures size == CaptureLen(s) <= |s|
    ensures s != "" ==> FirstPiece(s) == if size > 0 then (Cap(name), size) else (Lit(s[0]), 1)
  {
    CaptureFits(s);
    if |s| < 3 || s[0] != '<' || !StartsName(s[1]) {
      return "", 0;
    }
    var j := 2;
    while j < |s|
      invariant 2 <= j <= |s| && CloseFrom(s, j) == CaptureLen(s)
    {
      if s[j] == '>' {
        return s[1..j], j + 1;
      }
      if !InName(s[j]) {
        return "", 0;
      }
      j := j + 1;
    }
    return "", 0;
  }

  method HasDuplicate(names: seq<string>) returns (dup: bool)
    ensures dup == !Distinct(names)
  {
    var seen: set<string> := {};
    var i := 0;
    while i < |names|
      invariant 0 <= i <= |names| && Distinct(names[..i])
      invariant forall n :: n in seen <==> n in names[..i]
    {
      assert names[..i + 1] == names[..i] + [names[i]];
      DistinctStep(names[..i], names[i]);
      if names[i] in seen {
        assert names == names[..i + 1] + names[i + 1..];
        if Distinct(names) { DistinctPrefix(names[..i + 1], names[i + 1..]); }
        return true;
      }
      seen := seen + {names[i]};
      i := i + 1;
    }
    assert names[..i] == names;
    return false;
  }

  /** The names from here on. */
  function NamesIn(s: string): seq<string>
    decreases |s|
  {
    if s == "" then []
    else
      var (piece, n) := FirstPiece(s);
      (if piece.Cap? && piece.name != "_" then [piece.name] else []) + NamesIn(s[n..])
  }

  /** Whether two captures touch from here on; `prev` says one just ended. */
  predicate Touches(prev: bool, s: string)
    decreases |s|
  {
    if s == "" then false
    else
      var (piece, n) := FirstPiece(s);
      (prev && piece.Cap?) || Touches(piece.Cap?, s[n..])
  }

  lemma {:induction false} NamesInAre(s: string)
    ensures NamesIn(s) == Named(Lex(s))
    decreases |s|
  {
    if s != "" {
      var (piece, n) := FirstPiece(s);
      assert s[0..] == s;
      LexStep(s, 0);
      NamesInAre(s[n..]);
      NamedConcat([piece], Lex(s[n..]));
      NamedStep([], piece);
      assert [] + [piece] == [piece];
    }
  }

  lemma {:induction false} TouchesIs(done: seq<Piece>, s: string)
    requires !Adjacent(done)
    ensures Touches(done != [] && done[|done| - 1].Cap?, s) <==> Adjacent(done + Lex(s))
    decreases |s|
  {
    if s == "" {
      assert done + [] == done;
    } else {
      var (piece, n) := FirstPiece(s);
      assert s[0..] == s;
      LexStep(s, 0);
      AdjacentStep(done, piece);
      Assoc(done, [piece], Lex(s[n..]));
      if Adjacent(done + [piece]) {
        AdjacentPrefix(done + [piece], Lex(s[n..]));
      } else {
        TouchesIs(done + [piece], s[n..]);
      }
    }
  }

  /** The walk over what is left: the names in order, and whether captures touch. */
  method Walk(pattern: string) returns (named: seq<string>, consecutive: bool)
    ensures named == NamesIn(pattern) && consecutive == Touches(false, pattern)
  {
    named, consecutive := [], false;
    var rest, prevCapture := pattern, false;
    while rest != ""
      invariant named + NamesIn(rest) == NamesIn(pattern)
      invariant consecutive || Touches(prevCapture, rest) <==> Touches(false, pattern)
      decreases |rest|
    {
      var name, size := PatternCapture(rest);
      if size > 0 {
        consecutive := consecutive || prevCapture;
        if name != "_" {
          Assoc(named, [name], NamesIn(rest[size..]));
          named := named + [name];
        }
        prevCapture := true;
        rest := rest[size..];
      } else {
        prevCapture := false;
        rest := rest[1..];
      }
    }
    assert named + [] == named;
  }

  method Validate(pattern: string) returns (v: Verdict)
    ensures v == FirstComplaint(pattern)
    ensures v == Fine <==> Accepted(Lex(pattern))
  {
    if pattern == "" {
      return Empty;
    }
    var named, consecutive := Walk(pattern);
    NamesInAre(pattern);
    TouchesIs([], pattern);
    assert [] + Lex(pattern) == Lex(pattern);
    if named == [] {
      return NoName;
    }
    if consecutive {
      return Consecutive;
    }
    var dup := HasDuplicate(named);
    return if dup then Duplicate else Fine;
  }
}
