/** Matching a line against a compiled pattern. */
module PatternMatcher {
  import opened PatternText
  import opened PatternCompiler

  /** A part of the pattern and the stretch of the line it took. */
  datatype Taken = Taken(part: Part, text: string)

  /** What was taken in order, and what is left of the line. */
  datatype Walk = Walk(taken: seq<Taken>, rest: string)

  predicate HasPrefix(s: string, lit: string) {
    lit <= s
  }

  /** The first occurrence of `lit`, or -1. */
  function Index(s: string, lit: string): (i: int)
    ensures i == -1 ==> forall j :: 0 <= j <= |s| ==> !HasPrefix(s[j..], lit)
    ensures i != -1 ==> 0 <= i <= |s| - |lit| && HasPrefix(s[i..], lit)
    ensures forall j :: 0 <= j < i ==> !HasPrefix(s[j..], lit)
  {
    if HasPrefix(s, lit) then assert s[0..] == s; 0
    else if s == "" then -1
    else
      var i := Index(s[1..], lit);
      assert forall j :: 0 < j <= |s| ==> s[j..] == s[1..][j - 1..];
      assert s[0..] == s;
      if i == -1 then -1 else i + 1
  }

  /** From a capture on. */
  function Captures(parts: seq<Part>, line: string): Walk
    requires Alternates(parts)
    decreases |parts|
  {
    if parts == [] then Walk([], line)
    else if |parts| == 1 || parts[1].Capture? then Walk([Taken(parts[0], line)], "")
    else
      var lit := parts[1].text;
      var i := Index(line, lit);
      if i < 0 then Walk([Taken(parts[0], line)], "")
      else
        var w := Captures(parts[2..], line[i + |lit|..]);
        Walk([Taken(parts[0], line[..i]), Taken(parts[1], lit)] + w.taken, w.rest)
  }

  function Match(parts: seq<Part>, line: string): Walk
    requires Alternates(parts)
  {
    if parts != [] && parts[0].Literal? then
      var lit := parts[0].text;
      if !HasPrefix(line, lit) then Walk([], line)
      else
        var w := Captures(parts[1..], line[|lit|..]);
        Walk([Taken(parts[0], lit)] + w.taken, w.rest)
    else Captures(parts, line)
  }

  // ---------------------------------------------------------------------------
  // What a match is
  // ---------------------------------------------------------------------------

  function TakenText(ts: seq<Taken>): string {
    if ts == [] then "" else ts[0].text + TakenText(ts[1..])
  }

  lemma {:induction false} TextCons(t: Taken, ts: seq<Taken>)
    ensures TakenText([t] + ts) == t.text + TakenText(ts)
  {
    assert ([t] + ts)[1..] == ts;
  }

  lemma {:induction false} TextPair(t: Taken, u: Taken, ts: seq<Taken>)
    ensures TakenText([t, u] + ts) == t.text + u.text + TakenText(ts)
  {
    assert [t, u] + ts == [t] + ([u] + ts);
    TextCons(t, [u] + ts);
    TextCons(u, ts);
  }

  /** The parts taken are the first parts of the pattern. */
  predicate Follows(parts: seq<Part>, ts: seq<Taken>) {
    |ts| <= |parts| && forall i :: 0 <= i < |ts| ==> ts[i].part == parts[i]
  }

  /** Literals are taken verbatim, and a literal after a capture is taken where
      it first occurs. */
  predicate Faithful(ts: seq<Taken>) {
    && (forall i :: 0 <= i < |ts| && ts[i].part.Literal? ==> ts[i].text == ts[i].part.text)
    && (forall i, j :: 0 <= i < |ts| && 0 <= j < |ts| && j == i + 1 && ts[i].part.Capture? && ts[j].part.Literal? ==>
          Shortest(ts[i].text, ts[j].text))
  }

  /** `lit` occurs in `text + lit` only at the end. */
  predicate Shortest(text: string, lit: string) {
    forall j :: 0 <= j < |text| ==> !HasPrefix((text + lit)[j..], lit)
  }

  /** The walk used all parts, or ended in a capture that took the rest of the
      line because the literal after it does not occur there. */
  predicate Ended(parts: seq<Part>, w: Walk) {
    || (|w.taken| == |parts| && (parts != [] && parts[|parts| - 1].Capture? ==> w.rest == ""))
    || (|w.taken| < |parts| && w.taken != [] && w.rest == ""
        && w.taken[|w.taken| - 1].part.Capture? && parts[|w.taken|].Literal?
        && Index(w.taken[|w.taken| - 1].text, parts[|w.taken|].text) == -1)
  }

  lemma {:induction false} FoundSplits(line: string, lit: string, i: nat)
    requires i <= |line| && HasPrefix(line[i..], lit)
    ensures i + |lit| <= |line| && line == line[..i] + lit + line[i + |lit|..]
  {
    assert line[i..][..|lit|] == lit;
    assert line[i..][|lit|..] == line[i + |lit|..];
  }

  lemma {:induction false} NotEarlier(line: string, lit: string, i: nat, j: nat)
    requires j < i <= |line| && HasPrefix(line[i..], lit) && !HasPrefix(line[j..], lit)
    ensures !HasPrefix((line[..i] + lit)[j..], lit)
  {
    FoundSplits(line, lit, i);
    var head, rest := line[..i] + lit, line[i + |lit|..];
    assert line == head + rest && line[j..] == head[j..] + rest;
  }

  lemma {:induction false} FoundIsShortest(line: string, lit: string)
    requires Index(line, lit) >= 0
    ensures Shortest(line[..Index(line, lit)], lit)
    ensures line == line[..Index(line, lit)] + lit + line[Index(line, lit) + |lit|..]
  {
    var i := Index(line, lit);
    FoundSplits(line, lit, i);
    forall j | 0 <= j < i ensures !HasPrefix((line[..i] + lit)[j..], lit) {
      NotEarlier(line, lit, i, j);
    }
  }

  lemma {:induction false} CapturesRebuild(parts: seq<Part>, line: string)
    requires Alternates(parts)
    ensures var w := Captures(parts, line); TakenText(w.taken) + w.rest == line
    decreases |parts|
  {
    if parts != [] {
      if |parts| == 1 || parts[1].Capture? || Index(line, parts[1].text) < 0 {
        TextCons(Taken(parts[0], line), []);
        assert [Taken(parts[0], line)] + [] == [Taken(parts[0], line)];
      } else {
        var lit := parts[1].text;
        var i := Index(line, lit);
        CapturesRebuild(parts[2..], line[i + |lit|..]);
        FoundIsShortest(line, lit);
        var rest := line[i + |lit|..];
        PairRebuild(Taken(parts[0], line[..i]), Taken(parts[1], lit), Captures(parts[2..], rest), rest);
      }
    }
  }

  lemma {:induction false} PairRebuild(t: Taken, u: Taken, w: Walk, rest: string)
    requires TakenText(w.taken) + w.rest == rest
    ensures TakenText([t, u] + w.taken) + w.rest == t.text + u.text + rest
  {
    TextPair(t, u, w.taken);
  }

  predicate StartsWithCapture(parts: seq<Part>) {
    parts == [] || parts[0].Capture?
  }

  lemma {:induction false} CapturesAreFaithful(parts: seq<Part>, line: string)
    requires Alternates(parts) && StartsWithCapture(parts)
    ensures var w := Captures(parts, line); Follows(parts, w.taken) && Faithful(w.taken) && Ended(parts, w)
    decreases |parts|
  {
    if |parts| > 1 && Index(line, parts[1].text) >= 0 {
      var lit := parts[1].text;
      var i := Index(line, lit);
      var w := Captures(parts[2..], line[i + |lit|..]);
      CapturesAreFaithful(parts[2..], line[i + |lit|..]);
      FoundIsShortest(line, lit);
      PairFaithful(parts, Taken(parts[0], line[..i]), Taken(parts[1], lit), w);
    }
  }

  lemma {:induction false} PairFaithful(parts: seq<Part>, t: Taken, u: Taken, w: Walk)
    requires |parts| >= 2 && t.part == parts[0] && u.part == parts[1] && t.part.Capture? && u.part.Literal?
    requires u.text == u.part.text && Shortest(t.text, u.text) && StartsWithCapture(parts[2..])
    requires Follows(parts[2..], w.taken) && Faithful(w.taken) && Ended(parts[2..], w)
    ensures var w' := Walk([t, u] + w.taken, w.rest); Follows(parts, w'.taken) && Faithful(w'.taken) && Ended(parts, w')
  {
    var ts := [t, u] + w.taken;
    assert forall i :: 2 <= i < |ts| ==> ts[i] == w.taken[i - 2];
    assert forall i :: 2 <= i < |parts| ==> parts[i] == parts[2..][i - 2];
  }

  /** Whether the pattern's leading literal, if any, stands at the start. */
  predicate Leads(parts: seq<Part>, line: string) {
    parts != [] && parts[0].Literal? ==> HasPrefix(line, parts[0].text)
  }

  /** Once the leading literal is passed, literals and captures taken plus what is
      left rebuild the line, every literal is verbatim, every capture before a
      found literal is as short as can be, and a capture whose literal is absent
      takes the rest. Without the leading literal nothing is taken. */
  lemma {:induction false} MatchIsFaithful(parts: seq<Part>, line: string)
    requires Alternates(parts)
    ensures var w := Match(parts, line);
            TakenText(w.taken) + w.rest == line && Follows(parts, w.taken) && Faithful(w.taken)
    ensures var w := Match(parts, line); if Leads(parts, line) then Ended(parts, w) else w.taken == []
  {
    if parts == [] || parts[0].Capture? {
      CapturesRebuild(parts, line);
      CapturesAreFaithful(parts, line);
    } else if HasPrefix(line, parts[0].text) {
      LeadCase(parts, line);
    }
  }

  lemma {:induction false} LeadCase(parts: seq<Part>, line: string)
    requires Alternates(parts) && parts != [] && parts[0].Literal? && HasPrefix(line, parts[0].text)
    ensures var w := Match(parts, line);
      TakenText(w.taken) + w.rest == line && Follows(parts, w.taken) && Faithful(w.taken) && Ended(parts, w)
  {
    var lit := parts[0].text;
    var w := Captures(parts[1..], line[|lit|..]);
    CapturesRebuild(parts[1..], line[|lit|..]);
    CapturesAreFaithful(parts[1..], line[|lit|..]);
    LeadRebuild(Taken(parts[0], lit), w, line);
    LeadFaithful(parts, w);
  }

  lemma {:induction false} LeadRebuild(t: Taken, w: Walk, line: string)
    requires t.text <= line && TakenText(w.taken) + w.rest == line[|t.text|..]
    ensures TakenText([t] + w.taken) + w.rest == line
  {
    TextCons(t, w.taken);
    assert line == t.text + line[|t.text|..];
  }

  lemma {:induction false} LeadFaithful(parts: seq<Part>, w: Walk)
    requires parts != [] && parts[0].Literal? && Alternates(parts)
    requires Follows(parts[1..], w.taken) && Faithful(w.taken) && Ended(parts[1..], w)
    ensures var w' := Walk([Taken(parts[0], parts[0].text)] + w.taken, w.rest);
      Follows(parts, w'.taken) && Faithful(w'.taken) && Ended(parts, w')
  {
    var ts := [Taken(parts[0], parts[0].text)] + w.taken;
    assert forall i :: 1 <= i < |ts| ==> ts[i] == w.taken[i - 1];
    assert forall i :: 1 <= i < |parts| ==> parts[i] == parts[1..][i - 1];
  }

  // ---------------------------------------------------------------------------
  // The matcher as it runs
  // ---------------------------------------------------------------------------

  /** Named captures as labels, later ones over earlier ones. */
  function Labels(ts: seq<Taken>, out: map<string, string>): map<string, string> {
    if ts == [] then out else Labels(ts[1..], WithCapture(ts[0].part, ts[0].text, out))
  }

  function WithCapture(p: Part, text: string, out: map<string, string>): map<string, string> {
    if p.Capture? && p.name != "" then out[p.name := text] else out
  }

  lemma {:induction false} LabelsPair(t: Taken, u: Taken, ts: seq<Taken>, out: map<string, string>)
    requires u.part.Literal?
    ensures Labels([t, u] + ts, out) == Labels(ts, WithCapture(t.part, t.text, out))
  {
    assert ([t, u] + ts)[1..] == [u] + ts && ([u] + ts)[1..] == ts;
  }

  /** The parts that were taken. */
  function PartsOf(ts: seq<Taken>): seq<Part> {
    seq(|ts|, i requires 0 <= i < |ts| => ts[i].part)
  }

  lemma {:induction false} LabelsStep(ts: seq<Taken>, t: Taken, out: map<string, string>)
    ensures Labels(ts + [t], out) == WithCapture(t.part, t.text, Labels(ts, out))
    decreases |ts|
  {
    if ts == [] {
      assert ([] + [t])[1..] == [] && [] + [t] == [t];
    } else {
      assert (ts + [t])[1..] == ts[1..] + [t];
      LabelsStep(ts[1..], t, WithCapture(ts[0].part, ts[0].text, out));
    }
  }

  lemma {:induction false} NameIsListed(parts: seq<Part>, i: nat)
    requires i < |parts| && parts[i].Capture? && parts[i].name != ""
    ensures parts[i].name in PartNames(parts)
  {
    if i < |parts| - 1 { NameIsListed(parts[..|parts| - 1], i); }
  }

  /** Every named capture that was taken is a label with the text it took. */
  predicate Labelled(ts: seq<Taken>, l: map<string, string>) {
    forall i :: 0 <= i < |ts| && ts[i].part.Capture? && ts[i].part.name != "" ==>
      ts[i].part.name in l && l[ts[i].part.name] == ts[i].text
  }

  /** Outside `names` the two maps agree. */
  ghost predicate AgreeOutside(names: seq<string>, l: map<string, string>, out: map<string, string>) {
    forall k :: k !in names ==> (k in l <==> k in out) && (k in l ==> l[k] == out[k])
  }

  lemma {:induction false} LabelledStep(ts: seq<Taken>, t: Taken, l: map<string, string>)
    requires Labelled(ts, l) && Distinct(PartNames(PartsOf(ts)) + NameOf(t.part))
    ensures Labelled(ts + [t], WithCapture(t.part, t.text, l))
  {
    if t.part.Capture? && t.part.name != "" {
      DistinctStep(PartNames(PartsOf(ts)), t.part.name);
      forall i | 0 <= i < |ts| && ts[i].part.Capture? && ts[i].part.name != "" ensures ts[i].part.name != t.part.name {
        NameIsListed(PartsOf(ts), i);
      }
    }
  }

  /** With distinct names every named capture that was taken is a label with the
      text it took, and all other labels stay as they were. */
  lemma {:induction false} LabelsAreCaptures(ts: seq<Taken>, out: map<string, string>)
    requires Distinct(PartNames(PartsOf(ts)))
    ensures Labelled(ts, Labels(ts, out)) && AgreeOutside(PartNames(PartsOf(ts)), Labels(ts, out), out)
  {
    if ts != [] {
      var init, t := ts[..|ts| - 1], ts[|ts| - 1];
      assert init + [t] == ts;
      assert PartsOf(ts)[..|ts| - 1] == PartsOf(init);
      DistinctPrefix(PartNames(PartsOf(init)), NameOf(t.part));
      LabelsStep(init, t, out);
      LabelsAreCaptures(init, out);
      LabelledStep(init, t, Labels(init, out));
    }
  }

  lemma {:induction false} NamesOfPrefix(a: seq<Part>, b: seq<Part>)
    requires a <= b && Distinct(PartNames(b))
    ensures Distinct(PartNames(a))
    decreases |b|
  {
    if a != b {
      var init := b[..|b| - 1];
      assert a <= init;
      DistinctPrefix(PartNames(init), NameOf(b[|b| - 1]));
      NamesOfPrefix(a, init);
    }
  }

  /** For a compiled pattern that applies to every line. */
  lemma {:induction false} CompiledLabels(p: string, line: string, out: map<string, string>)
    requires Compiled(p).Some?
    ensures Alternates(Compiled(p).value)
    ensures var ts := Match(Compiled(p).value, line).taken;
      Labelled(ts, Labels(ts, out)) && AgreeOutside(PartNames(PartsOf(ts)), Labels(ts, out), out)
  {
    CompiledShape(p);
    var parts := Compiled(p).value;
    var ts := Match(parts, line).taken;
    MatchIsFaithful(parts, line);
    assert PartsOf(ts) <= parts;
    NamesOfPrefix(PartsOf(ts), parts);
    LabelsAreCaptures(ts, out);
  }

  lemma {:induction false} LastCapture(ps: seq<Part>, s: string, out: map<string, string>)
    requires Alternates(ps) && ps != [] && ps[0].Capture? && (|ps| == 1 || Index(s, ps[1].text) < 0)
    ensures Labels(Captures(ps, s).taken, out) == WithCapture(ps[0], s, out)
  {
    assert Captures(ps, s).taken[1..] == [];
  }

  lemma {:induction false} NextCapture(ps: seq<Part>, s: string, out: map<string, string>)
    requires Alternates(ps) && |ps| > 1 && ps[0].Capture? && Index(s, ps[1].text) >= 0
    ensures var i, n := Index(s, ps[1].text), |ps[1].text|;
      Labels(Captures(ps, s).taken, out) == Labels(Captures(ps[2..], s[i + n..]).taken, WithCapture(ps[0], s[..i], out))
  {
    var i, lit := Index(s, ps[1].text), ps[1].text;
    LabelsPair(Taken(ps[0], s[..i]), Taken(ps[1], lit), Captures(ps[2..], s[i + |lit|..]).taken, out);
  }

  lemma {:induction false} LeadLabels(parts: seq<Part>, line: string, out: map<string, string>)
    requires Alternates(parts) && parts != [] && parts[0].Literal? && HasPrefix(line, parts[0].text)
    ensures Labels(Match(parts, line).taken, out) == Labels(Captures(parts[1..], line[|parts[0].text|..]).taken, out)
  {
    assert Match(parts, line).taken[1..] == Captures(parts[1..], line[|parts[0].text|..]).taken;
  }

  /** The loop, from a capture on. */
  method MatchCaptures(parts: seq<Part>, line: string, into: map<string, string>) returns (out: map<string, string>)
    requires Alternates(parts) && StartsWithCapture(parts)
    ensures out == Labels(Captures(parts, line).taken, into)
  {
    out := into;
    var ps, s := parts, line;
    while |ps| > 0
      invariant Alternates(ps) && StartsWithCapture(ps)
      invariant Labels(Captures(ps, s).taken, out) == Labels(Captures(parts, line).taken, into)
      decreases |ps|
    {
      if |ps| == 1 || Index(s, ps[1].text) < 0 {
        LastCapture(ps, s, out);
        out := WithCapture(ps[0], s, out);
        return;
      }
      NextCapture(ps, s, out);
      var i, lit := Index(s, ps[1].text), ps[1].text;
      out := WithCapture(ps[0], s[..i], out);
      s := s[i + |lit|..];
      ps := ps[2..];
    }
  }

  /** Fill `into` with the captures of one line. */
  method MatchLine(parts: seq<Part>, line: string, into: map<string, string>) returns (out: map<string, string>)
    requires Alternates(parts)
    ensures out == Labels(Match(parts, line).taken, into)
  {
    if |parts| > 0 && parts[0].Literal? {
      if !HasPrefix(line, parts[0].text) {
        return into;
      }
      LeadLabels(parts, line, into);
      out := MatchCaptures(parts[1..], line[|parts[0].text|..], into);
    } else {
      out := MatchCaptures(parts, line, into);
    }
  }
}
