/** Exactly which LogsQL filter trees come back from their own text. */
module LogsQLExact {
  import opened LogsQLText
  import opened LogsQLFilter
  import opened LogsQLRoundTrip

  // ---------------------------------------------------------------------------
  // What the parser can return
  // ---------------------------------------------------------------------------

  predicate TokOk(t: Tok) {
    t.Ident? ==> PlainWord(t.name)
  }

  predicate ToksOk(ts: seq<Tok>) {
    forall i :: 0 <= i < |ts| ==> TokOk(ts[i])
  }

  lemma {:induction false} LexToksOk(s: string)
    ensures ToksOk(Lex(s))
    decreases |s|
  {
    var t := SkipSpace(s);
    if t != "" {
      LexToksOk(Scan(t).rest);
      ScanTokOk(t);
    }
  }

  lemma {:induction false} ScanTokOk(s: string)
    requires s != ""
    ensures TokOk(Scan(s).tok)
  {
    if Scan(s).tok.Ident? {
      assert Scan(s) == ScanIdent(s);
      var v := s[..IdentLength(s)];
      assert forall i :: 0 <= i < |v| ==> v[i] == s[i];
    }
  }

  /** What the parser may return; the text of an exact prefix is left open. */
  predicate Parsed(f: Filter) {
    match f
    case Atom(l) => l.ExactPrefix? || LeafOk(l)
    case NegField(_, _, _) => false
    case And(l, r) => Parsed(l) && Parsed(r)
    case Or(l, r) => Parsed(l) && Parsed(r)
    case Not(x) => Parsed(x)
  }

  predicate ResultOk(r: Result) {
    r.Ok? ==> Parsed(r.filter) && ToksOk(r.rest)
  }

  lemma {:induction false} ParseNamedOk(n: string, ts: seq<Tok>)
    requires ValidName(n) && ToksOk(ts)
    ensures ResultOk(ParseNamed(n, ts))
  {
    if Head(ts) == Colon { ParseBareValueOk(n, ts[1..]); }
  }

  lemma {:induction false} ParseBareValueOk(n: string, ts: seq<Tok>)
    requires ValidName(n) && ToksOk(ts)
    ensures ResultOk(ParseBareValue(n, ts))
  {
  }

  lemma {:induction false} ParseIdentOk(n: string, ts: seq<Tok>)
    requires PlainWord(n) && ToksOk(ts)
    ensures ResultOk(ParseIdent(n, ts))
  {
    if n != "_time" && n !in FUNCTION_WORDS { ParseNamedOk(n, ts); }
  }

  lemma {:induction false} ParsePrimaryOk(ts: seq<Tok>)
    requires ToksOk(ts)
    ensures ResultOk(ParsePrimary(ts))
    decreases |ts|, 0
  {
    if Head(ts) == LParen {
      ParseOrOk(ts[1..]);
    } else if Head(ts).Ident? {
      ParseIdentOk(ts[0].name, ts[1..]);
    }
  }

  lemma {:induction false} ParseNotOk(ts: seq<Tok>)
    requires ToksOk(ts)
    ensures ResultOk(ParseNot(ts))
    decreases |ts|, 1
  {
    if Head(ts) == NotKw { ParseNotOk(ts[1..]); } else { ParsePrimaryOk(ts); }
  }

  lemma {:induction false} ParseAndOk(ts: seq<Tok>)
    requires ToksOk(ts)
    ensures ResultOk(ParseAnd(ts))
    decreases |ts|, 3
  {
    ParseNotOk(ts);
    var r := ParseNot(ts);
    if r.Ok? { AndTailOk(r.filter, r.rest); }
  }

  lemma {:induction false} AndTailOk(left: Filter, ts: seq<Tok>)
    requires Parsed(left) && ToksOk(ts)
    ensures ResultOk(AndTail(left, ts))
    decreases |ts|, 2
  {
    if Head(ts) == AndKw {
      ParseNotOk(ts[1..]);
      var r := ParseNot(ts[1..]);
      if r.Ok? { AndTailOk(And(left, r.filter), r.rest); }
    }
  }

  lemma {:induction false} ParseOrOk(ts: seq<Tok>)
    requires ToksOk(ts)
    ensures ResultOk(ParseOr(ts))
    decreases |ts|, 5
  {
    ParseAndOk(ts);
    var r := ParseAnd(ts);
    if r.Ok? { OrTailOk(r.filter, r.rest); }
  }

  lemma {:induction false} OrTailOk(left: Filter, ts: seq<Tok>)
    requires Parsed(left) && ToksOk(ts)
    ensures ResultOk(OrTail(left, ts))
    decreases |ts|, 4
  {
    if Head(ts) == OrKw {
      ParseAndOk(ts[1..]);
      var r := ParseAnd(ts[1..]);
      if r.Ok? { OrTailOk(Or(left, r.filter), r.rest); }
    }
  }

  /** Well-formed but for the text of exact prefixes. */
  predicate Nearly(f: Filter) {
    match f
    case Atom(l) => l.ExactPrefix? || LeafOk(l)
    case NegField(n, op, v) => LeafOk(Field(n, op, v))
    case And(l, r) => Nearly(l) && Nearly(r)
    case Or(l, r) => Nearly(l) && Nearly(r)
    case Not(x) => Nearly(x)
  }

  lemma {:induction false} ParsedNorm(f: Filter)
    requires Parsed(Norm(f))
    ensures Nearly(f)
    decreases f, 1
  {
    match f
    case And(l, r) => ParsedAppendAnd(Norm(l), r); ParsedNorm(l);
    case Or(l, r) => ParsedAppendOr(Norm(l), r); ParsedNorm(l);
    case Not(x) => ParsedNorm(x);
    case _ =>
  }

  lemma {:induction false} ParsedAppendAnd(left: Filter, f: Filter)
    requires Parsed(AppendAnd(left, f))
    ensures Parsed(left) && Nearly(f)
    decreases f, 2
  {
    if f.And? {
      ParsedAppendAnd(AppendAnd(left, f.left), f.right);
      ParsedAppendAnd(left, f.left);
    } else {
      ParsedNorm(f);
    }
  }

  lemma {:induction false} ParsedAppendOr(left: Filter, f: Filter)
    requires Parsed(AppendOr(left, f))
    ensures Parsed(left) && Nearly(f)
    decreases f, 2
  {
    if f.Or? {
      ParsedAppendOr(AppendOr(left, f.left), f.right);
      ParsedAppendOr(left, f.left);
    } else {
      ParsedNorm(f);
    }
  }

  // ---------------------------------------------------------------------------
  // The leaves of a tree, in its tokens and in its text
  // ---------------------------------------------------------------------------

  function Leaves(f: Filter): seq<Leaf> {
    match f
    case Atom(l) => [l]
    case NegField(n, op, v) => [Field(n, op, v)]
    case And(l, r) => Leaves(l) + Leaves(r)
    case Or(l, r) => Leaves(l) + Leaves(r)
    case Not(x) => Leaves(x)
  }

  lemma {:induction false} NormKeepsLeaves(f: Filter)
    ensures Leaves(Norm(f)) == Leaves(f)
    decreases f, 1
  {
    match f
    case And(l, r) => AppendAndLeaves(Norm(l), r); NormKeepsLeaves(l);
    case Or(l, r) => AppendOrLeaves(Norm(l), r); NormKeepsLeaves(l);
    case Not(x) => NormKeepsLeaves(x);
    case _ =>
  }

  lemma {:induction false} AppendAndLeaves(left: Filter, f: Filter)
    ensures Leaves(AppendAnd(left, f)) == Leaves(left) + Leaves(f)
    decreases f, 2
  {
    if f.And? {
      AppendAndLeaves(AppendAnd(left, f.left), f.right);
      AppendAndLeaves(left, f.left);
    } else {
      NormKeepsLeaves(f);
    }
  }

  lemma {:induction false} AppendOrLeaves(left: Filter, f: Filter)
    ensures Leaves(AppendOr(left, f)) == Leaves(left) + Leaves(f)
    decreases f, 2
  {
    if f.Or? {
      AppendOrLeaves(AppendOr(left, f.left), f.right);
      AppendOrLeaves(left, f.left);
    } else {
      NormKeepsLeaves(f);
    }
  }

  predicate Joins(t: Tok) {
    t == LParen || t == RParen || t == AndKw || t == OrKw || t == NotKw
  }

  /** The leaves read one after the other, whatever joins them, up to the first mistake. */
  function Atoms(ts: seq<Tok>): seq<Leaf> {
    if ts == [] then []
    else if Joins(ts[0]) then Atoms(ts[1..])
    else
      var r := ParseAtom(ts);
      if r.Ok? && r.filter.Atom? then [r.filter.leaf] + Atoms(r.rest) else []
  }

  lemma {:induction false} AtomsJoin(t: Tok, ts: seq<Tok>)
    requires Joins(t)
    ensures Atoms([t] + ts) == Atoms(ts)
  {
    assert ([t] + ts)[1..] == ts;
  }

  predicate Accounts(ts: seq<Tok>, before: seq<Leaf>, r: Result) {
    r.Ok? ==> before + Atoms(ts) == Leaves(r.filter) + Atoms(r.rest)
  }

  lemma {:induction false} PrimaryAtoms(ts: seq<Tok>)
    ensures Accounts(ts, [], ParsePrimary(ts))
    decreases |ts|, 0
  {
    if Head(ts) == LParen {
      OrAtoms(ts[1..]);
    } else {
      AtomAtoms(ts);
    }
  }

  lemma {:induction false} AtomAtoms(ts: seq<Tok>)
    ensures Accounts(ts, [], ParseAtom(ts))
  {
    var r := ParseAtom(ts);
    if r.Ok? {
      assert r.filter.Atom?;
    }
  }

  lemma {:induction false} NotAtoms(ts: seq<Tok>)
    ensures Accounts(ts, [], ParseNot(ts))
    decreases |ts|, 1
  {
    if Head(ts) == NotKw { NotAtoms(ts[1..]); } else { PrimaryAtoms(ts); }
  }

  /** One more operand read after its keyword. */
  lemma {:induction false} Step(left: Filter, f: Filter, both: Filter, ts: seq<Tok>, rest: seq<Tok>)
    requires both == And(left, f) || both == Or(left, f)
    requires ts != [] && Joins(ts[0]) && Accounts(ts[1..], [], Ok(f, rest))
    ensures Leaves(left) + Atoms(ts) == Leaves(both) + Atoms(rest)
  {
    assert [] + Atoms(ts[1..]) == Atoms(ts);
    Assoc(Leaves(left), Leaves(f), Atoms(rest));
  }

  lemma {:induction false} AndAtoms(ts: seq<Tok>)
    ensures Accounts(ts, [], ParseAnd(ts))
    decreases |ts|, 3
  {
    NotAtoms(ts);
    var r := ParseNot(ts);
    if r.Ok? { AndTailAtoms(r.filter, r.rest); }
  }

  lemma {:induction false} AndTailAtoms(left: Filter, ts: seq<Tok>)
    ensures Accounts(ts, Leaves(left), AndTail(left, ts))
    decreases |ts|, 2
  {
    if Head(ts) == AndKw {
      NotAtoms(ts[1..]);
      var r := ParseNot(ts[1..]);
      if r.Ok? {
        AndTailAtoms(And(left, r.filter), r.rest);
        Step(left, r.filter, And(left, r.filter), ts, r.rest);
      }
    }
  }

  lemma {:induction false} OrAtoms(ts: seq<Tok>)
    ensures Accounts(ts, [], ParseOr(ts))
    decreases |ts|, 5
  {
    AndAtoms(ts);
    var r := ParseAnd(ts);
    if r.Ok? { OrTailAtoms(r.filter, r.rest); }
  }

  lemma {:induction false} OrTailAtoms(left: Filter, ts: seq<Tok>)
    ensures Accounts(ts, Leaves(left), OrTail(left, ts))
    decreases |ts|, 4
  {
    if Head(ts) == OrKw {
      AndAtoms(ts[1..]);
      var r := ParseAnd(ts[1..]);
      if r.Ok? {
        OrTailAtoms(Or(left, r.filter), r.rest);
        Step(left, r.filter, Or(left, r.filter), ts, r.rest);
      }
    }
  }

  lemma {:induction false} Assoc(a: seq<Leaf>, b: seq<Leaf>, c: seq<Leaf>)
    ensures a + (b + c) == a + b + c
  {
  }

  // ---------------------------------------------------------------------------
  // The leaves of printed text
  // ---------------------------------------------------------------------------

  function TextAtoms(s: string): seq<Leaf> {
    Atoms(Lex(s))
  }

  /** Text that may follow a printed tree. */
  predicate Follows(s: string) {
    Meets(SpaceOrClose, s) && Stops(Lex(s))
  }

  lemma {:induction false} AfterSpace(s: string)
    ensures Lex(" " + s) == Lex(s)
  {
    ReadsSpace();
    ReadsAt(" ", [], Nothing, s);
  }

  lemma {:induction false} AfterParen(c: char, s: string)
    requires c == '(' || c == ')'
    ensures TextAtoms([c] + s) == TextAtoms(s)
    ensures c == ')' ==> Follows([c] + s)
  {
    ReadsPunctuation(c);
    ReadsAt([c], [Punctuation(c)], Nothing, s);
    AtomsJoin(Punctuation(c), Lex(s));
  }

  lemma {:induction false} AfterKeyword(kw: string, s: string)
    requires kw == "AND" || kw == "OR" || kw == "NOT"
    ensures TextAtoms(kw + (" " + s)) == TextAtoms(s)
    ensures Head(Lex(kw + (" " + s))) == Word(kw)
  {
    ReadsWord(kw);
    ReadsAt(kw, [Word(kw)], NoIdent, " " + s);
    AfterSpace(s);
    AtomsJoin(Word(kw), Lex(s));
  }

  lemma {:induction false} AfterSpacedKeyword(kw: string, s: string)
    requires kw == "AND" || kw == "OR"
    ensures TextAtoms(" " + (kw + (" " + s))) == TextAtoms(s)
    ensures Follows(" " + (kw + (" " + s)))
  {
    AfterKeyword(kw, s);
    AfterSpace(kw + (" " + s));
  }

  lemma {:induction false} LeafAtoms(l: Leaf, ts: seq<Tok>)
    requires LeafOk(l) && Stops(ts)
    ensures Atoms(LeafToks(l) + ts) == [l] + Atoms(ts)
  {
    ParseLeaf(l, ts);
    assert !Joins(Head(LeafToks(l) + ts));
  }

  lemma {:induction false} GroupAtoms(b: bool, ts: seq<Tok>, ls: seq<Leaf>, rest: seq<Tok>)
    requires Atoms(ts + if b then [RParen] + rest else rest) == ls + Atoms(if b then [RParen] + rest else rest)
    ensures Atoms(TokParens(b, ts) + rest) == ls + Atoms(rest)
  {
    if b {
      assert [LParen] + ts + [RParen] + rest == [LParen] + (ts + ([RParen] + rest));
      AtomsJoin(LParen, ts + ([RParen] + rest));
      AtomsJoin(RParen, rest);
    }
  }

  lemma {:induction false} GroupedAtoms(b: bool, f: Filter, rest: seq<Tok>)
    requires WellFormed(f) && Stops(rest)
    ensures Atoms(TokParens(b, Toks(f)) + rest) == Leaves(f) + Atoms(rest)
    decreases f, 1
  {
    ToksAtoms(f, if b then [RParen] + rest else rest);
    GroupAtoms(b, Toks(f), Leaves(f), rest);
  }

  lemma {:induction false} InfixToks(ta: seq<Tok>, kw: Tok, tb: seq<Tok>, rest: seq<Tok>)
    ensures ta + [kw] + tb + rest == ta + ([kw] + (tb + rest))
  {
  }

  lemma {:induction false} NotToks(ts: seq<Tok>, rest: seq<Tok>)
    ensures Atoms([NotKw] + ts + rest) == Atoms(ts + rest)
  {
    assert [NotKw] + ts + rest == [NotKw] + (ts + rest);
    AtomsJoin(NotKw, ts + rest);
  }

  lemma {:induction false} InfixAtoms(ta: seq<Tok>, la: seq<Leaf>, kw: Tok, tb: seq<Tok>, lb: seq<Leaf>, rest: seq<Tok>)
    requires kw == AndKw || kw == OrKw
    requires Atoms(ta + ([kw] + (tb + rest))) == la + Atoms([kw] + (tb + rest))
    requires Atoms(tb + rest) == lb + Atoms(rest)
    ensures Atoms(ta + [kw] + tb + rest) == la + lb + Atoms(rest)
  {
    InfixToks(ta, kw, tb, rest);
    AtomsJoin(kw, tb + rest);
    Assoc(la, lb, Atoms(rest));
  }

  lemma {:induction false} ToksAtoms(f: Filter, rest: seq<Tok>)
    requires WellFormed(f) && Stops(rest)
    ensures Atoms(Toks(f) + rest) == Leaves(f) + Atoms(rest)
    decreases f, 0
  {
    match f
    case Atom(l) => LeafAtoms(l, rest);
    case NegField(n, op, v) =>
      var l := Field(n, op, v);
      LeafAtoms(l, rest);
      NotToks(LeafToks(l), rest);
    case And(l, r) =>
      var tb := TokParens(r.Or?, Toks(r));
      GroupedAtoms(l.Or?, l, [AndKw] + (tb + rest));
      GroupedAtoms(r.Or?, r, rest);
      InfixAtoms(TokParens(l.Or?, Toks(l)), Leaves(l), AndKw, tb, Leaves(r), rest);
    case Or(l, r) =>
      ToksAtoms(l, [OrKw] + (Toks(r) + rest));
      ToksAtoms(r, rest);
      InfixAtoms(Toks(l), Leaves(l), OrKw, Toks(r), Leaves(r), rest);
    case Not(x) =>
      var b := x.Or? || x.And?;
      GroupedAtoms(b, x, rest);
      NotToks(TokParens(b, Toks(x)), rest);
  }

  lemma {:induction false} PrintAtoms(f: Filter, s: string)
    requires WellFormed(f) && Follows(s)
    ensures TextAtoms(Print(f) + s) == Leaves(f) + TextAtoms(s)
  {
    ReadsPrint(f);
    ReadsAt(Print(f), Toks(f), SpaceOrClose, s);
    ToksAtoms(f, Lex(s));
  }

  // ---------------------------------------------------------------------------
  // The first exact prefix that does not mean itself spoils the text
  // ---------------------------------------------------------------------------

  predicate Spoiled(f: Filter, s: string) {
    !(Leaves(f) <= TextAtoms(Print(f) + s))
  }

  lemma {:induction false} ExactAtoms(ts: seq<Tok>, v: string)
    requires Head(ts) != Str(v)
    ensures !([ExactPrefix(v)] <= Atoms([Eq] + ts))
  {
    var all, r := [Eq] + ts, ParseExact(ts);
    assert all[1..] == ts;
    assert ParseAtom(all) == r;
    if r.Ok? { FirstLeaf(r.filter.leaf, Atoms(r.rest), ExactPrefix(v)); }
  }

  lemma {:induction false} FirstLeaf(l: Leaf, ls: seq<Leaf>, other: Leaf)
    requires l != other
    ensures !([other] <= [l] + ls)
  {
    assert ([l] + ls)[0] == l && [other][0] == other;
  }

  lemma {:induction false} ScanQuoted(v: string, q: string, s: string)
    requires !Verbatim(v) && q != "" && q[0] == '"' && q[1..] == Between(v, s)
    ensures Scan(q).tok != Str(v)
  {
    if Scan(q).tok == Str(v) {
      OnlyVerbatimReads(v, s);
    }
  }

  lemma {:induction false} LexQuoted(v: string, s: string)
    requires !Verbatim(v)
    ensures Head(Lex("\"" + v + "\"" + s)) != Str(v)
  {
    var q := "\"" + v + "\"" + s;
    QuotedTail(v, s);
    ScanQuoted(v, q, s);
    LexStep(q, Scan(q).tok, Scan(q).rest);
  }

  lemma {:induction false} ExactPrefixSplit(v: string, s: string)
    ensures "=\"" + v + "\"*" + s == "=" + ("\"" + v + "\"" + ("*" + s))
  {
  }

  lemma {:induction false} LeafSpoils(v: string, s: string)
    requires !Verbatim(v)
    ensures Spoiled(Atom(ExactPrefix(v)), s)
  {
    LexQuoted(v, "*" + s);
    ExactPrefixSplit(v, s);
    EqualsSpoils("\"" + v + "\"" + ("*" + s), v);
  }

  lemma {:induction false} EqualsSpoils(q: string, v: string)
    requires q != "" && q[0] == '"' && Head(Lex(q)) != Str(v)
    ensures !([ExactPrefix(v)] <= TextAtoms("=" + q))
  {
    ReadsEq();
    ReadsAt("=", [Eq], NoTilde, q);
    ExactAtoms(Lex(q), v);
  }

  lemma {:induction false} Longer(a: seq<Leaf>, b: seq<Leaf>, all: seq<Leaf>)
    requires a + b <= all
    ensures a <= all
  {
    assert all[..|a|] == a;
  }

  lemma {:induction false} Later(a: seq<Leaf>, b: seq<Leaf>, rest: seq<Leaf>)
    requires a + b <= a + rest
    ensures b <= rest
  {
    assert (a + rest)[|a|..] == rest;
    assert (a + b)[|a|..] == b;
  }

  function Group(b: bool, f: Filter, s: string): string {
    Parens(b, Print(f)) + s
  }

  function AfterGroup(b: bool, s: string): string {
    if b then ")" + s else s
  }

  lemma {:induction false} GroupText(b: bool, f: Filter, s: string)
    requires Follows(s)
    ensures TextAtoms(Group(b, f, s)) == TextAtoms(Print(f) + AfterGroup(b, s))
    ensures TextAtoms(AfterGroup(b, s)) == TextAtoms(s) && Follows(AfterGroup(b, s))
  {
    if b {
      assert Group(b, f, s) == "(" + (Print(f) + (")" + s));
      AfterParen('(', Print(f) + (")" + s));
      AfterParen(')', s);
    }
  }

  lemma {:induction false} GroupReads(b: bool, f: Filter, s: string)
    requires WellFormed(f) && Follows(s)
    ensures TextAtoms(Group(b, f, s)) == Leaves(f) + TextAtoms(s)
  {
    GroupText(b, f, s);
    PrintAtoms(f, AfterGroup(b, s));
  }

  lemma {:induction false} GroupSpoils(b: bool, f: Filter, s: string)
    requires Nearly(f) && !WellFormed(f) && Follows(s)
    ensures !(Leaves(f) <= TextAtoms(Group(b, f, s)))
    decreases f, 1
  {
    GroupText(b, f, s);
    TextSpoils(f, AfterGroup(b, s));
  }

  /** Two operands with a keyword between them. */
  function Infix(bl: bool, l: Filter, kw: string, br: bool, r: Filter, s: string): string {
    Group(bl, l, Second(kw, br, r, s))
  }

  function Second(kw: string, br: bool, r: Filter, s: string): string {
    " " + (kw + (" " + Group(br, r, s)))
  }

  lemma {:induction false} FirstSpoils(bl: bool, l: Filter, kw: string, br: bool, r: Filter, s: string)
    requires kw == "AND" || kw == "OR"
    requires Nearly(l) && !WellFormed(l)
    ensures !(Leaves(l) + Leaves(r) <= TextAtoms(Infix(bl, l, kw, br, r, s)))
    decreases l, 2
  {
    AfterSpacedKeyword(kw, Group(br, r, s));
    GroupSpoils(bl, l, Second(kw, br, r, s));
    if Leaves(l) + Leaves(r) <= TextAtoms(Infix(bl, l, kw, br, r, s)) {
      Longer(Leaves(l), Leaves(r), TextAtoms(Infix(bl, l, kw, br, r, s)));
    }
  }

  lemma {:induction false} SecondSpoils(bl: bool, l: Filter, kw: string, br: bool, r: Filter, s: string)
    requires kw == "AND" || kw == "OR"
    requires WellFormed(l) && Nearly(r) && !WellFormed(r) && Follows(s)
    ensures !(Leaves(l) + Leaves(r) <= TextAtoms(Infix(bl, l, kw, br, r, s)))
    decreases r, 2
  {
    AfterSpacedKeyword(kw, Group(br, r, s));
    GroupReads(bl, l, Second(kw, br, r, s));
    GroupSpoils(br, r, s);
    if Leaves(l) + Leaves(r) <= TextAtoms(Infix(bl, l, kw, br, r, s)) {
      Later(Leaves(l), Leaves(r), TextAtoms(Group(br, r, s)));
    }
  }

  lemma {:induction false} AndText(l: Filter, r: Filter, s: string)
    ensures Print(And(l, r)) + s == Infix(l.Or?, l, "AND", r.Or?, r, s)
  {
    Spaced(Parens(l.Or?, Print(l)), "AND", Parens(r.Or?, Print(r)), s);
    assert " AND " == " " + "AND" + " ";
  }

  lemma {:induction false} OrText(l: Filter, r: Filter, s: string)
    ensures Print(Or(l, r)) + s == Infix(false, l, "OR", false, r, s)
  {
    Spaced(Print(l), "OR", Print(r), s);
    assert " OR " == " " + "OR" + " ";
  }

  lemma {:induction false} Spaced(a: string, kw: string, b: string, s: string)
    ensures a + (" " + kw + " ") + b + s == a + (" " + (kw + (" " + (b + s))))
  {
  }

  lemma {:induction false} NotText(x: Filter, s: string)
    ensures Print(Not(x)) + s == "NOT" + (" " + Group(x.Or? || x.And?, x, s))
  {
    var g := Parens(x.Or? || x.And?, Print(x));
    assert "NOT " + g + s == "NOT" + (" " + (g + s));
  }

  lemma {:induction false} TextSpoils(f: Filter, s: string)
    requires Nearly(f) && !WellFormed(f) && Follows(s)
    ensures Spoiled(f, s)
    decreases f, 0
  {
    match f
    case Atom(l) => LeafSpoils(l.text, s);
    case And(l, r) =>
      AndText(l, r, s);
      if WellFormed(l) {
        SecondSpoils(l.Or?, l, "AND", r.Or?, r, s);
      } else {
        FirstSpoils(l.Or?, l, "AND", r.Or?, r, s);
      }
    case Or(l, r) =>
      OrText(l, r, s);
      if WellFormed(l) {
        SecondSpoils(false, l, "OR", false, r, s);
      } else {
        FirstSpoils(false, l, "OR", false, r, s);
      }
    case Not(x) =>
      var b := x.Or? || x.And?;
      NotText(x, s);
      GroupSpoils(b, x, s);
      AfterKeyword("NOT", Group(b, x, s));
  }

  /** A tree that came back has its own leaves in its tokens. */
  lemma {:induction false} NotSpoiled(f: Filter, ts: seq<Tok>)
    requires ToksOk(ts) && ParseOr(ts) == Ok(Norm(f), [])
    ensures Nearly(f) && Leaves(f) == Atoms(ts)
  {
    ParseOrOk(ts);
    ParsedNorm(f);
    OrAtoms(ts);
    NormKeepsLeaves(f);
    assert [] + Atoms(ts) == Atoms(ts);
    assert Leaves(f) + Atoms([]) == Leaves(f);
  }

  /** A tree reads back from its text exactly when its names and words are
      identifiers that the parser does not take for something else, and the
      text of each exact prefix, which is printed unescaped, means itself. */
  lemma {:induction false} RoundTripExactly(f: Filter)
    ensures ParseFilter(Print(f)) == Ok(Norm(f), []) <==> WellFormed(f)
  {
    if WellFormed(f) {
      RoundTrip(f);
    } else if ParseFilter(Print(f)) == Ok(Norm(f), []) {
      assert Print(f) + "" == Print(f);
      LexToksOk(Print(f));
      NotSpoiled(f, Lex(Print(f)));
      TextSpoils(f, "");
    }
  }

  /** A quote in an exact prefix ends the string early. */
  lemma QuoteInExactPrefix()
    ensures var f := Atom(ExactPrefix("a\"b")); ParseFilter(Print(f)) != Ok(Norm(f), [])
  {
    var v := "a\"b";
    RoundTripExactly(Atom(ExactPrefix(v)));
    assert v[1..][0] == '"';
  }
}
