/** Printing a LogsQL filter tree and parsing the text again. */
module LogsQLRoundTrip {
  import opened LogsQLText
  import opened LogsQLFilter

  // ---------------------------------------------------------------------------
  // The tree that comes back
  // ---------------------------------------------------------------------------

  /** The tree with chains of one operator reassociated to the left and a
      negated field filter turned into a negation. */
  function Norm(f: Filter): Filter
    decreases f, 1
  {
    match f
    case Atom(_) => f
    case NegField(n, op, v) => Not(Atom(Field(n, op, v)))
    case And(l, r) => AppendAnd(Norm(l), r)
    case Or(l, r) => AppendOr(Norm(l), r)
    case Not(x) => Not(Norm(x))
  }

  /** `left` extended by every conjunct of `f`, from left to right. */
  function AppendAnd(left: Filter, f: Filter): Filter
    decreases f, 2
  {
    if f.And? then AppendAnd(AppendAnd(left, f.left), f.right) else And(left, Norm(f))
  }

  function AppendOr(left: Filter, f: Filter): Filter
    decreases f, 2
  {
    if f.Or? then AppendOr(AppendOr(left, f.left), f.right) else Or(left, Norm(f))
  }

  // ---------------------------------------------------------------------------
  // Meaning
  // ---------------------------------------------------------------------------

  /** Whether a log record passes; `holds` says which leaves it matches. */
  function Eval(f: Filter, holds: Leaf -> bool): bool {
    match f
    case Atom(l) => holds(l)
    case NegField(n, op, v) => !holds(Field(n, op, v))
    case And(l, r) => Eval(l, holds) && Eval(r, holds)
    case Or(l, r) => Eval(l, holds) || Eval(r, holds)
    case Not(x) => !Eval(x, holds)
  }

  lemma {:induction false} NormKeepsMeaning(f: Filter, holds: Leaf -> bool)
    ensures Eval(Norm(f), holds) == Eval(f, holds)
    decreases f, 1
  {
    match f
    case Atom(_) =>
    case NegField(_, _, _) =>
    case And(l, r) => NormKeepsMeaning(l, holds); AppendAndMeans(Norm(l), r, holds);
    case Or(l, r) => NormKeepsMeaning(l, holds); AppendOrMeans(Norm(l), r, holds);
    case Not(x) => NormKeepsMeaning(x, holds);
  }

  lemma {:induction false} AppendAndMeans(left: Filter, f: Filter, holds: Leaf -> bool)
    ensures Eval(AppendAnd(left, f), holds) == (Eval(left, holds) && Eval(f, holds))
    decreases f, 2
  {
    if f.And? {
      AppendAndMeans(left, f.left, holds);
      AppendAndMeans(AppendAnd(left, f.left), f.right, holds);
    } else {
      NormKeepsMeaning(f, holds);
    }
  }

  lemma {:induction false} AppendOrMeans(left: Filter, f: Filter, holds: Leaf -> bool)
    ensures Eval(AppendOr(left, f), holds) == (Eval(left, holds) || Eval(f, holds))
    decreases f, 2
  {
    if f.Or? {
      AppendOrMeans(left, f.left, holds);
      AppendOrMeans(AppendOr(left, f.left), f.right, holds);
    } else {
      NormKeepsMeaning(f, holds);
    }
  }

  // ---------------------------------------------------------------------------
  // The printed form is a fixed point
  // ---------------------------------------------------------------------------

  lemma {:induction false} NormKeepsShape(f: Filter)
    ensures (Norm(f).And? <==> f.And?) && (Norm(f).Or? <==> f.Or?)
  {
    match f
    case And(l, r) => AppendAndShape(Norm(l), r);
    case Or(l, r) => AppendOrShape(Norm(l), r);
    case _ =>
  }

  lemma {:induction false} AppendAndShape(left: Filter, f: Filter)
    ensures AppendAnd(left, f).And?
    decreases f
  {
    if f.And? { AppendAndShape(AppendAnd(left, f.left), f.right); }
  }

  lemma {:induction false} AppendOrShape(left: Filter, f: Filter)
    ensures AppendOr(left, f).Or?
    decreases f
  {
    if f.Or? { AppendOrShape(AppendOr(left, f.left), f.right); }
  }

  lemma {:induction false} NormKeepsText(f: Filter)
    ensures Print(Norm(f)) == Print(f)
    decreases f, 1
  {
    match f
    case Atom(_) =>
    case NegField(_, _, _) =>
    case And(l, r) =>
      NormKeepsText(l);
      NormKeepsShape(l);
      AppendAndText(Norm(l), r);
    case Or(l, r) =>
      NormKeepsText(l);
      AppendOrText(Norm(l), r);
    case Not(x) =>
      NormKeepsText(x);
      NormKeepsShape(x);
  }

  lemma {:induction false} AppendAndText(left: Filter, f: Filter)
    ensures Print(AppendAnd(left, f)) == Parens(left.Or?, Print(left)) + " AND " + Parens(f.Or?, Print(f))
    decreases f, 2
  {
    if f.And? {
      AppendAndText(left, f.left);
      AppendAndShape(left, f.left);
      AppendAndText(AppendAnd(left, f.left), f.right);
      var a, b := Parens(left.Or?, Print(left)), Parens(f.left.Or?, Print(f.left));
      var c := Parens(f.right.Or?, Print(f.right));
      assert a + " AND " + b + " AND " + c == a + " AND " + (b + " AND " + c);
    } else {
      NormKeepsText(f);
      NormKeepsShape(f);
    }
  }

  lemma {:induction false} AppendOrText(left: Filter, f: Filter)
    ensures Print(AppendOr(left, f)) == Print(left) + " OR " + Print(f)
    decreases f, 2
  {
    if f.Or? {
      AppendOrText(left, f.left);
      AppendOrText(AppendOr(left, f.left), f.right);
      var a, b, c := Print(left), Print(f.left), Print(f.right);
      assert a + " OR " + b + " OR " + c == a + " OR " + (b + " OR " + c);
    } else {
      NormKeepsText(f);
    }
  }

  // ---------------------------------------------------------------------------
  // Parsing the tokens of a tree
  // ---------------------------------------------------------------------------

  /** Tokens that can follow a printed filter. */
  predicate Stops(rest: seq<Tok>) {
    Head(rest) == EOF || Head(rest) == AndKw || Head(rest) == OrKw || Head(rest) == RParen
  }

  lemma {:induction false} ParseColon(n: string, ts: seq<Tok>)
    ensures ParseNamed(n, [Colon] + ts) == ParseBareValue(n, ts)
  {
    assert ([Colon] + ts)[1..] == ts;
  }

  lemma {:induction false} ParsePrefixValue(n: string, v: string, rest: seq<Tok>)
    requires v !in VALUE_FUNCTIONS
    ensures ParseNamed(n, ValueToks(FPrefix, v) + rest) == Ok(Atom(Field(n, FPrefix, v)), rest)
  {
    var ts := [Ident(v), Star] + rest;
    assert Head(ts[1..]) == Star && ts[2..] == rest;
    ParseColon(n, ts);
    assert ValueToks(FPrefix, v) + rest == [Colon] + ts;
  }

  lemma {:induction false} ParseSubstringValue(n: string, v: string, rest: seq<Tok>)
    ensures ParseNamed(n, ValueToks(FSubstring, v) + rest) == Ok(Atom(Field(n, FSubstring, v)), rest)
  {
    var ts := [Star, Ident(v), Star] + rest;
    assert Head(ts[1..]) == Ident(v) && Head(ts[2..]) == Star && ts[3..] == rest;
    ParseColon(n, ts);
    assert ValueToks(FSubstring, v) + rest == [Colon] + ts;
  }

  lemma {:induction false} ParseAnyValue(n: string, rest: seq<Tok>)
    requires Stops(rest)
    ensures ParseNamed(n, ValueToks(FAny, "") + rest) == Ok(Atom(Field(n, FAny, "")), rest)
  {
    var ts := [Star] + rest;
    assert ts[1..] == rest;
    ParseColon(n, ts);
    assert ValueToks(FAny, "") + rest == [Colon] + ts;
  }

  lemma {:induction false} ParseEmptyValue(n: string, rest: seq<Tok>)
    ensures ParseNamed(n, ValueToks(FEmpty, "") + rest) == Ok(Atom(Field(n, FEmpty, "")), rest)
  {
    var ts := [Str("")] + rest;
    assert ts[1..] == rest;
    ParseColon(n, ts);
    assert ValueToks(FEmpty, "") + rest == [Colon] + ts;
  }

  lemma {:induction false} ParseExactValue(n: string, v: string, rest: seq<Tok>)
    ensures ParseNamed(n, [ColonEq, Str(v)] + rest) == Ok(Atom(Field(n, FExact, v)), rest)
  {
    var ts := [ColonEq, Str(v)] + rest;
    assert Head(ts[1..]) == Str(v) && ts[2..] == rest;
  }

  lemma {:induction false} ParseOrderedValue(n: string, op: FieldOp, v: string, rest: seq<Tok>)
    requires op.FGT? || op.FGTE? || op.FLT? || op.FLTE?
    ensures ParseNamed(n, ValueToks(op, v) + rest) == Ok(Atom(Field(n, op, v)), rest)
  {
    var ts := ValueToks(op, v) + rest;
    assert ts[1..] == [Ident(v)] + rest;
    assert ts[1..][1..] == rest;
  }

  lemma {:induction false} ParseValue(n: string, op: FieldOp, v: string, rest: seq<Tok>)
    requires ValueOk(op, v) && Stops(rest)
    ensures ParseNamed(n, ValueToks(op, v) + rest) == Ok(Atom(Field(n, op, v)), rest)
  {
    match op
    case FExact => ParseExactValue(n, v, rest);
    case FPrefix => ParsePrefixValue(n, v, rest);
    case FSubstring => ParseSubstringValue(n, v, rest);
    case FEmpty => ParseEmptyValue(n, rest);
    case FAny => ParseAnyValue(n, rest);
    case _ => ParseOrderedValue(n, op, v, rest);
  }

  lemma {:induction false} ParseNamedLeaf(n: string, ts: seq<Tok>)
    requires ValidName(n)
    ensures ParseAtom([Ident(n)] + ts) == ParseNamed(n, ts)
  {
    assert ([Ident(n)] + ts)[1..] == ts;
  }

  lemma {:induction false} ParseWordLeaf(v: string, rest: seq<Tok>)
    requires PlainWord(v) && v != "_time" && Stops(rest)
    ensures ParseAtom([Ident(v)] + rest) == Ok(Atom(WordLeaf(v)), rest)
  {
    assert ([Ident(v)] + rest)[1..] == rest;
  }

  lemma {:induction false} ParseSubstringLeaf(v: string, rest: seq<Tok>)
    ensures ParseAtom([Star, Ident(v), Star] + rest) == Ok(Atom(Substring(v)), rest)
  {
    var ts := [Ident(v), Star] + rest;
    assert ([Star, Ident(v), Star] + rest)[1..] == ts;
    assert Head(ts[1..]) == Star && ts[2..] == rest;
  }

  lemma {:induction false} ParseExactLeaf(v: string, rest: seq<Tok>)
    requires Stops(rest)
    ensures ParseAtom([Eq, Str(v)] + rest) == Ok(Atom(Exact(v)), rest)
  {
    assert ([Eq, Str(v)] + rest)[1..] == [Str(v)] + rest;
    assert ([Str(v)] + rest)[1..] == rest;
  }

  lemma {:induction false} ParseExactPrefixLeaf(v: string, rest: seq<Tok>)
    ensures ParseAtom([Eq, Str(v), Star] + rest) == Ok(Atom(ExactPrefix(v)), rest)
  {
    var ts := [Str(v), Star] + rest;
    assert ([Eq, Str(v), Star] + rest)[1..] == ts;
    assert Head(ts[1..]) == Star && ts[2..] == rest;
  }

  lemma {:induction false} ParseClosing(l: Leaf, rest: seq<Tok>)
    ensures Closing(l, [RParen] + rest) == Ok(Atom(l), rest)
  {
    assert ([RParen] + rest)[1..] == rest;
  }

  lemma {:induction false} ParseCaselessLeaf(inner: seq<Tok>)
    ensures ParseAtom([Ident("i"), LParen] + inner) == ParseCaseless(inner)
  {
    var ts := [Ident("i"), LParen] + inner;
    assert ts[1..] == [LParen] + inner;
    assert ts[1..][1..] == inner;
  }

  lemma {:induction false} ParseCaselessPhrase(v: string, rest: seq<Tok>)
    ensures ParseAtom([Ident("i"), LParen, Str(v), RParen] + rest) == Ok(Atom(CaseInsensitive(v)), rest)
  {
    var inner := [Str(v)] + ([RParen] + rest);
    assert [Ident("i"), LParen, Str(v), RParen] + rest == [Ident("i"), LParen] + inner;
    ParseCaselessLeaf(inner);
    assert inner[1..] == [RParen] + rest;
    ParseClosing(CaseInsensitive(v), rest);
  }

  lemma {:induction false} ParseCaselessPrefix(v: string, rest: seq<Tok>)
    ensures ParseAtom([Ident("i"), LParen, Ident(v), Star, RParen] + rest) == Ok(Atom(AnyCasePrefix(v)), rest)
  {
    var inner := [Ident(v), Star] + ([RParen] + rest);
    assert [Ident("i"), LParen, Ident(v), Star, RParen] + rest == [Ident("i"), LParen] + inner;
    ParseCaselessLeaf(inner);
    assert Head(inner[1..]) == Star && inner[2..] == [RParen] + rest;
    ParseClosing(AnyCasePrefix(v), rest);
  }

  lemma {:induction false} ParseLeaf(l: Leaf, rest: seq<Tok>)
    requires LeafOk(l) && Stops(rest)
    ensures ParseAtom(LeafToks(l) + rest) == Ok(Atom(l), rest)
    ensures Head(LeafToks(l) + rest) != NotKw && Head(LeafToks(l) + rest) != LParen
  {
    match l
    case WordLeaf(v) => ParseWordLeaf(v, rest);
    case Phrase(v) => assert ([Str(v)] + rest)[1..] == rest;
    case PrefixLeaf(v) =>
      assert [Ident(v), Star] + rest == [Ident(v)] + ([Star] + rest);
      ParseNamedLeaf(v, [Star] + rest);
      assert ([Star] + rest)[1..] == rest;
    case Substring(v) => ParseSubstringLeaf(v, rest);
    case Wildcard => assert ([Star] + rest)[1..] == rest;
    case Exact(v) => ParseExactLeaf(v, rest);
    case ExactPrefix(v) => ParseExactPrefixLeaf(v, rest);
    case CaseInsensitive(v) => ParseCaselessPhrase(v, rest);
    case AnyCasePrefix(v) => ParseCaselessPrefix(v, rest);
    case Field(n, op, v) =>
      assert [Ident(n)] + ValueToks(op, v) + rest == [Ident(n)] + (ValueToks(op, v) + rest);
      ParseNamedLeaf(n, ValueToks(op, v) + rest);
      ParseValue(n, op, v, rest);
  }

  // ---------------------------------------------------------------------------
  // Parsing the tokens of a whole tree
  // ---------------------------------------------------------------------------

  lemma {:induction false} ParseNotOf(ts: seq<Tok>, f: Filter, rest: seq<Tok>)
    requires ParseNot(ts) == Ok(f, rest)
    ensures ParseNot([NotKw] + ts) == Ok(Not(f), rest)
  {
    assert ([NotKw] + ts)[1..] == ts;
  }

  lemma {:induction false} ParseParens(ts: seq<Tok>, f: Filter, rest: seq<Tok>)
    requires ParseOr(ts + ([RParen] + rest)) == Ok(f, [RParen] + rest)
    ensures ParseNot([LParen] + ts + [RParen] + rest) == Ok(f, rest)
  {
    var all := [LParen] + ts + [RParen] + rest;
    assert all[1..] == ts + ([RParen] + rest);
    assert ([RParen] + rest)[1..] == rest;
  }

  /** A filter in parentheses is read as one unit. */
  lemma {:induction false} ParseGrouped(f: Filter, rest: seq<Tok>)
    requires WellFormed(f)
    ensures ParseNot([LParen] + Toks(f) + [RParen] + rest) == Ok(Norm(f), rest)
    decreases f, 4
  {
    OrFirst(f, [RParen] + rest);
    ParseParens(Toks(f), Norm(f), rest);
  }

  /** A leaf or a negation is read by one `parseNotExpr`. */
  lemma {:induction false} ParseUnary(f: Filter, rest: seq<Tok>)
    requires WellFormed(f) && !f.And? && !f.Or? && Stops(rest)
    ensures ParseNot(Toks(f) + rest) == Ok(Norm(f), rest)
    decreases f, 0
  {
    match f
    case Atom(l) => ParseLeaf(l, rest);
    case NegField(n, op, v) =>
      var l := Field(n, op, v);
      ParseLeaf(l, rest);
      ParseNotOf(LeafToks(l) + rest, Atom(l), rest);
      assert [NotKw] + LeafToks(l) + rest == [NotKw] + (LeafToks(l) + rest);
    case Not(x) =>
      var b := x.Or? || x.And?;
      var inner := TokParens(b, Toks(x));
      if b { ParseGrouped(x, rest); } else { ParseUnary(x, rest); }
      ParseNotOf(inner + rest, Norm(x), rest);
      assert [NotKw] + inner + rest == [NotKw] + (inner + rest);
  }

  /** An operand of a conjunction that is not itself a conjunction is one unit. */
  lemma {:induction false} ParseUnit(f: Filter, rest: seq<Tok>)
    requires WellFormed(f) && !f.And? && Stops(rest)
    ensures ParseNot(TokParens(f.Or?, Toks(f)) + rest) == Ok(Norm(f), rest)
    decreases f, 1
  {
    if f.Or? {
      ParseOrParts(f, [RParen] + rest);
      ParseParens(Toks(f), Norm(f), rest);
    } else {
      ParseUnary(f, rest);
    }
  }

  lemma {:induction false} AndUnit(ts: seq<Tok>, left: Filter, f: Filter, rest: seq<Tok>)
    requires ParseNot(ts) == Ok(f, rest)
    ensures ParseAnd(ts) == AndTail(f, rest)
    ensures AndTail(left, [AndKw] + ts) == AndTail(And(left, f), rest)
  {
    assert ([AndKw] + ts)[1..] == ts;
  }

  /** The operands of a conjunction, as they lie in the token stream. */
  function Sides(l: Filter, r: Filter, rest: seq<Tok>): seq<Tok> {
    TokParens(l.Or?, Toks(l)) + ([AndKw] + (TokParens(r.Or?, Toks(r)) + rest))
  }

  lemma {:induction false} AndSides(f: Filter, rest: seq<Tok>)
    requires f.And?
    ensures TokParens(f.Or?, Toks(f)) + rest == Sides(f.left, f.right, rest)
  {
  }

  /** An operand of a conjunction, at its start. */
  lemma {:induction false} AndFirst(f: Filter, rest: seq<Tok>)
    requires WellFormed(f) && Stops(rest)
    ensures ParseAnd(TokParens(f.Or?, Toks(f)) + rest) == AndTail(Norm(f), rest)
    decreases f, 2
  {
    if f.And? {
      AndSides(f, rest);
      AndFirst(f.left, [AndKw] + (TokParens(f.right.Or?, Toks(f.right)) + rest));
      AndMore(Norm(f.left), f.right, rest);
    } else {
      ParseUnit(f, rest);
      AndUnit(TokParens(f.Or?, Toks(f)) + rest, f, Norm(f), rest);
    }
  }

  /** An operand after `AND`: its conjuncts join the chain one by one. */
  lemma {:induction false} AndMore(left: Filter, f: Filter, rest: seq<Tok>)
    requires WellFormed(f) && Stops(rest)
    ensures AndTail(left, [AndKw] + (TokParens(f.Or?, Toks(f)) + rest)) == AndTail(AppendAnd(left, f), rest)
    decreases f, 2
  {
    if f.And? {
      AndSides(f, rest);
      AndMore(left, f.left, [AndKw] + (TokParens(f.right.Or?, Toks(f.right)) + rest));
      AndMore(AppendAnd(left, f.left), f.right, rest);
    } else {
      ParseUnit(f, rest);
      AndUnit(TokParens(f.Or?, Toks(f)) + rest, left, Norm(f), rest);
    }
  }

  predicate StopsOr(rest: seq<Tok>) {
    Head(rest) == EOF || Head(rest) == OrKw || Head(rest) == RParen
  }

  lemma {:induction false} ParseOrParts(f: Filter, rest: seq<Tok>)
    requires WellFormed(f) && f.Or? && (rest == [] || rest[0] == RParen)
    ensures ParseOr(Toks(f) + rest) == Ok(Norm(f), rest)
    decreases f, 0
  {
    OrSides(f, rest);
    OrFirst(f.left, [OrKw] + (Toks(f.right) + rest));
    OrMore(Norm(f.left), f.right, rest);
  }

  lemma {:induction false} OrSides(f: Filter, rest: seq<Tok>)
    requires f.Or?
    ensures Toks(f) + rest == Toks(f.left) + ([OrKw] + (Toks(f.right) + rest))
  {
  }

  lemma {:induction false} OrUnit(ts: seq<Tok>, left: Filter, f: Filter, rest: seq<Tok>)
    requires ParseAnd(ts) == AndTail(f, rest) && Head(rest) != AndKw
    ensures ParseOr(ts) == OrTail(f, rest)
    ensures OrTail(left, [OrKw] + ts) == OrTail(Or(left, f), rest)
  {
    assert ([OrKw] + ts)[1..] == ts;
  }

  lemma {:induction false} OrFirst(f: Filter, rest: seq<Tok>)
    requires WellFormed(f) && StopsOr(rest)
    ensures ParseOr(Toks(f) + rest) == OrTail(Norm(f), rest)
    decreases f, 3
  {
    if f.Or? {
      OrSides(f, rest);
      OrFirst(f.left, [OrKw] + (Toks(f.right) + rest));
      OrMore(Norm(f.left), f.right, rest);
    } else {
      AndFirst(f, rest);
      OrUnit(Toks(f) + rest, f, Norm(f), rest);
    }
  }

  lemma {:induction false} OrMore(left: Filter, f: Filter, rest: seq<Tok>)
    requires WellFormed(f) && StopsOr(rest)
    ensures OrTail(left, [OrKw] + (Toks(f) + rest)) == OrTail(AppendOr(left, f), rest)
    decreases f, 3
  {
    if f.Or? {
      OrSides(f, rest);
      OrMore(left, f.left, [OrKw] + (Toks(f.right) + rest));
      OrMore(AppendOr(left, f.left), f.right, rest);
    } else {
      AndFirst(f, rest);
      OrUnit(Toks(f) + rest, left, Norm(f), rest);
    }
  }

  // ---------------------------------------------------------------------------
  // The round trip
  // ---------------------------------------------------------------------------

  /** Parsing the printed text of a tree gives the tree back, with chains
      reassociated to the left; the result means the same on every record, and
      printing it gives the same text. */
  lemma {:induction false} RoundTrip(f: Filter)
    requires WellFormed(f)
    ensures ParseFilter(Print(f)) == Ok(Norm(f), [])
    ensures forall holds :: Eval(Norm(f), holds) == Eval(f, holds)
    ensures Print(Norm(f)) == Print(f)
  {
    LexPrint(f);
    OrFirst(f, []);
    assert Toks(f) + [] == Toks(f);
    forall holds ensures Eval(Norm(f), holds) == Eval(f, holds) {
      NormKeepsMeaning(f, holds);
    }
    NormKeepsText(f);
  }
}
