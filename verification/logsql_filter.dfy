/** LogsQL filter trees: printing, recursive-descent parsing, meaning, and the
    round trip between text and tree. */
module LogsQLFilter {
  import opened LogsQLText

  datatype FieldOp = FExact | FExactPrefix | FPrefix | FSubstring | FEmpty | FAny | FGT | FGTE | FLT | FLTE

  datatype Leaf =
    | WordLeaf(word: string)
    | Phrase(text: string)
    | PrefixLeaf(word: string)
    | Substring(word: string)
    | Wildcard
    | Exact(text: string)
    | ExactPrefix(text: string)
    | CaseInsensitive(text: string)
    | AnyCasePrefix(word: string)
    | Field(name: string, op: FieldOp, value: string)

  /** `NegField` is a field filter with its negate flag set. */
  datatype Filter =
    | Atom(leaf: Leaf)
    | NegField(name: string, op: FieldOp, value: string)
    | And(left: Filter, right: Filter)
    | Or(left: Filter, right: Filter)
    | Not(inner: Filter)

  // ---------------------------------------------------------------------------
  // Printing
  // ---------------------------------------------------------------------------

  function PrintLeaf(l: Leaf): string {
    match l
    case WordLeaf(v) => v
    case Phrase(v) => Quote(v)
    case PrefixLeaf(v) => v + "*"
    case Substring(v) => "*" + v + "*"
    case Wildcard => "*"
    case Exact(v) => "=" + Quote(v)
    case ExactPrefix(v) => "=\"" + v + "\"*"
    case CaseInsensitive(v) => "i(" + Quote(v) + ")"
    case AnyCasePrefix(v) => "i(" + v + "*)"
    case Field(n, op, v) => n + PrintValue(op, v)
  }

  function PrintValue(op: FieldOp, v: string): string {
    match op
    case FExact => ":=" + Quote(v)
    case FExactPrefix => ":=" + Quote(v) + "*"
    case FPrefix => ":" + v + "*"
    case FSubstring => ":*" + v + "*"
    case FEmpty => ":\"\""
    case FAny => ":*"
    case FGT => ":>" + v
    case FGTE => ":>=" + v
    case FLT => ":<" + v
    case FLTE => ":<=" + v
  }

  function Parens(b: bool, s: string): string {
    if b then "(" + s + ")" else s
  }

  function Print(f: Filter): string {
    match f
    case Atom(l) => PrintLeaf(l)
    case NegField(n, op, v) => "NOT " + PrintLeaf(Field(n, op, v))
    case And(l, r) => Parens(l.Or?, Print(l)) + " AND " + Parens(r.Or?, Print(r))
    case Or(l, r) => Print(l) + " OR " + Print(r)
    case Not(x) => "NOT " + Parens(x.Or? || x.And?, Print(x))
  }

  // ---------------------------------------------------------------------------
  // Parsing
  // ---------------------------------------------------------------------------

  /** `Outside` marks a construct the model does not follow further. */
  datatype Result = Ok(filter: Filter, rest: seq<Tok>) | Err | Outside

  function Head(ts: seq<Tok>): Tok {
    if ts == [] then EOF else ts[0]
  }

  const FUNCTION_WORDS := {"i", "contains_all", "contains_any", "len_range", "pattern"}

  const VALUE_FUNCTIONS :=
    {"range", "in", "ipv4_range", "ipv6_range", "eq_field", "le_field", "string_range", "value_type",
     "json_array_contains_any", "contains_common_case", "equals_common_case", "len_range", "pattern"}

  function Leafed(l: Leaf, rest: seq<Tok>): Result {
    Ok(Atom(l), rest)
  }

  /** `l`, once a closing parenthesis has been read. */
  function Closing(l: Leaf, ts: seq<Tok>): (r: Result)
    ensures r.Ok? ==> |r.rest| < |ts|
  {
    if Head(ts) == RParen then Leafed(l, ts[1..]) else Err
  }

  function ParseCaseless(ts: seq<Tok>): (r: Result)
    ensures r.Ok? ==> |r.rest| < |ts|
  {
    match Head(ts)
    case Str(v) => Closing(CaseInsensitive(v), ts[1..])
    case Ident(w) =>
      if Head(ts[1..]) == Star then Closing(AnyCasePrefix(w), ts[2..])
      else Closing(CaseInsensitive(w), ts[1..])
    case _ => Err
  }

  /** A field filter value after a bare colon. */
  function ParseBareValue(n: string, ts: seq<Tok>): (r: Result)
    ensures r.Ok? ==> |r.rest| < |ts|
  {
    match Head(ts)
    case Star =>
      if Head(ts[1..]).Ident? then
        if Head(ts[2..]) == Star then Leafed(Field(n, FSubstring, ts[1].name), ts[3..]) else Err
      else Leafed(Field(n, FAny, ""), ts[1..])
    case Str(v) => Leafed(if v == "" then Field(n, FEmpty, "") else Field(n, FExact, v), ts[1..])
    case Ident(v) =>
      if v in VALUE_FUNCTIONS then Outside
      else if Head(ts[1..]) == Star then Leafed(Field(n, FPrefix, v), ts[2..])
      else Leafed(Field(n, FExact, v), ts[1..])
    case _ => Err
  }

  /** A field filter value that must be an identifier. */
  function ParseOperand(n: string, op: FieldOp, ts: seq<Tok>): (r: Result)
    ensures r.Ok? ==> |r.rest| < |ts|
  {
    if Head(ts).Ident? then Leafed(Field(n, op, ts[0].name), ts[1..]) else Err
  }

  /** What follows an identifier that is not a function word. */
  function ParseNamed(n: string, ts: seq<Tok>): (r: Result)
    ensures r.Ok? ==> |r.rest| <= |ts|
  {
    match Head(ts)
    case Star => Leafed(PrefixLeaf(n), ts[1..])
    case ColonEq =>
      if Head(ts[1..]).Str? then Leafed(Field(n, FExact, ts[1].text), ts[2..]) else Err
    case ColonTilde => Outside
    case ColonGT => ParseOperand(n, FGT, ts[1..])
    case ColonGTE => ParseOperand(n, FGTE, ts[1..])
    case ColonLT => ParseOperand(n, FLT, ts[1..])
    case ColonLTE => ParseOperand(n, FLTE, ts[1..])
    case Colon => ParseBareValue(n, ts[1..])
    case _ => Leafed(WordLeaf(n), ts)
  }

  /** What follows an identifier that has been read. */
  function ParseIdent(n: string, ts: seq<Tok>): (r: Result)
    ensures r.Ok? ==> |r.rest| <= |ts|
  {
    if n == "_time" then Outside
    else if n in FUNCTION_WORDS then
      if Head(ts) != LParen then Leafed(WordLeaf(n), ts)
      else if n == "i" then ParseCaseless(ts[1..])
      else Outside
    else ParseNamed(n, ts)
  }

  /** What follows a leading star: a substring, or nothing of its own. */
  function ParseStarred(ts: seq<Tok>): (r: Result)
    ensures r.Ok? ==> |r.rest| <= |ts|
  {
    if Head(ts).Ident? then
      if Head(ts[1..]) == Star then Leafed(Substring(ts[0].name), ts[2..]) else Err
    else Leafed(Wildcard, ts)
  }

  /** What follows a leading equals sign. */
  function ParseExact(ts: seq<Tok>): (r: Result)
    ensures r.Ok? ==> |r.rest| <= |ts|
  {
    if !Head(ts).Str? then Err
    else if Head(ts[1..]) == Star then Leafed(ExactPrefix(ts[0].text), ts[2..])
    else Leafed(Exact(ts[0].text), ts[1..])
  }

  /** An atom other than a parenthesised filter. */
  function ParseAtom(ts: seq<Tok>): (r: Result)
    ensures r.Ok? ==> |r.rest| < |ts|
  {
    match Head(ts)
    case LBrace => Outside
    case Star => ParseStarred(ts[1..])
    case Str(v) => Leafed(Phrase(v), ts[1..])
    case Eq => ParseExact(ts[1..])
    case Tilde => Outside
    case Ident(n) => ParseIdent(n, ts[1..])
    case _ => Err
  }

  function ParsePrimary(ts: seq<Tok>): (r: Result)
    ensures r.Ok? ==> |r.rest| < |ts|
    decreases |ts|, 0
  {
    if Head(ts) == LParen then
      match ParseOr(ts[1..])
      case Ok(f, rest) => if Head(rest) == RParen then Ok(f, rest[1..]) else Err
      case Err => Err
      case Outside => Outside
    else ParseAtom(ts)
  }

  function ParseNot(ts: seq<Tok>): (r: Result)
    ensures r.Ok? ==> |r.rest| < |ts|
    decreases |ts|, 1
  {
    if Head(ts) == NotKw then
      match ParseNot(ts[1..])
      case Ok(f, rest) => Ok(Not(f), rest)
      case Err => Err
      case Outside => Outside
    else ParsePrimary(ts)
  }

  function ParseAnd(ts: seq<Tok>): (r: Result)
    ensures r.Ok? ==> |r.rest| < |ts|
    decreases |ts|, 3
  {
    match ParseNot(ts)
    case Ok(f, rest) => AndTail(f, rest)
    case Err => Err
    case Outside => Outside
  }

  /** The loop that extends a conjunction to the left. */
  function AndTail(left: Filter, ts: seq<Tok>): (r: Result)
    ensures r.Ok? ==> |r.rest| <= |ts|
    decreases |ts|, 2
  {
    if Head(ts) == AndKw then
      match ParseNot(ts[1..])
      case Ok(f, rest) => AndTail(And(left, f), rest)
      case Err => Err
      case Outside => Outside
    else Ok(left, ts)
  }

  function ParseOr(ts: seq<Tok>): (r: Result)
    ensures r.Ok? ==> |r.rest| < |ts|
    decreases |ts|, 5
  {
    match ParseAnd(ts)
    case Ok(f, rest) => OrTail(f, rest)
    case Err => Err
    case Outside => Outside
  }

  function OrTail(left: Filter, ts: seq<Tok>): (r: Result)
    ensures r.Ok? ==> |r.rest| <= |ts|
    decreases |ts|, 4
  {
    if Head(ts) == OrKw then
      match ParseAnd(ts[1..])
      case Ok(f, rest) => OrTail(Or(left, f), rest)
      case Err => Err
      case Outside => Outside
    else Ok(left, ts)
  }

  function ParseFilter(s: string): Result {
    match ParseOr(Lex(s))
    case Ok(f, rest) => if rest == [] then Ok(f, []) else Err
    case Err => Err
    case Outside => Outside
  }

  // ---------------------------------------------------------------------------
  // Which trees print to text that reads back
  // ---------------------------------------------------------------------------

  predicate PlainWord(v: string) {
    IdentText(v) && v != "AND" && v != "OR" && v != "NOT"
  }

  predicate ValidName(n: string) {
    PlainWord(n) && n != "_time" && n !in FUNCTION_WORDS
  }

  predicate LeafOk(l: Leaf) {
    match l
    case WordLeaf(v) => PlainWord(v) && v != "_time"
    case Phrase(_) => true
    case PrefixLeaf(v) => ValidName(v)
    case Substring(v) => PlainWord(v)
    case Wildcard => true
    case Exact(_) => true
    case ExactPrefix(v) => Verbatim(v)
    case CaseInsensitive(_) => true
    case AnyCasePrefix(v) => PlainWord(v)
    case Field(n, op, v) => ValidName(n) && ValueOk(op, v)
  }

  predicate ValueOk(op: FieldOp, v: string) {
    match op
    case FExact => true
    case FExactPrefix => false
    case FPrefix => PlainWord(v) && v !in VALUE_FUNCTIONS
    case FSubstring => PlainWord(v)
    case FEmpty => v == ""
    case FAny => v == ""
    case _ => PlainWord(v)
  }

  predicate WellFormed(f: Filter) {
    match f
    case Atom(l) => LeafOk(l)
    case NegField(n, op, v) => LeafOk(Field(n, op, v))
    case And(l, r) => WellFormed(l) && WellFormed(r)
    case Or(l, r) => WellFormed(l) && WellFormed(r)
    case Not(x) => WellFormed(x)
  }

  // ---------------------------------------------------------------------------
  // From text to tokens
  // ---------------------------------------------------------------------------

  function LeafToks(l: Leaf): seq<Tok> {
    match l
    case WordLeaf(v) => [Ident(v)]
    case Phrase(v) => [Str(v)]
    case PrefixLeaf(v) => [Ident(v), Star]
    case Substring(v) => [Star, Ident(v), Star]
    case Wildcard => [Star]
    case Exact(v) => [Eq, Str(v)]
    case ExactPrefix(v) => [Eq, Str(v), Star]
    case CaseInsensitive(v) => [Ident("i"), LParen, Str(v), RParen]
    case AnyCasePrefix(v) => [Ident("i"), LParen, Ident(v), Star, RParen]
    case Field(n, op, v) => [Ident(n)] + ValueToks(op, v)
  }

  function ValueToks(op: FieldOp, v: string): seq<Tok> {
    match op
    case FExact => [ColonEq, Str(v)]
    case FExactPrefix => [ColonEq, Str(v), Star]
    case FPrefix => [Colon, Ident(v), Star]
    case FSubstring => [Colon, Star, Ident(v), Star]
    case FEmpty => [Colon, Str("")]
    case FAny => [Colon, Star]
    case FGT => [ColonGT, Ident(v)]
    case FGTE => [ColonGTE, Ident(v)]
    case FLT => [ColonLT, Ident(v)]
    case FLTE => [ColonLTE, Ident(v)]
  }

  function TokParens(b: bool, ts: seq<Tok>): seq<Tok> {
    if b then [LParen] + ts + [RParen] else ts
  }

  function Toks(f: Filter): seq<Tok> {
    match f
    case Atom(l) => LeafToks(l)
    case NegField(n, op, v) => [NotKw] + LeafToks(Field(n, op, v))
    case And(l, r) => TokParens(l.Or?, Toks(l)) + [AndKw] + TokParens(r.Or?, Toks(r))
    case Or(l, r) => Toks(l) + [OrKw] + Toks(r)
    case Not(x) => [NotKw] + TokParens(x.Or? || x.And?, Toks(x))
  }

  lemma ReadsStar()
    ensures Reads("*", [Star], Nothing)
  {
    ReadsPunctuation('*');
  }

  lemma {:induction false} ReadsStarred(v: string)
    requires PlainWord(v)
    ensures Reads(v + "*", [Ident(v), Star], Nothing)
  {
    ReadsWord(v);
    ReadsStar();
    Then(v, [Ident(v)], NoIdent, "*", [Star], Nothing);
  }

  /** A colon operator and the value text after it. */
  lemma {:induction false} ReadsAfterColon(op: ColonOp, v: string, ts: seq<Tok>, need: Need)
    requires Reads(v, ts, need) && v != "" && Meets(NoOperator, v)
    ensures Reads(ColonText(op) + v, [ColonTok(op)] + ts, need)
  {
    ReadsColon(op);
    Then(ColonText(op), [ColonTok(op)], NoOperator, v, ts, need);
  }

  lemma {:induction false} ReadsSubstring(v: string)
    requires PlainWord(v)
    ensures Reads("*" + (v + "*"), [Star, Ident(v), Star], Nothing)
  {
    ReadsStar();
    ReadsStarred(v);
    Then("*", [Star], Nothing, v + "*", [Ident(v), Star], Nothing);
  }

  lemma {:induction false} ReadsValue(op: FieldOp, v: string)
    requires ValueOk(op, v)
    ensures Reads(PrintValue(op, v), ValueToks(op, v), SpaceOrClose)
  {
    if op.FExact? || op.FEmpty? || op.FAny? {
      ReadsFixedValue(op, v);
    } else if op.FPrefix? {
      ReadsPrefixValue(v);
    } else if op.FSubstring? {
      ReadsSubstringValue(v);
    } else {
      ReadsOrderedValue(op, v);
    }
  }

  lemma {:induction false} ReadsFixedValue(op: FieldOp, v: string)
    requires op.FExact? || op.FEmpty? || op.FAny?
    requires ValueOk(op, v)
    ensures Reads(PrintValue(op, v), ValueToks(op, v), SpaceOrClose)
  {
    match op
    case FExact => ReadsQuotedValue(OpEq, v);
    case FEmpty =>
      ReadsQuotedValue(Bare, v);
      Same(ColonText(Bare) + Quote(v), ":\"\"", [ColonTok(Bare), Str(v)], [Colon, Str("")]);
    case FAny => ReadsAnyValue();
  }

  function OrderOp(op: FieldOp): ColonOp {
    if op.FGT? then OpGT else if op.FGTE? then OpGTE else if op.FLT? then OpLT else OpLTE
  }

  lemma {:induction false} OrderedText(op: FieldOp, v: string)
    requires op.FGT? || op.FGTE? || op.FLT? || op.FLTE?
    ensures PrintValue(op, v) == ColonText(OrderOp(op)) + v
    ensures ValueToks(op, v) == [ColonTok(OrderOp(op)), Ident(v)]
  {
  }

  lemma {:induction false} ReadsOrderedValue(op: FieldOp, v: string)
    requires op.FGT? || op.FGTE? || op.FLT? || op.FLTE?
    requires ValueOk(op, v)
    ensures Reads(PrintValue(op, v), ValueToks(op, v), SpaceOrClose)
  {
    OrderedText(op, v);
    ReadsOperand(OrderOp(op), v);
    Same(ColonText(OrderOp(op)) + v, PrintValue(op, v), [ColonTok(OrderOp(op)), Ident(v)], ValueToks(op, v));
  }

  lemma {:induction false} Same(s: string, s': string, ts: seq<Tok>, ts': seq<Tok>)
    requires Reads(s, ts, SpaceOrClose) && s == s' && ts == ts'
    ensures Reads(s', ts', SpaceOrClose)
  {
  }

  lemma {:induction false} ReadsPrefixValue(v: string)
    requires PlainWord(v)
    ensures Reads(":" + v + "*", [Colon, Ident(v), Star], SpaceOrClose)
  {
    ReadsStarred(v);
    assert ":" + v + "*" == ":" + (v + "*");
    ReadsBareValue(v + "*", [Ident(v), Star]);
    assert [Colon] + [Ident(v), Star] == [Colon, Ident(v), Star];
  }

  lemma {:induction false} ReadsSubstringValue(v: string)
    requires PlainWord(v)
    ensures Reads(":*" + v + "*", [Colon, Star, Ident(v), Star], SpaceOrClose)
  {
    ReadsSubstring(v);
    assert ":*" + v + "*" == ":" + ("*" + (v + "*"));
    ReadsBareValue("*" + (v + "*"), [Star, Ident(v), Star]);
    assert [Colon] + [Star, Ident(v), Star] == [Colon, Star, Ident(v), Star];
  }

  lemma ReadsAnyValue()
    ensures Reads(":*", [Colon, Star], SpaceOrClose)
  {
    ReadsStar();
    ReadsBareValue("*", [Star]);
    assert ":" + "*" == ":*" && [Colon] + [Star] == [Colon, Star];
  }

  lemma {:induction false} ReadsBareValue(t: string, ts: seq<Tok>)
    requires Reads(t, ts, Nothing) && t != "" && Meets(NoOperator, t)
    ensures Reads(":" + t, [Colon] + ts, SpaceOrClose)
  {
    ReadsAfterColon(Bare, t, ts, Nothing);
    Settle(":" + t, [Colon] + ts, Nothing);
  }

  lemma {:induction false} ReadsQuotedValue(op: ColonOp, v: string)
    ensures Reads(ColonText(op) + Quote(v), [ColonTok(op), Str(v)], SpaceOrClose)
  {
    ReadsQuote(v);
    ReadsAfterColon(op, Quote(v), [Str(v)], Nothing);
    assert [ColonTok(op)] + [Str(v)] == [ColonTok(op), Str(v)];
    Settle(ColonText(op) + Quote(v), [ColonTok(op), Str(v)], Nothing);
  }

  lemma {:induction false} ExactPrefixText(v: string)
    ensures "=" + ("\"" + v + "\"") + "*" == "=\"" + v + "\"*"
  {
  }

  lemma {:induction false} ReadsExactPrefix(v: string)
    requires Verbatim(v)
    ensures Reads("=\"" + v + "\"*", [Eq, Str(v), Star], SpaceOrClose)
  {
    var quoted := "\"" + v + "\"";
    ReadsEq();
    ReadsVerbatim(v);
    Then("=", [Eq], NoTilde, quoted, [Str(v)], Nothing);
    ReadsBeforeStar("=" + quoted, [Eq] + [Str(v)]);
    ExactPrefixText(v);
    Same("=" + quoted + "*", "=\"" + v + "\"*", [Eq] + [Str(v)] + [Star], [Eq, Str(v), Star]);
  }

  lemma {:induction false} ReadsBeforeStar(t: string, ts: seq<Tok>)
    requires Reads(t, ts, Nothing)
    ensures Reads(t + "*", ts + [Star], SpaceOrClose)
  {
    ReadsStar();
    Then(t, ts, Nothing, "*", [Star], Nothing);
    Settle(t + "*", ts + [Star], Nothing);
  }

  lemma {:induction false} ReadsOperand(op: ColonOp, v: string)
    requires PlainWord(v)
    ensures Reads(ColonText(op) + v, [ColonTok(op), Ident(v)], SpaceOrClose)
  {
    ReadsWord(v);
    ReadsAfterColon(op, v, [Ident(v)], NoIdent);
    assert [ColonTok(op)] + [Ident(v)] == [ColonTok(op), Ident(v)];
    Settle(ColonText(op) + v, [ColonTok(op), Ident(v)], NoIdent);
  }

  lemma {:induction false} ReadsCaseless(t: string, ts: seq<Tok>)
    requires Reads(t, ts, Nothing) && t != ""
    ensures Reads("i(" + t + ")", [Ident("i"), LParen] + ts + [RParen], Nothing)
  {
    ReadsWord("i");
    ReadsPunctuation('(');
    ReadsPunctuation(')');
    assert "i" + "(" == "i(";
    Then("i", [Ident("i")], NoIdent, "(", [LParen], Nothing);
    assert [Ident("i")] + [LParen] == [Ident("i"), LParen];
    Then("i(", [Ident("i"), LParen], Nothing, t, ts, Nothing);
    Then("i(" + t, [Ident("i"), LParen] + ts, Nothing, ")", [RParen], Nothing);
  }

  lemma ReadsLeaf(l: Leaf)
    requires LeafOk(l)
    ensures Reads(PrintLeaf(l), LeafToks(l), SpaceOrClose)
    ensures PrintLeaf(l) != ""
  {
    match l
    case WordLeaf(v) =>
      ReadsWord(v);
      Settle(v, [Ident(v)], NoIdent);
    case Phrase(v) =>
      ReadsQuote(v);
      Settle(Quote(v), [Str(v)], Nothing);
    case PrefixLeaf(v) =>
      ReadsStarred(v);
      Settle(v + "*", LeafToks(l), Nothing);
    case Substring(v) =>
      ReadsSubstring(v);
      assert "*" + v + "*" == "*" + (v + "*");
      Settle(PrintLeaf(l), LeafToks(l), Nothing);
    case Wildcard =>
      ReadsStar();
      Settle("*", [Star], Nothing);
    case Exact(v) =>
      ReadsEq();
      ReadsQuote(v);
      Then("=", [Eq], NoTilde, Quote(v), [Str(v)], Nothing);
      assert [Eq] + [Str(v)] == LeafToks(l);
      Settle(PrintLeaf(l), LeafToks(l), Nothing);
    case ExactPrefix(v) => ReadsExactPrefix(v);
    case CaseInsensitive(v) =>
      ReadsQuote(v);
      ReadsCaseless(Quote(v), [Str(v)]);
      assert [Ident("i"), LParen] + [Str(v)] + [RParen] == LeafToks(l);
      Settle(PrintLeaf(l), LeafToks(l), Nothing);
    case AnyCasePrefix(v) =>
      ReadsStarred(v);
      ReadsCaseless(v + "*", [Ident(v), Star]);
      assert PrintLeaf(l) == "i(" + (v + "*") + ")";
      assert [Ident("i"), LParen] + [Ident(v), Star] + [RParen] == LeafToks(l);
      Settle(PrintLeaf(l), LeafToks(l), Nothing);
    case Field(n, op, v) =>
      ReadsWord(n);
      ReadsValue(op, v);
      Then(n, [Ident(n)], NoIdent, PrintValue(op, v), ValueToks(op, v), SpaceOrClose);
  }

  /** A keyword between spaces, or at the start, followed by text. */
  lemma {:induction false} ReadsKeyword(kw: string, t: string, ts: seq<Tok>)
    requires kw == "AND" || kw == "OR" || kw == "NOT"
    requires Reads(t, ts, SpaceOrClose) && t != ""
    ensures Reads(kw + " " + t, [Word(kw)] + ts, SpaceOrClose)
  {
    ReadsWord(kw);
    ReadsSpace();
    Then(kw, [Word(kw)], NoIdent, " ", [], Nothing);
    assert [Word(kw)] + [] == [Word(kw)];
    Then(kw + " ", [Word(kw)], Nothing, t, ts, SpaceOrClose);
  }

  lemma {:induction false} InfixText(a: string, kw: string, b: string)
    ensures a + (" " + (kw + " " + b)) == a + (" " + kw + " ") + b
  {
    assert " " + (kw + " " + b) == (" " + kw + " ") + b;
  }

  /** The keyword with a space before it as well. */
  lemma {:induction false} ReadsSpaced(kw: string, b: string, tb: seq<Tok>)
    requires kw == "AND" || kw == "OR"
    requires Reads(b, tb, SpaceOrClose) && b != ""
    ensures Reads(" " + (kw + " " + b), [Word(kw)] + tb, SpaceOrClose)
  {
    ReadsKeyword(kw, b, tb);
    ReadsSpace();
    Then(" ", [], Nothing, kw + " " + b, [Word(kw)] + tb, SpaceOrClose);
    assert [] + ([Word(kw)] + tb) == [Word(kw)] + tb;
  }

  lemma {:induction false} ReadsInfix(a: string, ta: seq<Tok>, kw: string, b: string, tb: seq<Tok>)
    requires kw == "AND" || kw == "OR"
    requires Reads(a, ta, SpaceOrClose) && Reads(b, tb, SpaceOrClose) && b != ""
    ensures Reads(a + (" " + kw + " ") + b, ta + [Word(kw)] + tb, SpaceOrClose)
  {
    var tail := " " + (kw + " " + b);
    ReadsSpaced(kw, b, tb);
    Then(a, ta, SpaceOrClose, tail, [Word(kw)] + tb, SpaceOrClose);
    InfixText(a, kw, b);
    assert ta + ([Word(kw)] + tb) == ta + [Word(kw)] + tb;
    Same(a + tail, a + (" " + kw + " ") + b, ta + ([Word(kw)] + tb), ta + [Word(kw)] + tb);
  }

  lemma {:induction false} ReadsParens(b: bool, t: string, ts: seq<Tok>)
    requires Reads(t, ts, SpaceOrClose) && t != ""
    ensures Reads(Parens(b, t), TokParens(b, ts), SpaceOrClose)
    ensures Parens(b, t) != ""
  {
    if b {
      ReadsPunctuation('(');
      ReadsPunctuation(')');
      Then("(", [LParen], Nothing, t, ts, SpaceOrClose);
      Then("(" + t, [LParen] + ts, SpaceOrClose, ")", [RParen], Nothing);
      Settle("(" + t + ")", [LParen] + ts + [RParen], Nothing);
    }
  }

  /** The text of a printed tree, scanned character by character, is its tokens. */
  lemma {:induction false} ReadsPrint(f: Filter)
    requires WellFormed(f)
    ensures Reads(Print(f), Toks(f), SpaceOrClose)
    ensures Print(f) != ""
  {
    match f
    case Atom(l) => ReadsLeaf(l);
    case NegField(n, op, v) =>
      ReadsLeaf(Field(n, op, v));
      ReadsKeyword("NOT", PrintLeaf(Field(n, op, v)), LeafToks(Field(n, op, v)));
      assert "NOT " == "NOT" + " ";
    case And(l, r) =>
      ReadsPrint(l);
      ReadsPrint(r);
      ReadsParens(l.Or?, Print(l), Toks(l));
      ReadsParens(r.Or?, Print(r), Toks(r));
      ReadsInfix(Parens(l.Or?, Print(l)), TokParens(l.Or?, Toks(l)), "AND",
                 Parens(r.Or?, Print(r)), TokParens(r.Or?, Toks(r)));
      assert " AND " == " " + "AND" + " ";
    case Or(l, r) =>
      ReadsPrint(l);
      ReadsPrint(r);
      ReadsInfix(Print(l), Toks(l), "OR", Print(r), Toks(r));
      assert " OR " == " " + "OR" + " ";
    case Not(x) =>
      var b := x.Or? || x.And?;
      ReadsPrint(x);
      ReadsParens(b, Print(x), Toks(x));
      ReadsKeyword("NOT", Parens(b, Print(x)), TokParens(b, Toks(x)));
      assert "NOT " == "NOT" + " ";
  }

  lemma {:induction false} LexPrint(f: Filter)
    requires WellFormed(f)
    ensures Lex(Print(f)) == Toks(f)
  {
    ReadsPrint(f);
    assert Meets(SpaceOrClose, "");
    assert Print(f) + "" == Print(f);
    assert Lex("") == [];
    assert Toks(f) + [] == Toks(f);
  }
}
