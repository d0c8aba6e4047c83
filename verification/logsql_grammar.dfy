/** The concrete syntax of LogsQL filters, written down without the parser: which
    token sequences spell a filter, and which tree each of them stands for. */
module LogsQLGrammar {
  import opened LogsQLText
  import opened LogsQLFilter

  // ---------------------------------------------------------------------------
  // Concrete syntax
  // ---------------------------------------------------------------------------

  /** What follows the name of a field. */
  datatype Value =
    | EqualsQuoted(v: string)                // n:="v"
    | Compared(op: FieldOp, v: string)       // n:>v, n:>=v, n:<v, n:<=v
    | Inside(v: string)                      // n:*v*
    | Anything                               // n:*
    | Quoted(v: string)                      // n:"v"
    | Plain(v: string)                        // n:v
    | Starting(v: string)                    // n:v*

  datatype Simple =
    | OneWord(v: string)                        // v
    | OneQuote(v: string)                       // "v"
    | WordStarting(v: string)                // v*
    | WordInside(v: string)                  // *v*
    | All                                    // *
    | Equal(v: string)                       // ="v"
    | EqualStarting(v: string)               // ="v"*
    | CaselessQuoted(v: string)              // i("v")
    | CaselessBare(v: string)                // i(v)
    | CaselessStarting(v: string)            // i(v*)
    | FieldIs(name: string, value: Value)

  datatype Unary = One(s: Simple) | Group(inner: Disj) | Negated(operand: Unary)

  datatype Conj = Conj(first: Unary, more: AndMore)
  datatype AndMore = NoAnd | AndThen(operand: Unary, more: AndMore)

  datatype Disj = Disj(first: Conj, more: OrMore)
  datatype OrMore = NoOr | OrThen(operand: Conj, more: OrMore)

  // ---------------------------------------------------------------------------
  // Its tokens
  // ---------------------------------------------------------------------------

  function Sign(op: FieldOp): Tok {
    match op
    case FGT => ColonGT
    case FGTE => ColonGTE
    case FLT => ColonLT
    case _ => ColonLTE
  }

  function ValueToks(v: Value): seq<Tok> {
    match v
    case EqualsQuoted(t) => [ColonEq, Str(t)]
    case Compared(op, t) => [Sign(op), Ident(t)]
    case Inside(t) => [Colon, Star, Ident(t), Star]
    case Anything => [Colon, Star]
    case Quoted(t) => [Colon, Str(t)]
    case Plain(t) => [Colon, Ident(t)]
    case Starting(t) => [Colon, Ident(t), Star]
  }

  function SimpleToks(s: Simple): seq<Tok> {
    match s
    case OneWord(v) => [Ident(v)]
    case OneQuote(v) => [Str(v)]
    case WordStarting(v) => [Ident(v), Star]
    case WordInside(v) => [Star, Ident(v), Star]
    case All => [Star]
    case Equal(v) => [Eq, Str(v)]
    case EqualStarting(v) => [Eq, Str(v), Star]
    case CaselessQuoted(v) => [Ident("i"), LParen, Str(v), RParen]
    case CaselessBare(v) => [Ident("i"), LParen, Ident(v), RParen]
    case CaselessStarting(v) => [Ident("i"), LParen, Ident(v), Star, RParen]
    case FieldIs(n, v) => [Ident(n)] + ValueToks(v)
  }

  function UnaryToks(u: Unary): seq<Tok> {
    match u
    case One(s) => SimpleToks(s)
    case Group(s) => [LParen] + OrToks(s) + [RParen]
    case Negated(x) => [NotKw] + UnaryToks(x)
  }

  function AndToks(s: Conj): seq<Tok> {
    UnaryToks(s.first) + AndMoreToks(s.more)
  }

  function AndMoreToks(m: AndMore): seq<Tok> {
    match m
    case NoAnd => []
    case AndThen(u, rest) => [AndKw] + UnaryToks(u) + AndMoreToks(rest)
  }

  function OrToks(s: Disj): seq<Tok> {
    AndToks(s.first) + OrMoreToks(s.more)
  }

  function OrMoreToks(m: OrMore): seq<Tok> {
    match m
    case NoOr => []
    case OrThen(a, rest) => [OrKw] + AndToks(a) + OrMoreToks(rest)
  }

  // ---------------------------------------------------------------------------
  // Its meaning
  // ---------------------------------------------------------------------------

  /** A quoted empty value asks for an empty field; a bare and a quoted value both
      ask for the exact value. */
  function FieldLeaf(n: string, v: Value): Leaf {
    match v
    case EqualsQuoted(t) => Field(n, FExact, t)
    case Compared(op, t) => Field(n, op, t)
    case Inside(t) => Field(n, FSubstring, t)
    case Anything => Field(n, FAny, "")
    case Quoted(t) => if t == "" then Field(n, FEmpty, "") else Field(n, FExact, t)
    case Plain(t) => Field(n, FExact, t)
    case Starting(t) => Field(n, FPrefix, t)
  }

  function SimpleLeaf(s: Simple): Leaf {
    match s
    case OneWord(v) => WordLeaf(v)
    case OneQuote(v) => Phrase(v)
    case WordStarting(v) => PrefixLeaf(v)
    case WordInside(v) => Substring(v)
    case All => Wildcard
    case Equal(v) => Exact(v)
    case EqualStarting(v) => ExactPrefix(v)
    case CaselessQuoted(v) => CaseInsensitive(v)
    case CaselessBare(v) => CaseInsensitive(v)
    case CaselessStarting(v) => AnyCasePrefix(v)
    case FieldIs(n, v) => FieldLeaf(n, v)
  }

  function UnaryTree(u: Unary): Filter {
    match u
    case One(s) => Atom(SimpleLeaf(s))
    case Group(s) => OrTree(s)
    case Negated(x) => Filter.Not(UnaryTree(x))
  }

  function AndTree(s: Conj): Filter {
    AndFold(UnaryTree(s.first), s.more)
  }

  /** Conjunctions group to the left. */
  function AndFold(left: Filter, m: AndMore): Filter
    decreases m
  {
    match m
    case NoAnd => left
    case AndThen(u, rest) => AndFold(Filter.And(left, UnaryTree(u)), rest)
  }

  function OrTree(s: Disj): Filter {
    OrFold(AndTree(s.first), s.more)
  }

  function OrFold(left: Filter, m: OrMore): Filter
    decreases m
  {
    match m
    case NoOr => left
    case OrThen(a, rest) => OrFold(Filter.Or(left, AndTree(a)), rest)
  }

  // ---------------------------------------------------------------------------
  // Which of it is proper
  // ---------------------------------------------------------------------------

  /** A name that no filter of another kind begins with. */
  predicate NameProper(n: string) {
    n != "_time" && n !in FUNCTION_WORDS
  }

  predicate ValueProper(v: Value) {
    match v
    case Compared(op, _) => op == FGT || op == FGTE || op == FLT || op == FLTE
    case Plain(t) => t !in VALUE_FUNCTIONS
    case Starting(t) => t !in VALUE_FUNCTIONS
    case _ => true
  }

  predicate SimpleProper(s: Simple) {
    match s
    case OneWord(v) => v != "_time"
    case WordStarting(v) => NameProper(v)
    case FieldIs(n, v) => NameProper(n) && ValueProper(v)
    case _ => true
  }

  predicate UnaryProper(u: Unary) {
    match u
    case One(s) => SimpleProper(s)
    case Group(s) => OrProper(s)
    case Negated(x) => UnaryProper(x)
  }

  predicate AndProper(s: Conj) {
    UnaryProper(s.first) && AndMoreProper(s.more)
  }

  predicate AndMoreProper(m: AndMore) {
    m.AndThen? ==> UnaryProper(m.operand) && AndMoreProper(m.more)
  }

  predicate OrProper(s: Disj) {
    AndProper(s.first) && OrMoreProper(s.more)
  }

  predicate OrMoreProper(m: OrMore) {
    m.OrThen? ==> AndProper(m.operand) && OrMoreProper(m.more)
  }

  /** The tokens spell the filter. */
  ghost predicate Derives(f: Filter, ts: seq<Tok>) {
    exists s: Disj :: OrProper(s) && OrToks(s) == ts && OrTree(s) == f
  }

  // ---------------------------------------------------------------------------
  // What is spelled is read
  // ---------------------------------------------------------------------------

  lemma {:induction false} Assoc(a: seq<Tok>, b: seq<Tok>, c: seq<Tok>)
    ensures a + b + c == a + (b + c)
  {
  }

  lemma {:induction false} Tail(t: Tok, a: seq<Tok>)
    ensures Head([t] + a) == t && ([t] + a)[1..] == a
  {
  }

  predicate Closes(rest: seq<Tok>) {
    Head(rest) == EOF || Head(rest) == RParen
  }

  predicate ClosesAnd(rest: seq<Tok>) {
    Closes(rest) || Head(rest) == OrKw
  }

  predicate Stops(rest: seq<Tok>) {
    ClosesAnd(rest) || Head(rest) == AndKw
  }

  lemma {:induction false} BareRead(n: string, v: Value, rest: seq<Tok>)
    requires ValueProper(v) && Stops(rest) && !v.EqualsQuoted? && !v.Compared?
    ensures ParseBareValue(n, ValueToks(v)[1..] + rest) == Leafed(FieldLeaf(n, v), rest)
  {
    var ts := ValueToks(v)[1..] + rest;
    if v.Inside? {
      assert ts[1..][0] == Ident(v.v) && ts[2..][0] == Star && ts[3..] == rest;
    } else if v.Starting? {
      assert ts[1..][0] == Star && ts[2..] == rest;
    } else {
      assert ts[1..] == rest;
    }
  }

  lemma {:induction false} NamedRead(n: string, v: Value, rest: seq<Tok>)
    requires ValueProper(v) && Stops(rest)
    ensures ParseNamed(n, ValueToks(v) + rest) == Leafed(FieldLeaf(n, v), rest)
  {
    var ts := ValueToks(v) + rest;
    if v.EqualsQuoted? || v.Compared? {
      assert ts[1..][0] == ValueToks(v)[1] && ts[2..] == rest && ts[1..][1..] == rest;
    } else {
      assert ts[1..] == ValueToks(v)[1..] + rest;
      BareRead(n, v, rest);
    }
  }

  lemma {:induction false} IdentRead(n: string, ts: seq<Tok>)
    requires NameProper(n)
    ensures ParseAtom([Ident(n)] + ts) == ParseNamed(n, ts)
  {
    Tail(Ident(n), ts);
  }

  lemma {:induction false} WordRead(v: string, rest: seq<Tok>)
    requires v != "_time" && Stops(rest)
    ensures ParseAtom([Ident(v)] + rest) == Leafed(WordLeaf(v), rest)
  {
    Tail(Ident(v), rest);
  }

  lemma {:induction false} CallRead(ts: seq<Tok>)
    ensures ParseAtom([Ident("i"), LParen] + ts) == ParseCaseless(ts)
  {
    assert ([Ident("i"), LParen] + ts)[1..] == [LParen] + ts;
    Tail(LParen, ts);
  }

  lemma {:induction false} ShortCallRead(t: Tok, rest: seq<Tok>)
    requires t.Str? || t.Ident?
    ensures ParseCaseless([t, RParen] + rest)
         == Leafed(CaseInsensitive(if t.Str? then t.text else t.name), rest)
  {
    assert ([t, RParen] + rest)[1..] == [RParen] + rest;
    Tail(RParen, rest);
  }

  lemma {:induction false} LongCallRead(v: string, rest: seq<Tok>)
    ensures ParseCaseless([Ident(v), Star, RParen] + rest) == Leafed(AnyCasePrefix(v), rest)
  {
    var ts := [Ident(v), Star, RParen] + rest;
    assert ts[1..][0] == Star && ts[2..] == [RParen] + rest;
    Tail(RParen, rest);
  }

  lemma {:induction false} CaselessRead(s: Simple, rest: seq<Tok>)
    requires s.CaselessQuoted? || s.CaselessBare? || s.CaselessStarting?
    ensures ParseAtom(SimpleToks(s) + rest) == Leafed(SimpleLeaf(s), rest)
  {
    var inside := SimpleToks(s)[2..];
    assert SimpleToks(s) + rest == [Ident("i"), LParen] + (inside + rest);
    CallRead(inside + rest);
    if s.CaselessStarting? {
      LongCallRead(s.v, rest);
    } else {
      ShortCallRead(if s.CaselessQuoted? then Str(s.v) else Ident(s.v), rest);
    }
  }

  lemma {:induction false} StarredRead(s: Simple, rest: seq<Tok>)
    requires (s.WordInside? || s.All?) && Stops(rest)
    ensures ParseAtom(SimpleToks(s) + rest) == Leafed(SimpleLeaf(s), rest)
  {
    var ts := SimpleToks(s) + rest;
    if s.WordInside? {
      assert ts[1..][0] == Ident(s.v) && ts[1..][1..][0] == Star && ts[1..][2..] == rest;
    } else {
      assert ts[1..] == rest;
    }
  }

  lemma {:induction false} EqualRead(s: Simple, rest: seq<Tok>)
    requires (s.Equal? || s.EqualStarting?) && Stops(rest)
    ensures ParseAtom(SimpleToks(s) + rest) == Leafed(SimpleLeaf(s), rest)
  {
    var ts := SimpleToks(s) + rest;
    assert ts[1..][0] == Str(s.v);
    if s.EqualStarting? {
      assert ts[1..][1..][0] == Star && ts[1..][2..] == rest;
    } else {
      assert ts[1..][1..] == rest;
    }
  }

  lemma {:induction false} SimpleRead(s: Simple, rest: seq<Tok>)
    requires SimpleProper(s) && Stops(rest)
    ensures ParseAtom(SimpleToks(s) + rest) == Leafed(SimpleLeaf(s), rest)
    ensures Head(SimpleToks(s) + rest) != LParen && Head(SimpleToks(s) + rest) != NotKw
  {
    match s
    case OneWord(v) => WordRead(v, rest);
    case OneQuote(v) => Tail(Str(v), rest);
    case WordStarting(v) =>
      assert SimpleToks(s) + rest == [Ident(v)] + ([Star] + rest);
      IdentRead(v, [Star] + rest);
      Tail(Star, rest);
    case WordInside(_) => StarredRead(s, rest);
    case All => StarredRead(s, rest);
    case Equal(_) => EqualRead(s, rest);
    case EqualStarting(_) => EqualRead(s, rest);
    case FieldIs(n, v) =>
      Assoc([Ident(n)], ValueToks(v), rest);
      IdentRead(n, ValueToks(v) + rest);
      NamedRead(n, v, rest);
    case _ => CaselessRead(s, rest);
  }

  lemma {:induction false} PrimaryOf(ts: seq<Tok>)
    requires Head(ts) != LParen && Head(ts) != NotKw
    ensures ParseNot(ts) == ParseAtom(ts)
  {
  }

  lemma {:induction false} GroupParts(ts: seq<Tok>, f: Filter, close: seq<Tok>)
    requires Head(ts) == LParen && ParseOr(ts[1..]) == Ok(f, close) && Head(close) == RParen
    ensures ParseNot(ts) == Ok(f, close[1..])
  {
  }

  lemma {:induction false} NotParts(ts: seq<Tok>, f: Filter, rest: seq<Tok>)
    requires Head(ts) == NotKw && ParseNot(ts[1..]) == Ok(f, rest)
    ensures ParseNot(ts) == Ok(Filter.Not(f), rest)
  {
  }

  lemma {:induction false} UnaryRead(u: Unary, rest: seq<Tok>)
    requires UnaryProper(u) && Stops(rest)
    ensures ParseNot(UnaryToks(u) + rest) == Ok(UnaryTree(u), rest)
    decreases u, 0
  {
    match u
    case One(s) =>
      SimpleRead(s, rest);
      PrimaryOf(SimpleToks(s) + rest);
    case Group(s) =>
      var close := [RParen] + rest;
      OrRead(s, close);
      Assoc([LParen] + OrToks(s), [RParen], rest);
      Assoc([LParen], OrToks(s), close);
      Tail(LParen, OrToks(s) + close);
      Tail(RParen, rest);
      GroupParts([LParen] + (OrToks(s) + close), OrTree(s), close);
    case Negated(x) =>
      UnaryRead(x, rest);
      Assoc([NotKw], UnaryToks(x), rest);
      Tail(NotKw, UnaryToks(x) + rest);
      NotParts([NotKw] + (UnaryToks(x) + rest), UnaryTree(x), rest);
  }

  lemma {:induction false} AndMoreToksAre(m: AndMore, rest: seq<Tok>)
    requires m.AndThen?
    ensures AndMoreToks(m) + rest == [AndKw] + (UnaryToks(m.operand) + (AndMoreToks(m.more) + rest))
  {
    Assoc([AndKw] + UnaryToks(m.operand), AndMoreToks(m.more), rest);
    Assoc([AndKw], UnaryToks(m.operand), AndMoreToks(m.more) + rest);
  }

  lemma {:induction false} AndMoreStops(m: AndMore, rest: seq<Tok>)
    requires ClosesAnd(rest)
    ensures Stops(AndMoreToks(m) + rest)
  {
    if m.NoAnd? {
      assert AndMoreToks(m) + rest == rest;
    } else {
      AndMoreToksAre(m, rest);
      Tail(AndKw, UnaryToks(m.operand) + (AndMoreToks(m.more) + rest));
    }
  }

  lemma {:induction false} AndTailParts(left: Filter, ts: seq<Tok>, f: Filter, tail: seq<Tok>)
    requires Head(ts) == AndKw && ParseNot(ts[1..]) == Ok(f, tail)
    ensures AndTail(left, ts) == AndTail(Filter.And(left, f), tail)
  {
  }

  lemma {:induction false} AndMoreRead(left: Filter, m: AndMore, rest: seq<Tok>)
    requires AndMoreProper(m) && ClosesAnd(rest)
    ensures AndTail(left, AndMoreToks(m) + rest) == Ok(AndFold(left, m), rest)
    decreases m, 0
  {
    if m.NoAnd? {
      assert AndMoreToks(m) + rest == rest;
    } else {
      var tail := AndMoreToks(m.more) + rest;
      AndMoreStops(m.more, rest);
      UnaryRead(m.operand, tail);
      AndMoreToksAre(m, rest);
      Tail(AndKw, UnaryToks(m.operand) + tail);
      AndTailParts(left, [AndKw] + (UnaryToks(m.operand) + tail), UnaryTree(m.operand), tail);
      AndMoreRead(Filter.And(left, UnaryTree(m.operand)), m.more, rest);
    }
  }

  lemma {:induction false} AndRead(s: Conj, rest: seq<Tok>)
    requires AndProper(s) && ClosesAnd(rest)
    ensures ParseAnd(AndToks(s) + rest) == Ok(AndTree(s), rest)
    decreases s, 1
  {
    var tail := AndMoreToks(s.more) + rest;
    Assoc(UnaryToks(s.first), AndMoreToks(s.more), rest);
    AndMoreStops(s.more, rest);
    UnaryRead(s.first, tail);
    AndMoreRead(UnaryTree(s.first), s.more, rest);
  }

  lemma {:induction false} OrMoreToksAre(m: OrMore, rest: seq<Tok>)
    requires m.OrThen?
    ensures OrMoreToks(m) + rest == [OrKw] + (AndToks(m.operand) + (OrMoreToks(m.more) + rest))
  {
    Assoc([OrKw] + AndToks(m.operand), OrMoreToks(m.more), rest);
    Assoc([OrKw], AndToks(m.operand), OrMoreToks(m.more) + rest);
  }

  lemma {:induction false} OrMoreStops(m: OrMore, rest: seq<Tok>)
    requires Closes(rest)
    ensures ClosesAnd(OrMoreToks(m) + rest)
  {
    if m.NoOr? {
      assert OrMoreToks(m) + rest == rest;
    } else {
      OrMoreToksAre(m, rest);
      Tail(OrKw, AndToks(m.operand) + (OrMoreToks(m.more) + rest));
    }
  }

  lemma {:induction false} OrTailParts(left: Filter, ts: seq<Tok>, f: Filter, tail: seq<Tok>)
    requires Head(ts) == OrKw && ParseAnd(ts[1..]) == Ok(f, tail)
    ensures OrTail(left, ts) == OrTail(Filter.Or(left, f), tail)
  {
  }

  lemma {:induction false} OrMoreRead(left: Filter, m: OrMore, rest: seq<Tok>)
    requires OrMoreProper(m) && Closes(rest)
    ensures OrTail(left, OrMoreToks(m) + rest) == Ok(OrFold(left, m), rest)
    decreases m, 2
  {
    if m.NoOr? {
      assert OrMoreToks(m) + rest == rest;
    } else {
      var tail := OrMoreToks(m.more) + rest;
      OrMoreStops(m.more, rest);
      AndRead(m.operand, tail);
      OrMoreToksAre(m, rest);
      Tail(OrKw, AndToks(m.operand) + tail);
      OrTailParts(left, [OrKw] + (AndToks(m.operand) + tail), AndTree(m.operand), tail);
      OrMoreRead(Filter.Or(left, AndTree(m.operand)), m.more, rest);
    }
  }

  lemma {:induction false} OrRead(s: Disj, rest: seq<Tok>)
    requires OrProper(s) && Closes(rest)
    ensures ParseOr(OrToks(s) + rest) == Ok(OrTree(s), rest)
    decreases s, 3
  {
    var tail := OrMoreToks(s.more) + rest;
    Assoc(AndToks(s.first), OrMoreToks(s.more), rest);
    OrMoreStops(s.more, rest);
    AndRead(s.first, tail);
    OrMoreRead(AndTree(s.first), s.more, rest);
  }

  // ---------------------------------------------------------------------------
  // What is read is spelled
  // ---------------------------------------------------------------------------

  /** The syntax accounts for everything that was read. */
  predicate SpellsSimple(s: Simple, r: Result, ts: seq<Tok>) {
    r.Ok? ==> SimpleProper(s) && SimpleToks(s) + r.rest == ts && r.filter == Atom(SimpleLeaf(s))
  }

  predicate SpellsValue(n: string, v: Value, r: Result, ts: seq<Tok>) {
    r.Ok? ==> ValueProper(v) && ValueToks(v) + r.rest == ts && r.filter == Atom(FieldLeaf(n, v))
  }

  lemma {:induction false} Uncons(ts: seq<Tok>)
    requires ts != []
    ensures ts == [ts[0]] + ts[1..]
  {
  }

  lemma {:induction false} Cut(ts: seq<Tok>, n: nat)
    requires n <= |ts|
    ensures ts == ts[..n] + ts[n..]
  {
  }

  /** A value after a bare colon. */
  lemma {:induction false} BareSpelled(n: string, ts: seq<Tok>) returns (v: Value)
    requires ParseBareValue(n, ts).Ok?
    ensures SpellsValue(n, v, ParseBareValue(n, ts), [Colon] + ts)
  {
    match Head(ts) {
      case Star =>
        if Head(ts[1..]).Ident? {
          v := Inside(ts[1].name);
          assert ts[..3] == [Star, Ident(v.v), Star];
          Cut(ts, 3);
        } else {
          v := Anything;
          Uncons(ts);
        }
      case Str(t) =>
        v := Quoted(t);
        Uncons(ts);
      case Ident(t) =>
        if Head(ts[1..]) == Star {
          v := Starting(t);
          assert ts[..2] == [Ident(t), Star];
          Cut(ts, 2);
        } else {
          v := Plain(t);
          Uncons(ts);
        }
    }
  }

  lemma {:induction false} ComparedSpelled(n: string, op: FieldOp, ts: seq<Tok>) returns (v: Value)
    requires Head(ts) == Sign(op) && ParseOperand(n, op, ts[1..]).Ok? && ValueProper(Compared(op, ""))
    ensures SpellsValue(n, v, ParseOperand(n, op, ts[1..]), ts)
  {
    v := Compared(op, ts[1].name);
    assert ts[..2] == [Sign(op), Ident(v.v)];
    Cut(ts, 2);
    assert ts[1..][1..] == ts[2..];
  }

  predicate HasValue(t: Tok) {
    t == ColonEq || t == ColonGT || t == ColonGTE || t == ColonLT || t == ColonLTE || t == Colon
  }

  lemma {:induction false} ValueSpelled(n: string, ts: seq<Tok>) returns (v: Value)
    requires ParseNamed(n, ts).Ok? && HasValue(Head(ts))
    ensures SpellsValue(n, v, ParseNamed(n, ts), ts)
  {
    match Head(ts) {
      case ColonEq =>
        v := EqualsQuoted(ts[1].text);
        assert ts[..2] == [ColonEq, Str(v.v)];
        Cut(ts, 2);
      case ColonGT => v := ComparedSpelled(n, FGT, ts);
      case ColonGTE => v := ComparedSpelled(n, FGTE, ts);
      case ColonLT => v := ComparedSpelled(n, FLT, ts);
      case ColonLTE => v := ComparedSpelled(n, FLTE, ts);
      case Colon =>
        v := BareSpelled(n, ts[1..]);
        Uncons(ts);
    }
  }

  /** An identifier that no filter of another kind begins with. */
  lemma {:induction false} NamedSpelled(n: string, ts: seq<Tok>) returns (s: Simple)
    requires NameProper(n) && ParseNamed(n, ts).Ok?
    ensures SpellsSimple(s, ParseNamed(n, ts), [Ident(n)] + ts)
  {
    if HasValue(Head(ts)) {
      var v := ValueSpelled(n, ts);
      s := FieldIs(n, v);
      Assoc([Ident(n)], ValueToks(v), ParseNamed(n, ts).rest);
    } else if Head(ts) == Star {
      s := WordStarting(n);
      Uncons(ts);
      Assoc([Ident(n)], [Star], ts[1..]);
      assert [Ident(n)] + [Star] == [Ident(n), Star];
    } else {
      s := OneWord(n);
    }
  }

  lemma {:induction false} Framed(inside: seq<Tok>, ts: seq<Tok>)
    requires |inside| <= |ts| && ts[..|inside|] == inside
    ensures [Ident("i"), LParen] + inside + ts[|inside|..] == [Ident("i"), LParen] + ts
  {
    Cut(ts, |inside|);
    Assoc([Ident("i"), LParen], inside, ts[|inside|..]);
  }

  lemma {:induction false} CaselessStartingSpelled(ts: seq<Tok>) returns (s: Simple)
    requires ParseCaseless(ts).Ok? && Head(ts).Ident? && Head(ts[1..]) == Star
    ensures SpellsSimple(s, ParseCaseless(ts), [Ident("i"), LParen] + ts)
  {
    s := CaselessStarting(ts[0].name);
    var inside := [Ident(s.v), Star, RParen];
    assert ts[..3] == inside && ts[2..][1..] == ts[3..];
    Framed(inside, ts);
    assert [Ident("i"), LParen] + inside == SimpleToks(s);
  }

  lemma {:induction false} CaselessSpelled(ts: seq<Tok>) returns (s: Simple)
    requires ParseCaseless(ts).Ok?
    ensures SpellsSimple(s, ParseCaseless(ts), [Ident("i"), LParen] + ts)
  {
    if Head(ts).Ident? && Head(ts[1..]) == Star {
      s := CaselessStartingSpelled(ts);
    } else {
      s := if Head(ts).Str? then CaselessQuoted(ts[0].text) else CaselessBare(ts[0].name);
      var inside := [ts[0], RParen];
      assert ts[..2] == inside && ts[1..][1..] == ts[2..];
      Framed(inside, ts);
      assert [Ident("i"), LParen] + inside == SimpleToks(s);
    }
  }

  lemma {:induction false} CallSpelled(ts: seq<Tok>) returns (s: Simple)
    requires Head(ts) == LParen && ParseCaseless(ts[1..]).Ok?
    ensures SpellsSimple(s, ParseCaseless(ts[1..]), [Ident("i")] + ts)
  {
    s := CaselessSpelled(ts[1..]);
    Uncons(ts);
    Assoc([Ident("i")], [LParen], ts[1..]);
    assert [Ident("i")] + [LParen] == [Ident("i"), LParen];
  }

  lemma {:induction false} WordSpelled(n: string, ts: seq<Tok>)
    requires n != "_time"
    ensures SpellsSimple(OneWord(n), Leafed(WordLeaf(n), ts), [Ident(n)] + ts)
  {
  }

  lemma {:induction false} IdentSpelled(n: string, ts: seq<Tok>) returns (s: Simple)
    requires ParseIdent(n, ts).Ok?
    ensures SpellsSimple(s, ParseIdent(n, ts), [Ident(n)] + ts)
  {
    if NameProper(n) {
      s := NamedSpelled(n, ts);
    } else if Head(ts) != LParen {
      s := OneWord(n);
      WordSpelled(n, ts);
    } else {
      s := CallSpelled(ts);
    }
  }

  lemma {:induction false} StarredSpelled(ts: seq<Tok>) returns (s: Simple)
    requires ParseStarred(ts).Ok?
    ensures SpellsSimple(s, ParseStarred(ts), [Star] + ts)
  {
    if Head(ts).Ident? {
      s := WordInside(ts[0].name);
      assert ts[..2] == [Ident(s.v), Star];
      Cut(ts, 2);
    } else {
      s := All;
    }
  }

  lemma {:induction false} EqualSpelled(ts: seq<Tok>) returns (s: Simple)
    requires ParseExact(ts).Ok?
    ensures SpellsSimple(s, ParseExact(ts), [Eq] + ts)
  {
    if Head(ts[1..]) == Star {
      s := EqualStarting(ts[0].text);
      assert ts[..2] == [Str(s.v), Star];
      Cut(ts, 2);
    } else {
      s := Equal(ts[0].text);
      Uncons(ts);
    }
  }

  lemma {:induction false} SimpleSpelled(ts: seq<Tok>) returns (s: Simple)
    requires ParseAtom(ts).Ok?
    ensures SpellsSimple(s, ParseAtom(ts), ts)
  {
    Uncons(ts);
    match Head(ts) {
      case Star => s := StarredSpelled(ts[1..]);
      case Str(v) => s := OneQuote(v);
      case Eq => s := EqualSpelled(ts[1..]);
      case Ident(n) => s := IdentSpelled(n, ts[1..]);
    }
  }

  lemma {:induction false} UnarySpelled(ts: seq<Tok>) returns (u: Unary)
    requires ParseNot(ts).Ok?
    ensures var r := ParseNot(ts); UnaryProper(u) && UnaryToks(u) + r.rest == ts && UnaryTree(u) == r.filter
    decreases |ts|, 0
  {
    if Head(ts) == NotKw {
      var x := UnarySpelled(ts[1..]);
      u := Negated(x);
      Uncons(ts);
      Assoc([NotKw], UnaryToks(x), ParseNot(ts).rest);
    } else if Head(ts) == LParen {
      var s := OrSpelled(ts[1..]);
      u := Group(s);
      GroupSpelled(ts, s);
    } else {
      PrimaryOf(ts);
      var s := SimpleSpelled(ts);
      u := One(s);
    }
  }

  lemma {:induction false} GroupSpelled(ts: seq<Tok>, s: Disj)
    requires Head(ts) == LParen && ParseNot(ts).Ok? && ParseOr(ts[1..]).Ok?
    requires OrToks(s) + ParseOr(ts[1..]).rest == ts[1..]
    ensures UnaryToks(Group(s)) + ParseNot(ts).rest == ts
  {
    var close := ParseOr(ts[1..]).rest;
    Uncons(ts);
    Uncons(close);
    Assoc([LParen] + OrToks(s), [RParen], close[1..]);
    Assoc([LParen], OrToks(s), close);
  }

  lemma {:induction false} AndMoreSpelled(left: Filter, ts: seq<Tok>) returns (m: AndMore)
    requires AndTail(left, ts).Ok?
    ensures var r := AndTail(left, ts);
            AndMoreProper(m) && AndMoreToks(m) + r.rest == ts && AndFold(left, m) == r.filter
    decreases |ts|, 1
  {
    if Head(ts) == AndKw {
      var u := UnarySpelled(ts[1..]);
      var r := ParseNot(ts[1..]);
      var rest := AndMoreSpelled(Filter.And(left, r.filter), r.rest);
      m := AndThen(u, rest);
      Uncons(ts);
      AndMoreToksAre(m, AndTail(left, ts).rest);
    } else {
      m := NoAnd;
      assert [] + ts == ts;
    }
  }

  lemma {:induction false} AndSpelled(ts: seq<Tok>) returns (s: Conj)
    requires ParseAnd(ts).Ok?
    ensures var r := ParseAnd(ts); AndProper(s) && AndToks(s) + r.rest == ts && AndTree(s) == r.filter
    decreases |ts|, 2
  {
    var u := UnarySpelled(ts);
    var r := ParseNot(ts);
    var m := AndMoreSpelled(r.filter, r.rest);
    s := Conj(u, m);
    Assoc(UnaryToks(u), AndMoreToks(m), ParseAnd(ts).rest);
  }

  lemma {:induction false} OrMoreSpelled(left: Filter, ts: seq<Tok>) returns (m: OrMore)
    requires OrTail(left, ts).Ok?
    ensures var r := OrTail(left, ts);
            OrMoreProper(m) && OrMoreToks(m) + r.rest == ts && OrFold(left, m) == r.filter
    decreases |ts|, 3
  {
    if Head(ts) == OrKw {
      var a := AndSpelled(ts[1..]);
      var r := ParseAnd(ts[1..]);
      var rest := OrMoreSpelled(Filter.Or(left, r.filter), r.rest);
      m := OrThen(a, rest);
      Uncons(ts);
      OrMoreToksAre(m, OrTail(left, ts).rest);
    } else {
      m := NoOr;
      assert [] + ts == ts;
    }
  }

  lemma {:induction false} OrSpelled(ts: seq<Tok>) returns (s: Disj)
    requires ParseOr(ts).Ok?
    ensures var r := ParseOr(ts); OrProper(s) && OrToks(s) + r.rest == ts && OrTree(s) == r.filter
    decreases |ts|, 4
  {
    var a := AndSpelled(ts);
    var r := ParseAnd(ts);
    var m := OrMoreSpelled(r.filter, r.rest);
    s := Disj(a, m);
    Assoc(AndToks(a), OrMoreToks(m), ParseOr(ts).rest);
  }

  // ---------------------------------------------------------------------------
  // The parser is the grammar
  // ---------------------------------------------------------------------------

  /** The parser accepts exactly the texts whose tokens spell a filter, and answers
      with the tree they stand for. */
  lemma {:induction false} ParsesExactly(text: string, f: Filter)
    ensures ParseFilter(text) == Ok(f, []) <==> Derives(f, Lex(text))
  {
    var ts := Lex(text);
    if ParseFilter(text) == Ok(f, []) { Spelled(ts, f); }
    if Derives(f, ts) { Read(ts, f); }
  }

  lemma {:induction false} Spelled(ts: seq<Tok>, f: Filter)
    requires ParseOr(ts) == Ok(f, [])
    ensures Derives(f, ts)
  {
    var s := OrSpelled(ts);
    assert OrToks(s) + [] == OrToks(s);
  }

  lemma {:induction false} Read(ts: seq<Tok>, f: Filter)
    requires Derives(f, ts)
    ensures ParseOr(ts) == Ok(f, [])
  {
    var s: Disj :| OrProper(s) && OrToks(s) == ts && OrTree(s) == f;
    OrRead(s, []);
    assert ts + [] == ts;
  }
}
