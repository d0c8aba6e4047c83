/** LogsQL text: quoting and the scanner. A character stands for one byte. */
module LogsQLText {

  datatype Tok =
    | LBrace | RBrace | LBracket | RBracket | LParen | RParen | Comma | Pipe | Star
    | Colon | ColonEq | ColonTilde | ColonGT | ColonGTE | ColonLT | ColonLTE
    | Eq | Neq | ReMatch | ReNotMatch | Tilde
    | AndKw | OrKw | NotKw
    | Ident(name: string) | Str(text: string) | Raw(raw: string)
    | Error | EOF

  // ---------------------------------------------------------------------------
  // Quoting
  // ---------------------------------------------------------------------------

  function ReplaceAll(s: string, c: char, sub: string): string {
    if s == "" then "" else (if s[0] == c then sub else [s[0]]) + ReplaceAll(s[1..], c, sub)
  }

  function Escaped(s: string): string {
    ReplaceAll(ReplaceAll(s, '\\', "\\\\"), '"', "\\\"")
  }

  function Quote(s: string): string {
    "\"" + Escaped(s) + "\""
  }

  datatype Unquoted = Unterminated | Closed(value: string, rest: string)

  /** What an escape stands for; an unknown one keeps its backslash. */
  function Unescape(c: char): string {
    if c == 'n' then "\n"
    else if c == 't' then "\t"
    else if c == '"' then "\""
    else if c == '\\' then "\\"
    else ['\\', c]
  }

  function Prepend(p: string, u: Unquoted): Unquoted {
    if u.Closed? then Closed(p + u.value, u.rest) else u
  }

  /** Read a string literal whose opening quote has been consumed. */
  function Unquote(s: string): (u: Unquoted)
    ensures u.Closed? ==> |u.rest| < |s|
  {
    if s == "" then Unterminated
    else if s[0] == '"' then Closed("", s[1..])
    else if s[0] == '\\' && |s| > 1 then Prepend(Unescape(s[1]), Unquote(s[2..]))
    else Prepend([s[0]], Unquote(s[1..]))
  }

  lemma {:induction false} ReplaceAllConcat(a: string, b: string, c: char, sub: string)
    ensures ReplaceAll(a + b, c, sub) == ReplaceAll(a, c, sub) + ReplaceAll(b, c, sub)
  {
    if a == "" {
      assert a + b == b;
    } else {
      assert (a + b)[1..] == a[1..] + b;
      ReplaceAllConcat(a[1..], b, c, sub);
    }
  }

  function Esc(c: char): string {
    if c == '\\' then "\\\\" else if c == '"' then "\\\"" else [c]
  }

  lemma {:induction false} ReplaceOne(d: char, c: char, sub: string)
    ensures ReplaceAll([d], c, sub) == if d == c then sub else [d]
  {
    assert [d][1..] == "";
  }

  lemma {:induction false} EscapedCons(c: char, s: string)
    ensures Escaped([c] + s) == Esc(c) + Escaped(s)
  {
    ReplaceAllConcat([c], s, '\\', "\\\\");
    ReplaceOne(c, '\\', "\\\\");
    var once := if c == '\\' then "\\\\" else [c];
    ReplaceAllConcat(once, ReplaceAll(s, '\\', "\\\\"), '"', "\\\"");
    if c == '\\' {
      assert "\\\\" == ['\\'] + ['\\'];
      ReplaceAllConcat(['\\'], ['\\'], '"', "\\\"");
      ReplaceOne('\\', '"', "\\\"");
    } else {
      ReplaceOne(c, '"', "\\\"");
    }
  }

  lemma {:induction false} UnquoteEsc(c: char, tail: string)
    ensures Unquote(Esc(c) + tail) == Prepend([c], Unquote(tail))
  {
    var all := Esc(c) + tail;
    if c == '\\' || c == '"' {
      assert all[2..] == tail;
    } else {
      assert all[1..] == tail;
    }
  }

  /** Scanning a quoted string returns the original and stops exactly at its closing quote. */
  lemma {:induction false} UnquoteQuote(s: string, rest: string)
    ensures Unquote(Escaped(s) + "\"" + rest) == Closed(s, rest)
  {
    if s == "" {
      assert Escaped(s) + "\"" + rest == "\"" + rest;
      assert ("\"" + rest)[1..] == rest;
    } else {
      assert s == [s[0]] + s[1..];
      EscapedCons(s[0], s[1..]);
      UnquoteQuote(s[1..], rest);
      var tail := Escaped(s[1..]) + "\"" + rest;
      assert Escaped(s) + "\"" + rest == Esc(s[0]) + tail;
      UnquoteEsc(s[0], tail);
    }
  }

  /** Text that means itself between quotes: it has no quote, and a backslash
      stands only before a character that it does not change. */
  predicate Verbatim(v: string) {
    if v == "" then true
    else if v[0] == '"' then false
    else if v[0] == '\\' then |v| > 1 && Unescape(v[1]) == ['\\', v[1]] && Verbatim(v[2..])
    else Verbatim(v[1..])
  }

  function Between(v: string, rest: string): string {
    v + "\"" + rest
  }

  lemma {:induction false} BetweenTail(v: string, k: nat, rest: string)
    requires k <= |v|
    ensures Between(v, rest)[k..] == Between(v[k..], rest)
  {
  }

  /** One step into text between quotes. */
  lemma {:induction false} UnquoteStep(t: string, rest: string)
    ensures Unquote(Between(t, rest)) ==
      if t == "" then Closed("", rest)
      else if t[0] == '"' then Closed("", Between(t[1..], rest))
      else if t[0] == '\\' then
        if |t| > 1 then Prepend(Unescape(t[1]), Unquote(Between(t[2..], rest))) else Prepend("\"", Unquote(rest))
      else Prepend([t[0]], Unquote(Between(t[1..], rest)))
  {
    var s := Between(t, rest);
    if |t| == 0 { assert s[1..] == rest; }
    if |t| == 1 { assert s[1] == '"' && s[2..] == rest; }
    if |t| >= 1 { BetweenTail(t, 1, rest); }
    if |t| >= 2 { BetweenTail(t, 2, rest); }
  }

  lemma {:induction false} VerbatimReads(v: string, rest: string)
    requires Verbatim(v)
    ensures Unquote(Between(v, rest)) == Closed(v, rest)
  {
    UnquoteStep(v, rest);
    if v != "" {
      var k := if v[0] == '\\' then 2 else 1;
      VerbatimReads(v[k..], rest);
      assert v == v[..k] + v[k..];
    }
  }

  predicate Gives(t: string, w: string, rest: string) {
    Unquote(Between(t, rest)).Closed? && Unquote(Between(t, rest)).value == w
  }

  lemma {:induction false} GivesFirst(t: string, w: string, rest: string)
    requires Gives(t, w, rest) && w != ""
    ensures t != "" && t[0] != '"'
    ensures t[0] != '\\' ==> w[0] == t[0] && Gives(t[1..], w[1..], rest)
    ensures t[0] == '\\' && |t| == 1 ==> w[0] == '"'
  {
    UnquoteStep(t, rest);
    if t != "" && t[0] != '"' && t[0] != '\\' {
      assert w == [t[0]] + w[1..];
    }
  }

  lemma {:induction false} GivesEscape(t: string, w: string, rest: string)
    requires Gives(t, w, rest) && |t| > 1 && t[0] == '\\'
    ensures var n := |Unescape(t[1])|;
      n <= |w| && w[..n] == Unescape(t[1]) && Gives(t[2..], w[n..], rest)
  {
    UnquoteStep(t, rest);
  }

  /** Reading on from behind a run of `d` backslashes never makes it up again. */
  lemma {:induction false} NeverCatchesUp(w: string, d: nat, rest: string)
    requires 1 <= d <= |w| && forall i :: 0 <= i < d ==> w[i] == '\\'
    ensures !Gives(w[d..], w, rest)
    decreases |w|
  {
    var t := w[d..];
    if Gives(t, w, rest) {
      Overtaken(w, d, t, rest);
      GivesEscape(t, w, rest);
      var w' := w[1..];
      forall i | 0 <= i < d + 1 ensures w'[i] == '\\' {
        assert w'[i] == w[i + 1];
      }
      assert w'[d + 1..] == t[2..];
      NeverCatchesUp(w', d + 1, rest);
    }
  }

  /** A backslash comes only from a pair of them. */
  lemma {:induction false} Overtaken(w: string, d: nat, t: string, rest: string)
    requires 1 <= d <= |w| && t == w[d..] && forall i :: 0 <= i < d ==> w[i] == '\\'
    requires Gives(t, w, rest)
    ensures |t| > 1 && t[0] == '\\' && t[1] == '\\'
  {
    GivesFirst(t, w, rest);
    assert w[0] == '\\' && w[d] == t[0];
    GivesEscape(t, w, rest);
    assert w[1] == '\\';
  }

  /** Only such text comes back from between quotes unchanged, whatever follows. */
  lemma {:induction false} OnlyVerbatimReads(v: string, rest: string)
    requires Unquote(Between(v, rest)).Closed? && Unquote(Between(v, rest)).value == v
    ensures Verbatim(v)
  {
    if v != "" {
      GivesFirst(v, v, rest);
      if v[0] != '\\' {
        OnlyVerbatimReads(v[1..], rest);
      } else {
        GivesEscape(v, v, rest);
        if v[1] == '\\' {
          assert v[1..][1..] == v[2..];
          NeverCatchesUp(v[1..], 1, rest);
        } else {
          OnlyVerbatimReads(v[2..], rest);
        }
      }
    }
  }

  // ---------------------------------------------------------------------------
  // The scanner
  // ---------------------------------------------------------------------------

  predicate IsSpace(c: char) {
    c == ' ' || c == '\t' || c == '\n' || c == '\r'
  }

  predicate IsIdentChar(c: char) {
    c == '_' || c == '.' || c == '-' || c == '/' || 'a' <= c <= 'z' || 'A' <= c <= 'Z' || '0' <= c <= '9'
  }

  function SkipSpace(s: string): (r: string)
    ensures |r| <= |s| && (r != "" ==> !IsSpace(r[0]))
  {
    if s != "" && IsSpace(s[0]) then SkipSpace(s[1..]) else s
  }

  /** The length of the longest prefix of identifier characters. */
  function IdentLength(s: string): (n: nat)
    ensures n <= |s|
    ensures forall i :: 0 <= i < n ==> IsIdentChar(s[i])
    ensures n < |s| ==> !IsIdentChar(s[n])
  {
    if s == "" || !IsIdentChar(s[0]) then 0 else 1 + IdentLength(s[1..])
  }

  function Word(v: string): Tok {
    if v == "AND" then AndKw else if v == "OR" then OrKw else if v == "NOT" then NotKw else Ident(v)
  }

  function RawLength(s: string): (n: nat)
    ensures n <= |s|
  {
    if s == "" || s[0] == '`' then 0 else 1 + RawLength(s[1..])
  }

  datatype Scanned = Scanned(tok: Tok, rest: string)

  function ScanColon(s: string): (r: Scanned)
    ensures |r.rest| <= |s|
  {
    if s == "" then Scanned(Colon, s)
    else if s[0] == '=' then Scanned(ColonEq, s[1..])
    else if s[0] == '~' then Scanned(ColonTilde, s[1..])
    else if s[0] == '>' then
      if |s| > 1 && s[1] == '=' then Scanned(ColonGTE, s[2..]) else Scanned(ColonGT, s[1..])
    else if s[0] == '<' then
      if |s| > 1 && s[1] == '=' then Scanned(ColonLTE, s[2..]) else Scanned(ColonLT, s[1..])
    else Scanned(Colon, s)
  }

  function ScanIdent(s: string): (r: Scanned)
    requires s != ""
    ensures |r.rest| < |s|
  {
    var n := IdentLength(s);
    if n == 0 then Scanned(Error, s[1..]) else Scanned(Word(s[..n]), s[n..])
  }

  function Punctuation(c: char): Tok {
    match c
    case '{' => LBrace
    case '}' => RBrace
    case '[' => LBracket
    case ']' => RBracket
    case '(' => LParen
    case ')' => RParen
    case ',' => Comma
    case '|' => Pipe
    case '*' => Star
    case '~' => Tilde
    case _ => EOF
  }

  /** One token from text that does not start with white space. */
  function Scan(s: string): (r: Scanned)
    requires s != ""
    ensures |r.rest| < |s|
  {
    var t := s[1..];
    if Punctuation(s[0]) != EOF then Scanned(Punctuation(s[0]), t)
    else if s[0] == '"' then
      var u := Unquote(t);
      if u.Closed? then Scanned(Str(u.value), u.rest) else Scanned(Error, "")
    else if s[0] == '`' then
      var n := RawLength(t);
      Scanned(Raw(t[..n]), if n < |t| then t[n + 1..] else "")
    else if s[0] == ':' then ScanColon(t)
    else if s[0] == '=' then
      if t != "" && t[0] == '~' then Scanned(ReMatch, t[1..]) else Scanned(Eq, t)
    else if s[0] == '!' then
      if t != "" && t[0] == '=' then Scanned(Neq, t[1..])
      else if t != "" && t[0] == '~' then Scanned(ReNotMatch, t[1..])
      else Scanned(Error, t)
    else ScanIdent(s)
  }

  /** The whole token stream, without the end marker. */
  function Lex(s: string): seq<Tok>
    decreases |s|
  {
    var t := SkipSpace(s);
    if t == "" then [] else [Scan(t).tok] + Lex(Scan(t).rest)
  }

  // ---------------------------------------------------------------------------
  // Scanning printed pieces
  // ---------------------------------------------------------------------------

  /** What a piece of text needs from the text after it to be scanned alone. */
  datatype Need = Nothing | NoIdent | NoOperator | NoTilde | SpaceOrClose

  predicate Meets(need: Need, rest: string) {
    rest == "" ||
    match need
    case Nothing => true
    case NoIdent => !IsIdentChar(rest[0])
    case NoOperator => rest[0] !in {'=', '~', '<', '>'}
    case NoTilde => rest[0] != '~'
    case SpaceOrClose => rest[0] == ' ' || rest[0] == ')'
  }

  /** Whatever follows, the scanner reads exactly the tokens `ts` from `s`. */
  ghost predicate Reads(s: string, ts: seq<Tok>, need: Need) {
    forall rest :: Meets(need, rest) ==> Lex(s + rest) == ts + Lex(rest)
  }

  lemma {:induction false} ReadsAt(s: string, ts: seq<Tok>, need: Need, rest: string)
    requires Reads(s, ts, need) && Meets(need, rest)
    ensures Lex(s + rest) == ts + Lex(rest)
  {
  }

  lemma {:induction false} Then(a: string, ta: seq<Tok>, na: Need, b: string, tb: seq<Tok>, nb: Need)
    requires Reads(a, ta, na) && Reads(b, tb, nb)
    requires b != "" && Meets(na, b)
    ensures Reads(a + b, ta + tb, nb)
  {
    forall rest | Meets(nb, rest) ensures Lex(a + b + rest) == ta + tb + Lex(rest) {
      ThenAt(a, ta, na, b, tb, nb, rest);
    }
  }

  lemma {:induction false} ThenAt(a: string, ta: seq<Tok>, na: Need, b: string, tb: seq<Tok>, nb: Need, rest: string)
    requires Reads(a, ta, na) && Reads(b, tb, nb)
    requires b != "" && Meets(na, b) && Meets(nb, rest)
    ensures Lex(a + b + rest) == ta + tb + Lex(rest)
  {
    assert Meets(na, b + rest);
    ReadsAt(a, ta, na, b + rest);
    ReadsAt(b, tb, nb, rest);
    Glue(s => Lex(s), a, b, rest, ta, tb);
  }

  lemma {:induction false} Glue(lex: string -> seq<Tok>, a: string, b: string, rest: string, ta: seq<Tok>, tb: seq<Tok>)
    requires lex(a + (b + rest)) == ta + lex(b + rest) && lex(b + rest) == tb + lex(rest)
    ensures lex(a + b + rest) == ta + tb + lex(rest)
  {
    assert a + b + rest == a + (b + rest);
    assert ta + (tb + lex(rest)) == ta + tb + lex(rest);
  }

  /** Any piece may be followed by white space or a closing parenthesis. */
  lemma {:induction false} Settle(s: string, ts: seq<Tok>, need: Need)
    requires Reads(s, ts, need)
    ensures Reads(s, ts, SpaceOrClose)
  {
    forall rest | Meets(SpaceOrClose, rest) ensures Lex(s + rest) == ts + Lex(rest) {
      assert Meets(need, rest);
    }
  }

  lemma {:induction false} LexStep(s: string, tok: Tok, rest: string)
    requires s != "" && !IsSpace(s[0]) && Scan(s) == Scanned(tok, rest)
    ensures Lex(s) == [tok] + Lex(rest)
  {
    assert SkipSpace(s) == s;
  }

  lemma ReadsSpace()
    ensures Reads(" ", [], Nothing)
  {
    forall rest ensures Lex(" " + rest) == [] + Lex(rest) {
      assert (" " + rest)[1..] == rest;
      assert SkipSpace(" " + rest) == SkipSpace(rest);
    }
  }

  lemma ReadsPunctuation(c: char)
    requires Punctuation(c) != EOF
    ensures Reads([c], [Punctuation(c)], Nothing)
  {
    forall rest ensures Lex([c] + rest) == [Punctuation(c)] + Lex(rest) {
      assert ([c] + rest)[1..] == rest;
      LexStep([c] + rest, Punctuation(c), rest);
    }
  }

  lemma {:induction false} ReadsQuote(v: string)
    ensures Reads(Quote(v), [Str(v)], Nothing)
  {
    forall rest ensures Lex(Quote(v) + rest) == [Str(v)] + Lex(rest) {
      var s := Quote(v) + rest;
      assert s[1..] == Escaped(v) + "\"" + rest;
      UnquoteQuote(v, rest);
      LexStep(s, Str(v), rest);
    }
  }

  lemma {:induction false} QuotedTail(v: string, rest: string)
    ensures var s := "\"" + v + "\"" + rest; s[0] == '"' && s[1..] == Between(v, rest)
  {
  }

  lemma {:induction false} ReadsVerbatim(v: string)
    requires Verbatim(v)
    ensures Reads("\"" + v + "\"", [Str(v)], Nothing)
  {
    forall rest ensures Lex("\"" + v + "\"" + rest) == [Str(v)] + Lex(rest) {
      QuotedTail(v, rest);
      VerbatimReads(v, rest);
      LexStep("\"" + v + "\"" + rest, Str(v), rest);
    }
  }

  predicate IdentText(v: string) {
    v != "" && forall i :: 0 <= i < |v| ==> IsIdentChar(v[i])
  }

  lemma {:induction false} IdentLengthOf(v: string, rest: string)
    requires forall i :: 0 <= i < |v| ==> IsIdentChar(v[i])
    requires Meets(NoIdent, rest)
    ensures IdentLength(v + rest) == |v|
  {
    if v == "" {
      assert v + rest == rest;
    } else {
      assert (v + rest)[1..] == v[1..] + rest;
      IdentLengthOf(v[1..], rest);
    }
  }

  lemma {:induction false} ReadsWord(v: string)
    requires IdentText(v)
    ensures Reads(v, [Word(v)], NoIdent)
  {
    forall rest | Meets(NoIdent, rest) ensures Lex(v + rest) == [Word(v)] + Lex(rest) {
      IdentLengthOf(v, rest);
      var s := v + rest;
      assert IsIdentChar(s[0]);
      assert s[..|v|] == v && s[|v|..] == rest;
      assert Scan(s) == ScanIdent(s);
      LexStep(s, Word(v), rest);
    }
  }

  lemma ReadsEq()
    ensures Reads("=", [Eq], NoTilde)
  {
    forall rest | Meets(NoTilde, rest) ensures Lex("=" + rest) == [Eq] + Lex(rest) {
      assert ("=" + rest)[1..] == rest;
      LexStep("=" + rest, Eq, rest);
    }
  }

  datatype ColonOp = Bare | OpEq | OpGT | OpGTE | OpLT | OpLTE

  function ColonText(op: ColonOp): string {
    match op
    case Bare => ":"
    case OpEq => ":="
    case OpGT => ":>"
    case OpGTE => ":>="
    case OpLT => ":<"
    case OpLTE => ":<="
  }

  function ColonTok(op: ColonOp): Tok {
    match op
    case Bare => Colon
    case OpEq => ColonEq
    case OpGT => ColonGT
    case OpGTE => ColonGTE
    case OpLT => ColonLT
    case OpLTE => ColonLTE
  }

  lemma {:induction false} ScanColonText(op: ColonOp, rest: string)
    requires Meets(NoOperator, rest)
    ensures ScanColon(ColonText(op)[1..] + rest) == Scanned(ColonTok(op), rest)
  {
    var s := ColonText(op)[1..] + rest;
    match op
    case Bare => assert s == rest;
    case OpEq => assert s[1..] == rest;
    case OpGT => assert s[1..] == rest;
    case OpGTE => assert s[2..] == rest;
    case OpLT => assert s[1..] == rest;
    case OpLTE => assert s[2..] == rest;
  }

  lemma ReadsColon(op: ColonOp)
    ensures Reads(ColonText(op), [ColonTok(op)], NoOperator)
  {
    forall rest | Meets(NoOperator, rest)
      ensures Lex(ColonText(op) + rest) == [ColonTok(op)] + Lex(rest)
    {
      ScanColonText(op, rest);
      var s := ColonText(op) + rest;
      assert s[0] == ':' && s[1..] == ColonText(op)[1..] + rest;
      LexStep(s, ColonTok(op), rest);
    }
  }
}
