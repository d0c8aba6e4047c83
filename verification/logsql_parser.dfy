/** The LogsQL scanner and parser as objects: a cursor over the text, a
    one-token lookahead buffer, and loops that rebuild the left operand. */
module LogsQLParser {
  import opened LogsQLText
  import opened LogsQLFilter

  lemma {:induction false} IdentLengthSkips(s: string, k: nat)
    requires k <= |s| && forall i :: 0 <= i < k ==> IsIdentChar(s[i])
    ensures IdentLength(s) == k + IdentLength(s[k..])
  {
    if k > 0 {
      IdentLengthSkips(s[1..], k - 1);
      assert s[1..][k - 1..] == s[k..];
    }
  }

  lemma {:induction false} RawLengthSkips(s: string, k: nat)
    requires k <= |s| && forall i :: 0 <= i < k ==> s[i] != '`'
    ensures RawLength(s) == k + RawLength(s[k..])
  {
    if k > 0 {
      RawLengthSkips(s[1..], k - 1);
      assert s[1..][k - 1..] == s[k..];
    }
  }

  /** The identifier that starts at `start` and ends before `pos`. */
  lemma {:induction false} IdentAt(src: string, start: nat, pos: nat)
    requires start <= pos <= |src| && start < |src| && (forall i :: start <= i < pos ==> IsIdentChar(src[i]))
    requires pos < |src| ==> !IsIdentChar(src[pos])
    ensures ScanIdent(src[start..]) ==
      if pos == start then Scanned(Error, src[start + 1..]) else Scanned(Word(src[start..pos]), src[pos..])
  {
    var whole := src[start..];
    IdentLengthSkips(whole, pos - start);
    assert whole[pos - start..] == src[pos..] && whole[..pos - start] == src[start..pos];
    assert IdentLength(src[pos..]) == 0;
    assert pos == start ==> whole[1..] == src[start + 1..];
  }

  /** The raw text that starts after the back quote at `start - 1`. */
  lemma {:induction false} RawAt(src: string, start: nat, pos: nat)
    requires 1 <= start <= pos <= |src| && src[start - 1] == '`' && (forall i :: start <= i < pos ==> src[i] != '`')
    requires pos < |src| ==> src[pos] == '`'
    ensures Scan(src[start - 1..]) == Scanned(Raw(src[start..pos]), if pos < |src| then src[pos + 1..] else "")
  {
    var whole := src[start..];
    assert src[start - 1..][1..] == whole;
    RawLengthSkips(whole, pos - start);
    assert whole[pos - start..] == src[pos..] && whole[..pos - start] == src[start..pos];
    assert RawLength(src[pos..]) == 0;
    assert pos < |src| ==> whole[pos - start + 1..] == src[pos + 1..];
  }

  /** One character, or one escape, of a quoted text. */
  lemma {:induction false} UnquoteAt(src: string, pos: nat)
    requires pos < |src|
    ensures Unquote(src[pos..]) ==
      if src[pos] == '"' then Closed("", src[pos + 1..])
      else if src[pos] == '\\' && pos + 1 < |src| then Prepend(Unescape(src[pos + 1]), Unquote(src[pos + 2..]))
      else Prepend([src[pos]], Unquote(src[pos + 1..]))
  {
    assert src[pos..][1..] == src[pos + 1..];
    assert pos + 1 < |src| ==> src[pos..][2..] == src[pos + 2..] && src[pos..][1] == src[pos + 1];
  }

  method EscapedText(c: char) returns (s: string)
    ensures s == Unescape(c)
  {
    match c {
      case 'n' => s := "\n";
      case 't' => s := "\t";
      case '"' => s := "\"";
      case '\\' => s := "\\";
      case _ => s := ['\\', c];
    }
  }

  lemma {:induction false} ScanIsNotEOF(s: string)
    requires s != ""
    ensures Scan(s).tok != EOF
  {
  }

  class Scanner {
    const src: string
    var pos: nat

    ghost predicate Valid()
      reads this
    {
      pos <= |src|
    }

    ghost function Left(): string
      requires Valid()
      reads this
    {
      src[pos..]
    }

    constructor (src: string)
      ensures Valid() && this.src == src && Left() == src
    {
      this.src, pos := src, 0;
    }

    method SkipWS()
      requires Valid()
      modifies this
      ensures Valid() && Left() == SkipSpace(old(Left()))
    {
      while pos < |src| && IsSpace(src[pos])
        invariant pos <= |src|
        invariant SkipSpace(src[pos..]) == SkipSpace(old(Left()))
      {
        assert src[pos..][1..] == src[pos + 1..];
        pos := pos + 1;
      }
    }

    /** The body of a quoted text, up to and with the closing quote. */
    method ScanQuotedBody() returns (t: Tok)
      requires Valid()
      modifies this
      ensures Valid()
      ensures match Unquote(old(Left()))
              case Closed(v, rest) => t == Str(v) && Left() == rest
              case Unterminated => t == Error && Left() == ""
    {
      ghost var whole := Unquote(Left());
      var b := "";
      assert Prepend("", whole) == whole;
      while pos < |src|
        invariant pos <= |src| && Prepend(b, Unquote(src[pos..])) == whole
      {
        var ch := src[pos];
        UnquoteAt(src, pos);
        if ch == '"' {
          assert b + "" == b;
          pos := pos + 1;
          return Str(b);
        }
        if ch == '\\' && pos + 1 < |src| {
          PrependTwice(b, Unescape(src[pos + 1]), Unquote(src[pos + 2..]));
          pos := pos + 1;
          var e := EscapedText(src[pos]);
          b := b + e;
          pos := pos + 1;
        } else {
          PrependTwice(b, [ch], Unquote(src[pos + 1..]));
          b := b + [ch];
          pos := pos + 1;
        }
      }
      return Error;
    }

    method ScanQuoted() returns (t: Tok)
      requires Valid() && pos < |src| && src[pos] == '"'
      modifies this
      ensures Valid() && Scanned(t, Left()) == Scan(old(Left()))
    {
      assert src[pos..][1..] == src[pos + 1..];
      pos := pos + 1;
      t := ScanQuotedBody();
    }

    method ScanRaw() returns (t: Tok)
      requires Valid() && pos < |src| && src[pos] == '`'
      modifies this
      ensures Valid() && Scanned(t, Left()) == Scan(old(Left()))
    {
      pos := pos + 1;
      var start := pos;
      while pos < |src| && src[pos] != '`'
        invariant start <= pos <= |src|
        invariant forall i :: start <= i < pos ==> src[i] != '`'
      {
        pos := pos + 1;
      }
      RawAt(src, start, pos);
      t := Raw(src[start..pos]);
      if pos < |src| {
        pos := pos + 1;
      }
    }

    method ScanColonOp() returns (t: Tok)
      requires Valid() && pos < |src| && src[pos] == ':'
      modifies this
      ensures Valid() && Scanned(t, Left()) == Scan(old(Left()))
    {
      ghost var whole := src[pos + 1..];
      assert src[pos..][1..] == whole;
      pos := pos + 1;
      if pos >= |src| {
        return Colon;
      }
      assert whole[1..] == src[pos + 1..];
      assert pos + 1 < |src| ==> whole[2..] == src[pos + 2..] && whole[1] == src[pos + 1];
      match src[pos] {
        case '=' => pos := pos + 1; return ColonEq;
        case '~' => pos := pos + 1; return ColonTilde;
        case '>' =>
          pos := pos + 1;
          if pos < |src| && src[pos] == '=' {
            pos := pos + 1;
            return ColonGTE;
          }
          return ColonGT;
        case '<' =>
          pos := pos + 1;
          if pos < |src| && src[pos] == '=' {
            pos := pos + 1;
            return ColonLTE;
          }
          return ColonLT;
        case _ => return Colon;
      }
    }

    method ScanIdentifier() returns (t: Tok)
      requires Valid() && pos < |src|
      modifies this
      ensures Valid() && Scanned(t, Left()) == ScanIdent(old(Left()))
    {
      var start := pos;
      while pos < |src| && IsIdentChar(src[pos])
        invariant start <= pos <= |src|
        invariant forall i :: start <= i < pos ==> IsIdentChar(src[i])
      {
        pos := pos + 1;
      }
      IdentAt(src, start, pos);
      var val := src[start..pos];
      if val == "" {
        pos := pos + 1;
        return Error;
      }
      return Word(val);
    }

    method Next() returns (t: Tok)
      requires Valid()
      modifies this
      ensures Valid()
      ensures SkipSpace(old(Left())) == "" ==> t == EOF && Left() == ""
      ensures SkipSpace(old(Left())) != "" ==> Scanned(t, Left()) == Scan(SkipSpace(old(Left())))
    {
      SkipWS();
      if pos >= |src| {
        return EOF;
      }
      ghost var whole := src[pos..];
      assert whole[1..] == src[pos + 1..];
      assert pos + 1 < |src| ==> whole[1..][1..] == src[pos + 2..] && whole[1..][0] == src[pos + 1];
      var ch := src[pos];
      if Punctuation(ch) != EOF {
        pos := pos + 1;
        return Punctuation(ch);
      }
      match ch {
        case '"' => t := ScanQuoted();
        case '`' => t := ScanRaw();
        case ':' => t := ScanColonOp();
        case '=' =>
          pos := pos + 1;
          if pos < |src| && src[pos] == '~' {
            pos := pos + 1;
            return ReMatch;
          }
          return Eq;
        case '!' =>
          pos := pos + 1;
          if pos < |src| {
            if src[pos] == '=' {
              pos := pos + 1;
              return Neq;
            }
            if src[pos] == '~' {
              pos := pos + 1;
              return ReNotMatch;
            }
          }
          return Error;
        case _ => t := ScanIdentifier();
      }
    }
  }

  lemma {:induction false} PrependTwice(a: string, b: string, u: Unquoted)
    ensures Prepend(a, Prepend(b, u)) == Prepend(a + b, u)
  {
    if u.Closed? { assert a + (b + u.value) == a + b + u.value; }
  }

  datatype Out = Done(filter: Filter) | Failed | Beyond

  /** The outcome and the tokens left are what the grammar function says. */
  ghost predicate Agrees(o: Out, spec: Result, rest: seq<Tok>) {
    match spec
    case Ok(f, rs) => o == Done(f) && rest == rs
    case Err => o == Failed
    case Outside => o == Beyond
  }

  class Parser {
    const sc: Scanner
    var buf: seq<Tok>

    ghost predicate Valid()
      reads this, sc
    {
      && sc.Valid()
      && |buf| <= 1
      && (buf == [EOF] ==> Lex(sc.Left()) == [])
    }

    /** The tokens not yet consumed. */
    ghost function Rest(): seq<Tok>
      requires Valid()
      reads this, sc
    {
      if buf == [] || buf[0] == EOF then Lex(sc.Left()) else buf + Lex(sc.Left())
    }

    constructor (input: string)
      ensures Valid() && fresh(sc) && Rest() == Lex(input)
    {
      sc := new Scanner(input);
      buf := [];
    }

    method Peek() returns (t: Tok)
      requires Valid()
      modifies this, sc
      ensures Valid() && Rest() == old(Rest()) && t == Head(Rest()) && buf == [t]
    {
      if buf == [] {
        ghost var text := SkipSpace(sc.Left());
        if text != "" { ScanIsNotEOF(text); }
        var tok := sc.Next();
        buf := [tok];
      }
      return buf[0];
    }

    method Advance() returns (t: Tok)
      requires Valid()
      modifies this, sc
      ensures Valid() && t == Head(old(Rest())) && buf == []
      ensures Rest() == if old(Rest()) == [] then [] else old(Rest())[1..]
    {
      t := Peek();
      buf := [];
    }

    method ParseOrExpr() returns (o: Out)
      requires Valid()
      modifies this, sc
      ensures Valid() && Agrees(o, ParseOr(old(Rest())), Rest())
      decreases |Rest()|, 3
    {
      o := ParseAndExpr();
      if !o.Done? {
        return;
      }
      var left := o.filter;
      var t := Peek();
      while t == OrKw
        invariant Valid() && t == Head(Rest())
        invariant |Rest()| < |old(Rest())|
        invariant OrTail(left, Rest()) == ParseOr(old(Rest()))
        decreases |Rest()|
      {
        var _ := Advance();
        o := ParseAndExpr();
        if !o.Done? {
          return;
        }
        left := Or(left, o.filter);
        t := Peek();
      }
      o := Done(left);
    }

    method ParseAndExpr() returns (o: Out)
      requires Valid()
      modifies this, sc
      ensures Valid() && Agrees(o, ParseAnd(old(Rest())), Rest())
      decreases |Rest()|, 2
    {
      o := ParseNotExpr();
      if !o.Done? {
        return;
      }
      var left := o.filter;
      var t := Peek();
      while t == AndKw
        invariant Valid() && t == Head(Rest())
        invariant |Rest()| < |old(Rest())|
        invariant AndTail(left, Rest()) == ParseAnd(old(Rest()))
        decreases |Rest()|
      {
        var _ := Advance();
        o := ParseNotExpr();
        if !o.Done? {
          return;
        }
        left := And(left, o.filter);
        t := Peek();
      }
      o := Done(left);
    }

    method ParseNotExpr() returns (o: Out)
      requires Valid()
      modifies this, sc
      ensures Valid() && Agrees(o, ParseNot(old(Rest())), Rest())
      decreases |Rest()|, 1
    {
      var t := Peek();
      if t == NotKw {
        var _ := Advance();
        o := ParseNotExpr();
        if o.Done? {
          o := Done(Not(o.filter));
        }
        return;
      }
      o := ParsePrimaryFilter();
    }

    method ParsePrimaryFilter() returns (o: Out)
      requires Valid()
      modifies this, sc
      ensures Valid() && Agrees(o, ParsePrimary(old(Rest())), Rest())
      decreases |Rest()|, 0
    {
      var t := Peek();
      if t == LParen {
        var _ := Advance();
        o := ParseOrExpr();
        if o.Done? {
          var c := Advance();
          if c != RParen {
            o := Failed;
          }
        }
        return;
      }
      o := ParseAtomFilter();
    }

    method ParseAtomFilter() returns (o: Out)
      requires Valid()
      modifies this, sc
      ensures Valid() && Agrees(o, ParseAtom(old(Rest())), Rest())
    {
      var t := Peek();
      match t {
        case LBrace => o := Beyond;
        case Star =>
          var _ := Advance();
          o := ParseStar();
        case Str(v) =>
          var _ := Advance();
          return Done(Atom(Phrase(v)));
        case Eq =>
          var _ := Advance();
          o := ParseExactMessage();
        case Tilde => o := Beyond;
        case Ident(_) => o := ParseIdentOrFieldFilter();
        case _ => o := Failed;
      }
    }

    method ParseStar() returns (o: Out)
      requires Valid()
      modifies this, sc
      ensures Valid() && Agrees(o, ParseStarred(old(Rest())), Rest())
    {
      var w := Peek();
      if w.Ident? {
        var _ := Advance();
        var c := Peek();
        if c == Star {
          var _ := Advance();
          return Done(Atom(Substring(w.name)));
        }
        return Failed;
      }
      return Done(Atom(Wildcard));
    }

    method ParseExactMessage() returns (o: Out)
      requires Valid()
      modifies this, sc
      ensures Valid() && Agrees(o, ParseExact(old(Rest())), Rest())
    {
      var s := Advance();
      if !s.Str? {
        return Failed;
      }
      var c := Peek();
      if c == Star {
        var _ := Advance();
        return Done(Atom(ExactPrefix(s.text)));
      }
      return Done(Atom(Exact(s.text)));
    }

    method ParseIdentOrFieldFilter() returns (o: Out)
      requires Valid() && Head(Rest()).Ident?
      modifies this, sc
      ensures Valid() && Agrees(o, ParseIdent(Head(old(Rest())).name, old(Rest())[1..]), Rest())
    {
      var tok := Advance();
      var name := tok.name;
      if name == "_time" {
        return Beyond;
      }
      var t := Peek();
      if name in FUNCTION_WORDS {
        if t != LParen {
          return Done(Atom(WordLeaf(name)));
        }
        if name == "i" {
          var _ := Advance();
          o := ParseCaselessBody();
          return;
        }
        return Beyond;
      }
      o := ParseFieldOperator(name);
    }

    method ParseCaselessBody() returns (o: Out)
      requires Valid()
      modifies this, sc
      ensures Valid() && Agrees(o, ParseCaseless(old(Rest())), Rest())
    {
      var t := Peek();
      match t {
        case Str(v) =>
          var _ := Advance();
          o := Done(Atom(CaseInsensitive(v)));
        case Ident(w) =>
          var _ := Advance();
          var c := Peek();
          if c == Star {
            var _ := Advance();
            o := Done(Atom(AnyCasePrefix(w)));
          } else {
            o := Done(Atom(CaseInsensitive(w)));
          }
        case _ => return Failed;
      }
      var c := Advance();
      if c != RParen {
        o := Failed;
      }
    }

    method ParseFieldOperator(name: string) returns (o: Out)
      requires Valid()
      modifies this, sc
      ensures Valid() && Agrees(o, ParseNamed(name, old(Rest())), Rest())
    {
      var t := Peek();
      match t {
        case Star =>
          var _ := Advance();
          return Done(Atom(PrefixLeaf(name)));
        case ColonEq =>
          var _ := Advance();
          var s := Advance();
          if !s.Str? {
            return Failed;
          }
          return Done(Atom(Field(name, FExact, s.text)));
        case ColonTilde => return Beyond;
        case ColonGT => o := ParseIdentValue(name, FGT);
        case ColonGTE => o := ParseIdentValue(name, FGTE);
        case ColonLT => o := ParseIdentValue(name, FLT);
        case ColonLTE => o := ParseIdentValue(name, FLTE);
        case Colon =>
          var _ := Advance();
          o := ParseBareCsFilterValue(name);
        case _ => return Done(Atom(WordLeaf(name)));
      }
    }

    /** Consume the operator and the identifier after it. */
    method ParseIdentValue(name: string, op: FieldOp) returns (o: Out)
      requires Valid() && Rest() != []
      modifies this, sc
      ensures Valid() && Agrees(o, ParseOperand(name, op, old(Rest())[1..]), Rest())
    {
      var _ := Advance();
      var v := Advance();
      if !v.Ident? {
        return Failed;
      }
      return Done(Atom(Field(name, op, v.name)));
    }

    method ParseBareCsFilterValue(name: string) returns (o: Out)
      requires Valid()
      modifies this, sc
      ensures Valid() && Agrees(o, ParseBareValue(name, old(Rest())), Rest())
    {
      var t := Peek();
      match t {
        case Star =>
          var _ := Advance();
          var w := Peek();
          if w.Ident? {
            var _ := Advance();
            var c := Peek();
            if c == Star {
              var _ := Advance();
              return Done(Atom(Field(name, FSubstring, w.name)));
            }
            return Failed;
          }
          return Done(Atom(Field(name, FAny, "")));
        case Str(v) =>
          var _ := Advance();
          if v == "" {
            return Done(Atom(Field(name, FEmpty, "")));
          }
          return Done(Atom(Field(name, FExact, v)));
        case Ident(v) =>
          var _ := Advance();
          if v in VALUE_FUNCTIONS {
            return Beyond;
          }
          var c := Peek();
          if c == Star {
            var _ := Advance();
            return Done(Atom(Field(name, FPrefix, v)));
          }
          return Done(Atom(Field(name, FExact, v)));
        case _ => return Failed;
      }
    }
  }

  /** `ParseFilter` of the package: the whole input must be one filter. */
  method ParseText(input: string) returns (o: Out)
    ensures match ParseFilter(input)
            case Ok(f, _) => o == Done(f)
            case Err => o == Failed
            case Outside => o == Beyond
  {
    var p := new Parser(input);
    o := p.ParseOrExpr();
    if o.Done? {
      var t := p.Peek();
      if t != EOF {
        o := Failed;
      }
    }
  }
}
