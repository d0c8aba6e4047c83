/** The LogQL expression parser as it runs: a cursor over tokens, the climbing
    loop and the label-list loops, each proved against the grammar. */
module LogQLParser {
  import opened LogQLExpr
  import opened Wrappers

  datatype Out<T> = Done(value: T) | Failed

  /** What a method answered and left unread, against the grammar's answer. */
  ghost predicate Agrees<T(!new)>(o: Out<T>, r: Result<T>, rest: seq<Tok>) {
    match r
    case Ok(v, ts) => o == Done(v) && rest == ts
    case Err => o == Failed
  }

  lemma {:induction false} NamesStep(ts: seq<Tok>, labels: seq<string>)
    requires Head(ts).Ident?
    ensures var rest := if Head(ts[1..]) == Comma then ts[1..][1..] else ts[1..];
      labels + Names(ts).0 == labels + [ts[0].name] + Names(rest).0 && Names(ts).1 == Names(rest).1
  {
    var rest := if Head(ts[1..]) == Comma then ts[1..][1..] else ts[1..];
    assert Head(ts[1..]) == Comma ==> ts[2..] == ts[1..][1..];
    assert Names(ts).0 == [ts[0].name] + Names(rest).0;
  }

  class Parser {
    const toks: seq<Tok>
    var pos: nat

    ghost predicate Valid()
      reads this
    {
      pos <= |toks|
    }

    ghost function Rest(): seq<Tok>
      requires Valid()
      reads this
    {
      toks[pos..]
    }

    constructor (ts: seq<Tok>)
      ensures Valid() && Rest() == ts
    {
      toks, pos := ts, 0;
    }

    /** The look-ahead token. */
    function Cur(): (t: Tok)
      requires Valid()
      reads this
      ensures t == Head(Rest())
    {
      if pos < |toks| then toks[pos] else EOF
    }

    method Advance() returns (t: Tok)
      requires Valid()
      modifies this
      ensures Valid() && t == Head(old(Rest()))
      ensures Rest() == if old(Rest()) == [] then [] else old(Rest())[1..]
    {
      t := Cur();
      if pos < |toks| {
        pos := pos + 1;
      }
    }

    /** Consume the token only if it is the one wanted. */
    method Expect(want: Tok) returns (ok: bool)
      requires Valid() && want != EOF
      modifies this
      ensures Valid() && ok == (Head(old(Rest())) == want)
      ensures Rest() == if ok then old(Rest())[1..] else old(Rest())
    {
      ok := Cur() == want;
      if ok {
        var _ := Advance();
      }
    }

    /** The loop both label lists share, up to and with the closing parenthesis. */
    method ParseNameLoop() returns (o: Out<seq<string>>)
      requires Valid()
      modifies this
      ensures Valid() && Agrees(o, ParseNames(old(Rest())), Rest())
    {
      var labels: seq<string> := [];
      ghost var all := Names(Rest());
      assert labels + all.0 == all.0;
      while Cur().Ident?
        invariant Valid() && all == (labels + Names(Rest()).0, Names(Rest()).1)
        decreases |Rest()|
      {
        NamesStep(Rest(), labels);
        var t := Advance();
        if Cur() == Comma {
          var _ := Advance();
        }
        labels := labels + [t.name];
      }
      assert labels + [] == labels;
      var ok := Expect(RParen);
      o := if ok then Done(labels) else Failed;
    }

    method ReadLabelList() returns (o: Out<seq<string>>)
      requires Valid()
      modifies this
      ensures Valid() && Agrees(o, ParseLabelList(old(Rest())), Rest())
    {
      if Cur() != LParen {
        return Done([]);
      }
      var _ := Advance();
      o := ParseNameLoop();
    }

    method ReadGrouping() returns (o: Out<Option<Grouping>>)
      requires Valid() && (Head(Rest()) == By || Head(Rest()) == Without)
      modifies this
      ensures Valid() && Agrees(o, ParseGrouping(old(Rest())), Rest())
    {
      var without := Cur() == Without;
      var _ := Advance();
      assert Rest() != [] ==> Rest()[1..] == old(Rest())[2..];
      var ok := Expect(LParen);
      if !ok {
        return Failed;
      }
      var labels := ParseNameLoop();
      o := if labels.Done? then Done(Some(LogQLExpr.Grouping(without, labels.value))) else Failed;
    }

    method ReadMatching() returns (o: Out<Option<Matching>>)
      requires Valid()
      modifies this
      ensures Valid() && Agrees(o, ParseMatching(old(Rest())), Rest())
    {
      if Cur() != On && Cur() != Ignoring {
        return Done(None);
      }
      var card := Advance();
      var labels := ReadLabelList();
      if labels.Failed? {
        return Failed;
      }
      if Cur() != GroupLeft && Cur() != GroupRight {
        return Done(Some(LogQLExpr.Matching(card == On, labels.value, None)));
      }
      var side := Advance();
      var extra := ReadLabelList();
      if extra.Failed? {
        return Failed;
      }
      o := Done(Some(LogQLExpr.Matching(card == On, labels.value, Some(Side(side == GroupLeft, extra.value)))));
    }

    method ReadMods() returns (o: Out<Mods>)
      requires Valid()
      modifies this
      ensures Valid() && Agrees(o, ParseMods(old(Rest())), Rest())
    {
      var returnBool := Cur() == Ident("bool");
      if returnBool {
        var _ := Advance();
      }
      var vm := ReadMatching();
      o := if vm.Done? then Done(LogQLExpr.Mods(returnBool, vm.value)) else Failed;
    }

    method ReadParam(op: AggOp) returns (o: Out<Option<nat>>)
      requires Valid()
      modifies this
      ensures Valid() && Agrees(o, ParseParam(op, old(Rest())), Rest())
    {
      if op != TopK && op != BottomK {
        return Done(None);
      }
      var k := Cur();
      if !k.Num? {
        return Failed;
      }
      var _ := Advance();
      assert Rest() != [] ==> Rest()[1..] == old(Rest())[2..];
      if k.n == 0 {
        return Failed;
      }
      var ok := Expect(Comma);
      o := if ok then Done(Some(k.n)) else Failed;
    }

    /** From after the aggregation's name to its inner expression. */
    method ReadAggHead(op: AggOp) returns (o: Out<(Option<Grouping>, Option<nat>)>)
      requires Valid()
      modifies this
      ensures Valid() && Agrees(o, ParseAggHead(op, old(Rest())), Rest())
    {
      var g := Done(None);
      if Cur() == By || Cur() == Without {
        g := ReadGrouping();
        if g.Failed? {
          return Failed;
        }
      }
      var ok := Expect(LParen);
      if !ok {
        return Failed;
      }
      var k := ReadParam(op);
      o := if k.Done? then Done((g.value, k.value)) else Failed;
    }

    method ReadAggTail(op: AggOp, h: (Option<Grouping>, Option<nat>), inner: Expr) returns (o: Out<Expr>)
      requires Valid()
      modifies this
      ensures Valid() && Agrees(o, ParseAggTail(op, h, inner, old(Rest())), Rest())
    {
      var ok := Expect(RParen);
      if !ok {
        return Failed;
      }
      if h.0.None? && (Cur() == By || Cur() == Without) {
        var g := ReadGrouping();
        return if g.Done? then Done(Agg(op, g.value, h.1, inner)) else Failed;
      }
      o := Done(Agg(op, h.0, h.1, inner));
    }

    method ParseVectorAggregation(op: AggOp) returns (o: Out<Expr>)
      requires Valid() && Rest() != []
      modifies this
      ensures Valid() && Agrees(o, ParseAggregation(op, old(Rest())[1..]), Rest())
      decreases |Rest()|, 0
    {
      var _ := Advance();
      var h := ReadAggHead(op);
      if h.Failed? {
        return Failed;
      }
      var inner := ParseExpr();
      if inner.Failed? {
        return Failed;
      }
      o := ReadAggTail(op, h.value, inner.value);
    }

    method ParseNumber() returns (o: Out<Expr>)
      requires Valid() && !Head(Rest()).Ident? && Head(Rest()) != LParen
      modifies this
      ensures Valid() && Agrees(o, ParseLiteral(old(Rest())), Rest())
    {
      var t := Cur();
      match t {
        case Num(n) =>
          var _ := Advance();
          o := Done(Lit(n));
        case Minus =>
          var _ := Advance();
          assert Rest() == old(Rest())[1..];
          var v := Cur();
          if !v.Num? {
            return Failed;
          }
          assert Rest()[1..] == old(Rest())[2..];
          var _ := Advance();
          o := Done(Lit(0 - v.n));
        case Opaque(id) =>
          var _ := Advance();
          o := Done(Atom(id));
        case _ => o := Failed;
      }
    }

    method ParsePrimary() returns (o: Out<Expr>)
      requires Valid()
      modifies this
      ensures Valid() && Agrees(o, LogQLExpr.ParsePrimary(old(Rest())), Rest())
      decreases |Rest()|, 1
    {
      var t := Cur();
      if t.Ident? {
        var op := AggOf(t.name);
        if op.None? {
          return Failed;
        }
        o := ParseVectorAggregation(op.value);
      } else if t == LParen {
        var _ := Advance();
        o := ParseExpr();
        if o.Done? {
          var ok := Expect(RParen);
          if !ok {
            o := Failed;
          }
        }
      } else {
        o := ParseNumber();
      }
    }

    /** Precedence climbing: extend `lhs` while the operator binds at least `min`. */
    method ParseBinaryRHS(first: Expr, min: nat) returns (o: Out<Expr>)
      requires Valid() && min >= 1
      modifies this
      ensures Valid() && Agrees(o, ParseRHS(first, min, old(Rest())), Rest())
      decreases |Rest()|, 2
    {
      var lhs := first;
      while Prec(Cur()) >= min
        invariant Valid() && |Rest()| <= |old(Rest())|
        invariant ParseRHS(lhs, min, Rest()) == ParseRHS(first, min, old(Rest()))
        decreases |Rest()|
      {
        var op := Advance();
        var m := ReadMods();
        if m.Failed? {
          return Failed;
        }
        var p := ParsePrimary();
        if p.Failed? {
          return Failed;
        }
        var rhs := ParseBinaryRHS(p.value, NextPrec(op));
        if rhs.Failed? {
          return Failed;
        }
        lhs := Bin(lhs, op, m.value, rhs.value);
      }
      o := Done(lhs);
    }

    method ParseExpr() returns (o: Out<Expr>)
      requires Valid()
      modifies this
      ensures Valid() && Agrees(o, LogQLExpr.ParseExpr(old(Rest())), Rest())
      decreases |Rest()|, 3
    {
      var lhs := ParsePrimary();
      if lhs.Failed? {
        return Failed;
      }
      o := ParseBinaryRHS(lhs.value, 1);
    }
  }

  /** `Parse` of the package: the whole input must be one expression. */
  method ParseTokens(ts: seq<Tok>) returns (o: Out<Expr>)
    requires EOF !in ts
    ensures match Parse(ts)
            case Ok(e, _) => o == Done(e)
            case Err => o == Failed
  {
    var p := new Parser(ts);
    o := p.ParseExpr();
    if o.Done? && p.Cur() != EOF {
      o := Failed;
    }
  }
}
