/** Printing a LogQL metric expression and parsing the tokens again. */
module LogQLRoundTrip {
  import opened LogQLExpr
  import opened Wrappers

  function NameToks(ns: seq<string>): seq<Tok> {
    if ns == [] then []
    else if |ns| == 1 then [Ident(ns[0])]
    else [Ident(ns[0]), Comma] + NameToks(ns[1..])
  }

  function ListToks(ns: seq<string>): seq<Tok> {
    [LParen] + NameToks(ns) + [RParen]
  }

  function GroupingToks(g: Option<Grouping>): seq<Tok> {
    match g
    case None => []
    case Some(g) => [if g.without then Without else By] + ListToks(g.labels)
  }

  function SideToks(s: Option<Side>): seq<Tok> {
    match s
    case None => []
    case Some(s) => [if s.left then GroupLeft else GroupRight] + ListToks(s.extra)
  }

  function MatchingToks(m: Option<Matching>): seq<Tok> {
    match m
    case None => []
    case Some(m) => [if m.on then On else Ignoring] + ListToks(m.labels) + SideToks(m.side)
  }

  function ModToks(m: Mods): seq<Tok> {
    (if m.returnBool then [Ident("bool")] else []) + MatchingToks(m.matching)
  }

  function ParamToks(k: Option<nat>): seq<Tok> {
    match k
    case None => []
    case Some(n) => [Num(n), Comma]
  }

  function AggHeadToks(op: AggOp, g: Option<Grouping>, k: Option<nat>): seq<Tok> {
    GroupingToks(g) + [LParen] + ParamToks(k)
  }

  /** A binary operand stands in parentheses. */
  function Operand(e: Expr): seq<Tok> {
    if e.Bin? then [LParen] + Print(e) + [RParen] else Print(e)
  }

  function Print(e: Expr): seq<Tok>
    decreases e, 0
  {
    match e
    case Lit(k) => if k < 0 then [Minus, Num(-k)] else [Num(k)]
    case Atom(id) => [Opaque(id)]
    case Agg(op, g, k, inner) => [Ident(AggName(op))] + AggHeadToks(op, g, k) + Print(inner) + [RParen]
    case Bin(l, op, m, r) =>
      (if l.Bin? then [LParen] + Print(l) + [RParen] else Print(l)) + [op] + ModToks(m)
      + (if r.Bin? then [LParen] + Print(r) + [RParen] else Print(r))
  }

  /** Operators are operators, and exactly topk and bottomk carry a positive parameter. */
  predicate WellFormed(e: Expr) {
    match e
    case Lit(_) => true
    case Atom(_) => true
    case Agg(op, _, k, inner) => WellFormed(inner) && ParamOk(op, k)
    case Bin(l, op, _, r) => WellFormed(l) && WellFormed(r) && Prec(op) >= 1
  }

  predicate ParamOk(op: AggOp, k: Option<nat>) {
    if TakesParam(op) then k.Some? && k.value > 0 else k.None?
  }

  lemma {:induction false} Assoc(a: seq<Tok>, b: seq<Tok>, c: seq<Tok>)
    ensures a + b + c == a + (b + c)
  {
  }

  lemma {:induction false} Tail(t: Tok, a: seq<Tok>, rest: seq<Tok>)
    ensures Head([t] + a + rest) == t && ([t] + a + rest)[1..] == a + rest
  {
  }

  // ---------------------------------------------------------------------------
  // Lists and modifiers
  // ---------------------------------------------------------------------------

  lemma {:induction false} NamesBack(ns: seq<string>, rest: seq<Tok>)
    requires !Head(rest).Ident? && Head(rest) != Comma
    ensures Names(NameToks(ns) + rest) == (ns, rest)
  {
    var ts := NameToks(ns) + rest;
    if |ns| == 1 {
      assert ts[1..] == rest;
      assert ns == [ns[0]] + [];
    } else if |ns| > 1 {
      assert ts == [Ident(ns[0]), Comma] + (NameToks(ns[1..]) + rest);
      assert Head(ts[1..]) == Comma && ts[2..] == NameToks(ns[1..]) + rest;
      NamesBack(ns[1..], rest);
      assert ns == [ns[0]] + ns[1..];
    } else {
      assert ts == rest;
    }
  }

  lemma {:induction false} NamesClose(ns: seq<string>, rest: seq<Tok>)
    ensures ParseNames(NameToks(ns) + [RParen] + rest) == Ok(ns, rest)
  {
    assert NameToks(ns) + [RParen] + rest == NameToks(ns) + ([RParen] + rest);
    NamesBack(ns, [RParen] + rest);
    assert ([RParen] + rest)[1..] == rest;
  }

  lemma {:induction false} ListBack(ns: seq<string>, rest: seq<Tok>)
    ensures var ts := ListToks(ns) + rest;
      Head(ts) == LParen && ParseNames(ts[1..]) == Ok(ns, rest) && ParseLabelList(ts) == Ok(ns, rest)
  {
    NamesClose(ns, rest);
    assert (ListToks(ns) + rest)[1..] == NameToks(ns) + [RParen] + rest;
  }

  lemma {:induction false} GroupingParts(g: Grouping, ts: seq<Tok>, rest: seq<Tok>)
    requires Head(ts) == (if g.without then Without else By) && Head(ts[1..]) == LParen
    requires ParseNames(ts[1..][1..]) == Ok(g.labels, rest)
    ensures ParseGrouping(ts) == Ok(Some(g), rest)
  {
    assert ts[2..] == ts[1..][1..];
  }

  lemma {:induction false} GroupingBack(g: Option<Grouping>, rest: seq<Tok>)
    requires Head(rest) != By && Head(rest) != Without
    ensures ParseGrouping(GroupingToks(g) + rest) == Ok(g, rest)
  {
    match g
    case None => assert GroupingToks(g) + rest == rest;
    case Some(g') =>
      Tail(if g'.without then Without else By, ListToks(g'.labels), rest);
      ListBack(g'.labels, rest);
      GroupingParts(g', GroupingToks(g) + rest, rest);
  }

  lemma {:induction false} SideBack(s: Option<Side>, rest: seq<Tok>)
    requires Head(rest) != GroupLeft && Head(rest) != GroupRight
    ensures ParseSide(SideToks(s) + rest) == Ok(s, rest)
  {
    if s.Some? {
      Tail(if s.value.left then GroupLeft else GroupRight, ListToks(s.value.extra), rest);
      ListBack(s.value.extra, rest);
    } else {
      assert SideToks(s) + rest == rest;
    }
  }

  /** Tokens a printed operand can start with. */
  predicate StartsOperand(t: Tok) {
    t == LParen || t.Num? || t == Minus || t.Opaque? || (t.Ident? && t.name != "bool")
  }

  lemma {:induction false} MatchingParts(m: Matching, ts: seq<Tok>, ts1: seq<Tok>, rest: seq<Tok>)
    requires Head(ts) == if m.on then On else Ignoring
    requires ParseLabelList(ts[1..]) == Ok(m.labels, ts1) && ParseSide(ts1) == Ok(m.side, rest)
    ensures ParseMatching(ts) == Ok(Some(m), rest)
  {
  }

  lemma {:induction false} MatchingBack(m: Option<Matching>, rest: seq<Tok>)
    requires StartsOperand(Head(rest))
    ensures ParseMatching(MatchingToks(m) + rest) == Ok(m, rest)
  {
    match m
    case None => assert MatchingToks(m) + rest == rest;
    case Some(m') =>
      var kind, list, side := if m'.on then On else Ignoring, ListToks(m'.labels), SideToks(m'.side);
      Assoc([kind] + list, side, rest);
      Tail(kind, list, side + rest);
      ListBack(m'.labels, side + rest);
      SideBack(m'.side, rest);
      MatchingParts(m', MatchingToks(m) + rest, side + rest, rest);
  }

  lemma {:induction false} ModsParts(m: Mods, ts: seq<Tok>, inner: seq<Tok>, rest: seq<Tok>)
    requires if m.returnBool then Head(ts) == Ident("bool") && ts[1..] == inner
             else Head(ts) != Ident("bool") && ts == inner
    requires ParseMatching(inner) == Ok(m.matching, rest)
    ensures ParseMods(ts) == Ok(m, rest)
  {
  }

  lemma {:induction false} NotBool(m: Option<Matching>, rest: seq<Tok>)
    requires StartsOperand(Head(rest))
    ensures Head(MatchingToks(m) + rest) != Ident("bool")
  {
    if m.None? {
      assert MatchingToks(m) + rest == rest;
    } else {
      assert Head(MatchingToks(m) + rest) == if m.value.on then On else Ignoring;
    }
  }

  lemma {:induction false} ModsBack(m: Mods, rest: seq<Tok>)
    requires StartsOperand(Head(rest))
    ensures ParseMods(ModToks(m) + rest) == Ok(m, rest)
  {
    var toks := MatchingToks(m.matching);
    MatchingBack(m.matching, rest);
    if m.returnBool {
      Tail(Ident("bool"), toks, rest);
    } else {
      NotBool(m.matching, rest);
      assert [] + toks == toks;
    }
    ModsParts(m, ModToks(m) + rest, toks + rest, rest);
  }

  lemma {:induction false} ParamBack(op: AggOp, k: Option<nat>, rest: seq<Tok>)
    requires ParamOk(op, k)
    ensures ParseParam(op, ParamToks(k) + rest) == Ok(k, rest)
  {
    var ts := ParamToks(k) + rest;
    if k.Some? {
      assert Head(ts[1..]) == Comma && ts[2..] == rest;
    } else {
      assert ts == rest;
    }
  }

  lemma {:induction false} AggHeadParts(op: AggOp, g: Option<Grouping>, k: Option<nat>, ts: seq<Tok>,
      inner: seq<Tok>, rest: seq<Tok>)
    requires ParseGrouping(ts) == Ok(g, inner) && Head(inner) == LParen && ParseParam(op, inner[1..]) == Ok(k, rest)
    ensures ParseAggHead(op, ts) == Ok((g, k), rest)
  {
  }

  lemma {:induction false} AggHeadBack(op: AggOp, g: Option<Grouping>, k: Option<nat>, rest: seq<Tok>)
    requires ParamOk(op, k)
    ensures ParseAggHead(op, AggHeadToks(op, g, k) + rest) == Ok((g, k), rest)
  {
    var inner := [LParen] + ParamToks(k) + rest;
    Assoc(GroupingToks(g) + [LParen], ParamToks(k), rest);
    Assoc(GroupingToks(g), [LParen], ParamToks(k) + rest);
    Assoc([LParen], ParamToks(k), rest);
    Tail(LParen, ParamToks(k), rest);
    GroupingBack(g, inner);
    ParamBack(op, k, rest);
    AggHeadParts(op, g, k, AggHeadToks(op, g, k) + rest, inner, rest);
  }

  // ---------------------------------------------------------------------------
  // Expressions
  // ---------------------------------------------------------------------------

  /** Tokens that can follow a complete expression. */
  predicate Ends(rest: seq<Tok>) {
    Prec(Head(rest)) == 0 && Head(rest) != By && Head(rest) != Without
  }

  predicate Follows(rest: seq<Tok>) {
    Head(rest) != By && Head(rest) != Without
  }

  lemma {:induction false} OperandStarts(e: Expr)
    ensures Operand(e) != [] && StartsOperand(Operand(e)[0])
  {
    if e.Agg? { AggOfName(e.op); }
  }

  lemma {:induction false} ParensBack(ts: seq<Tok>, e: Expr, rest: seq<Tok>)
    requires ParseExpr(ts + ([RParen] + rest)) == Ok(e, [RParen] + rest)
    ensures ParsePrimary([LParen] + ts + [RParen] + rest) == Ok(e, rest)
  {
    var all := [LParen] + ts + [RParen] + rest;
    assert all[1..] == ts + ([RParen] + rest);
    assert ([RParen] + rest)[1..] == rest;
  }

  lemma {:induction false} LiteralBack(e: Expr, rest: seq<Tok>)
    requires e.Lit? || e.Atom?
    ensures ParsePrimary(Print(e) + rest) == Ok(e, rest)
  {
    var ts := Print(e) + rest;
    if e.Lit? && e.k < 0 {
      assert Head(ts[1..]) == Num(-e.k) && ts[2..] == rest;
    } else {
      assert ts[1..] == rest;
    }
  }

  lemma {:induction false} AggParts(e: Expr, ts: seq<Tok>, tail: seq<Tok>, rest: seq<Tok>)
    requires e.Agg? && Follows(rest) && Head(ts) == Ident(AggName(e.op))
    requires ParseAggHead(e.op, ts[1..]) == Ok((e.grouping, e.param), tail)
    requires ParseExpr(tail) == Ok(e.inner, [RParen] + rest)
    ensures ParsePrimary(ts) == Ok(e, rest)
  {
    AggOfName(e.op);
    assert ([RParen] + rest)[1..] == rest;
    assert ParseAggTail(e.op, (e.grouping, e.param), e.inner, [RParen] + rest) == Ok(e, rest);
  }

  lemma {:induction false} AggBack(e: Expr, body: seq<Tok>, rest: seq<Tok>)
    requires e.Agg? && ParamOk(e.op, e.param) && Follows(rest)
    requires ParseExpr(body + ([RParen] + rest)) == Ok(e.inner, [RParen] + rest)
    ensures ParsePrimary([Ident(AggName(e.op))] + AggHeadToks(e.op, e.grouping, e.param) + body + [RParen] + rest)
            == Ok(e, rest)
  {
    var name, head, tail := Ident(AggName(e.op)), AggHeadToks(e.op, e.grouping, e.param), body + ([RParen] + rest);
    Assoc([name] + head + body, [RParen], rest);
    Assoc([name] + head, body, [RParen] + rest);
    Tail(name, head, tail);
    AggHeadBack(e.op, e.grouping, e.param, tail);
    AggParts(e, [name] + head + tail, tail, rest);
  }

  /** An operand is read back by one `parsePrimary`. */
  lemma {:induction false} OperandBack(e: Expr, rest: seq<Tok>)
    requires WellFormed(e) && Follows(rest)
    ensures ParsePrimary(Operand(e) + rest) == Ok(e, rest)
    decreases e, 1
  {
    match e
    case Bin(_, _, _, _) =>
      BinBack(e, [RParen] + rest);
      ParensBack(Print(e), e, rest);
    case Agg(op, g, k, inner) =>
      ExprBack(inner, [RParen] + rest);
      AggBack(e, Print(inner), rest);
    case _ => LiteralBack(e, rest);
  }

  lemma {:induction false} BinBack(e: Expr, rest: seq<Tok>)
    requires WellFormed(e) && e.Bin? && Ends(rest)
    ensures ParseExpr(Print(e) + rest) == Ok(e, rest)
    decreases e, 0
  {
    var right := Operand(e.right) + rest;
    var tail := [e.bop] + (ModToks(e.mods) + right);
    OperandBack(e.right, rest);
    OperatorFollows(e.bop, ModToks(e.mods) + right);
    OperandBack(e.left, tail);
    ModsOperandBack(e.mods, e.right, rest);
    LinkBack(e, tail, right, rest);
    PrintBin(e, rest);
    Climbs(Operand(e.left) + tail, e.left, tail, e, rest);
  }

  lemma {:induction false} OperatorFollows(op: Tok, ts: seq<Tok>)
    requires Prec(op) >= 1
    ensures Follows([op] + ts)
  {
  }

  lemma {:induction false} ModsOperandBack(m: Mods, e: Expr, rest: seq<Tok>)
    ensures ParseMods(ModToks(m) + (Operand(e) + rest)) == Ok(m, Operand(e) + rest)
  {
    OperandStarts(e);
    ModsBack(m, Operand(e) + rest);
  }

  lemma {:induction false} PrintBin(e: Expr, rest: seq<Tok>)
    requires e.Bin?
    ensures Print(e) + rest == Operand(e.left) + ([e.bop] + (ModToks(e.mods) + (Operand(e.right) + rest)))
  {
    var l, m, r := Operand(e.left), ModToks(e.mods), Operand(e.right);
    Assoc(l + [e.bop] + m, r, rest);
    Assoc(l + [e.bop], m, r + rest);
    Assoc(l, [e.bop], m + (r + rest));
  }

  lemma {:induction false} Climbs(ts: seq<Tok>, left: Expr, tail: seq<Tok>, e: Expr, rest: seq<Tok>)
    requires ParsePrimary(ts) == Ok(left, tail) && ParseRHS(left, 1, tail) == Ok(e, rest)
    ensures ParseExpr(ts) == Ok(e, rest)
  {
  }

  lemma {:induction false} LinkBack(e: Expr, tail: seq<Tok>, right: seq<Tok>, rest: seq<Tok>)
    requires e.Bin? && Prec(e.bop) >= 1 && Ends(rest)
    requires tail == [e.bop] + (ModToks(e.mods) + right)
    requires ParseMods(ModToks(e.mods) + right) == Ok(e.mods, right)
    requires ParsePrimary(right) == Ok(e.right, rest)
    ensures ParseRHS(e.left, 1, tail) == Ok(e, rest)
  {
    assert tail[1..] == ModToks(e.mods) + right;
    assert ParseLink(tail) == Ok(Link(e.bop, e.mods, e.right), rest);
    assert ParseRHS(e.right, NextPrec(e.bop), rest) == Ok(e.right, rest);
    assert ParseRHS(e, 1, rest) == Ok(e, rest);
  }

  lemma {:induction false} ExprBack(e: Expr, rest: seq<Tok>)
    requires WellFormed(e) && Ends(rest)
    ensures ParseExpr(Print(e) + rest) == Ok(e, rest)
    decreases e, 2
  {
    if e.Bin? {
      BinBack(e, rest);
    } else {
      OperandBack(e, rest);
      assert ParseRHS(e, 1, rest) == Ok(e, rest);
    }
  }

  /** Parsing what was printed gives the same tree. */
  lemma {:induction false} RoundTrip(e: Expr)
    requires WellFormed(e)
    ensures Parse(Print(e)) == Ok(e, [])
  {
    ExprBack(e, []);
    assert Print(e) + [] == Print(e);
  }

  // ---------------------------------------------------------------------------
  // Exactly which trees read back
  // ---------------------------------------------------------------------------

  predicate ResultOk(r: Result<Expr>) {
    r.Ok? ==> WellFormed(r.value)
  }

  lemma {:induction false} PrimaryOk(ts: seq<Tok>)
    ensures ResultOk(ParsePrimary(ts))
    decreases |ts|, 0
  {
    match Head(ts)
    case LParen => ExprOk(ts[1..]);
    case Ident(name) =>
      if AggOf(name).Some? { AggregationOk(AggOf(name).value, ts[1..]); }
    case _ =>
  }

  lemma {:induction false} AggregationOk(op: AggOp, ts: seq<Tok>)
    ensures ResultOk(ParseAggregation(op, ts))
    decreases |ts|, 4
  {
    var h := ParseAggHead(op, ts);
    if h.Ok? { ExprOk(h.rest); }
  }

  lemma {:induction false} LinkOk(ts: seq<Tok>)
    ensures ParseLink(ts).Ok? ==> WellFormed(ParseLink(ts).value.operand)
    decreases |ts|, 1
  {
    if ts != [] && ParseMods(ts[1..]).Ok? { PrimaryOk(ParseMods(ts[1..]).rest); }
  }

  lemma {:induction false} RHSOk(lhs: Expr, min: nat, ts: seq<Tok>)
    requires min >= 1 && WellFormed(lhs)
    ensures ResultOk(ParseRHS(lhs, min, ts))
    decreases |ts|, 2
  {
    if Prec(Head(ts)) >= min && ParseLink(ts).Ok? {
      LinkOk(ts);
      var k, ts2 := ParseLink(ts).value, ParseLink(ts).rest;
      RHSOk(k.operand, NextPrec(k.op), ts2);
      var r := ParseRHS(k.operand, NextPrec(k.op), ts2);
      if r.Ok? { RHSOk(Bin(lhs, k.op, k.mods, r.value), min, r.rest); }
    }
  }

  lemma {:induction false} ExprOk(ts: seq<Tok>)
    ensures ResultOk(ParseExpr(ts))
    decreases |ts|, 3
  {
    PrimaryOk(ts);
    var r := ParsePrimary(ts);
    if r.Ok? { RHSOk(r.value, 1, r.rest); }
  }

  /** A tree reads back exactly when it is well-formed, and whatever the parser
      accepts is. */
  lemma {:induction false} RoundTripExactly(e: Expr, ts: seq<Tok>)
    ensures Parse(Print(e)) == Ok(e, []) <==> WellFormed(e)
    ensures Parse(ts).Ok? ==> Parse(Print(Parse(ts).value)) == Ok(Parse(ts).value, [])
  {
    ExprOk(Print(e));
    if WellFormed(e) { RoundTrip(e); }
    ExprOk(ts);
    if Parse(ts).Ok? { RoundTrip(Parse(ts).value); }
  }
}
