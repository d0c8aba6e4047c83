/** LogQL metric expressions: the precedence climber, an independent description
    of the tree it must build, and the printer. Number texts, range aggregations
    and log selectors are single tokens. */
module LogQLExpr {
  import opened Wrappers

  datatype Tok =
    | Plus | Minus | Star | Slash | Percent | Caret
    | EqEq | BangEq | Lt | LtEq | Gt | GtEq
    | AndT | OrT | Unless
    | LParen | RParen | Comma
    | By | Without | On | Ignoring | GroupLeft | GroupRight
    | Num(n: nat) | Ident(name: string) | Opaque(id: nat)
    | EOF

  datatype AggOp = Sum | Avg | MinOp | MaxOp | Count | Stddev | Stdvar | BottomK | TopK | Sort | SortDesc

  datatype Grouping = Grouping(without: bool, labels: seq<string>)

  datatype Side = Side(left: bool, extra: seq<string>)

  datatype Matching = Matching(on: bool, labels: seq<string>, side: Option<Side>)

  /** What stands between an operator and its right operand. */
  datatype Mods = Mods(returnBool: bool, matching: Option<Matching>)

  /** An operator with its modifiers and the operand after it. */
  datatype Link = Link(op: Tok, mods: Mods, operand: Expr)

  datatype Expr =
    | Lit(k: int)
    | Atom(id: nat)
    | Agg(op: AggOp, grouping: Option<Grouping>, param: Option<nat>, inner: Expr)
    | Bin(left: Expr, bop: Tok, mods: Mods, right: Expr)

  // ---------------------------------------------------------------------------
  // Operators
  // ---------------------------------------------------------------------------

  /** Six levels, from lowest to highest; 0 for a token that is no operator. */
  function Prec(t: Tok): (p: nat)
    ensures p <= 6
  {
    match t
    case OrT => 1
    case AndT => 2
    case Unless => 2
    case EqEq => 3
    case BangEq => 3
    case Lt => 3
    case LtEq => 3
    case Gt => 3
    case GtEq => 3
    case Plus => 4
    case Minus => 4
    case Star => 5
    case Slash => 5
    case Percent => 5
    case Caret => 6
    case _ => 0
  }

  /** The least level the right operand of `op` may use. */
  function NextPrec(op: Tok): nat {
    if op == Caret then Prec(op) else Prec(op) + 1
  }

  function AggName(op: AggOp): string {
    match op
    case Sum => "sum"
    case Avg => "avg"
    case MinOp => "min"
    case MaxOp => "max"
    case Count => "count"
    case Stddev => "stddev"
    case Stdvar => "stdvar"
    case BottomK => "bottomk"
    case TopK => "topk"
    case Sort => "sort"
    case SortDesc => "sort_desc"
  }

  function AggOf(name: string): Option<AggOp> {
    if name == "sum" then Some(Sum)
    else if name == "avg" then Some(Avg)
    else if name == "min" then Some(MinOp)
    else if name == "max" then Some(MaxOp)
    else if name == "count" then Some(Count)
    else if name == "stddev" then Some(Stddev)
    else if name == "stdvar" then Some(Stdvar)
    else if name == "bottomk" then Some(BottomK)
    else if name == "topk" then Some(TopK)
    else if name == "sort" then Some(Sort)
    else if name == "sort_desc" then Some(SortDesc)
    else None
  }

  lemma AggOfName(op: AggOp)
    ensures AggOf(AggName(op)) == Some(op) && AggName(op) != "bool"
  {
    match op
    case Sum =>
    case Avg =>
    case MinOp =>
    case MaxOp =>
    case Count =>
    case Stddev =>
    case Stdvar =>
    case BottomK =>
    case TopK =>
    case Sort =>
    case SortDesc =>
  }

  predicate TakesParam(op: AggOp) {
    op == TopK || op == BottomK
  }

  // ---------------------------------------------------------------------------
  // The grammar, as the parser reads it
  // ---------------------------------------------------------------------------

  datatype Result<T> = Ok(value: T, rest: seq<Tok>) | Err

  function Head(ts: seq<Tok>): Tok {
    if ts == [] then EOF else ts[0]
  }

  /** Names until something else comes, each optionally followed by a comma. */
  function Names(ts: seq<Tok>): (r: (seq<string>, seq<Tok>))
    ensures |r.1| <= |ts|
  {
    if Head(ts).Ident? then
      var (ns, rest) := Names(if Head(ts[1..]) == Comma then ts[2..] else ts[1..]);
      ([ts[0].name] + ns, rest)
    else ([], ts)
  }

  function ParseNames(ts: seq<Tok>): (r: Result<seq<string>>)
    ensures r.Ok? ==> |r.rest| < |ts|
  {
    var (ns, rest) := Names(ts);
    if Head(rest) == RParen then Ok(ns, rest[1..]) else Err
  }

  /** A parenthesised list, or nothing at all. */
  function ParseLabelList(ts: seq<Tok>): (r: Result<seq<string>>)
    ensures r.Ok? ==> |r.rest| <= |ts|
  {
    if Head(ts) != LParen then Ok([], ts) else ParseNames(ts[1..])
  }

  function ParseGrouping(ts: seq<Tok>): (r: Result<Option<Grouping>>)
    ensures r.Ok? ==> |r.rest| <= |ts|
  {
    if Head(ts) != By && Head(ts) != Without then Ok(None, ts)
    else if Head(ts[1..]) != LParen then Err
    else
      match ParseNames(ts[2..])
      case Ok(ns, rest) => Ok(Some(Grouping(ts[0] == Without, ns)), rest)
      case Err => Err
  }

  function ParseSide(ts: seq<Tok>): (r: Result<Option<Side>>)
    ensures r.Ok? ==> |r.rest| <= |ts|
  {
    if Head(ts) != GroupLeft && Head(ts) != GroupRight then Ok(None, ts)
    else
      match ParseLabelList(ts[1..])
      case Ok(ns, rest) => Ok(Some(Side(ts[0] == GroupLeft, ns)), rest)
      case Err => Err
  }

  function ParseMatching(ts: seq<Tok>): (r: Result<Option<Matching>>)
    ensures r.Ok? ==> |r.rest| <= |ts|
  {
    if Head(ts) != On && Head(ts) != Ignoring then Ok(None, ts)
    else
      match ParseLabelList(ts[1..])
      case Err => Err
      case Ok(ns, rest) =>
        match ParseSide(rest)
        case Ok(side, rest') => Ok(Some(Matching(ts[0] == On, ns, side)), rest')
        case Err => Err
  }

  function ParseMods(ts: seq<Tok>): (r: Result<Mods>)
    ensures r.Ok? ==> |r.rest| <= |ts|
  {
    var b := Head(ts) == Ident("bool");
    match ParseMatching(if b then ts[1..] else ts)
    case Ok(m, rest) => Ok(Mods(b, m), rest)
    case Err => Err
  }

  /** The numeric parameter of topk and bottomk, with its comma. */
  function ParseParam(op: AggOp, ts: seq<Tok>): (r: Result<Option<nat>>)
    ensures r.Ok? ==> |r.rest| <= |ts|
  {
    if !TakesParam(op) then Ok(None, ts)
    else if Head(ts).Num? && ts[0].n > 0 && Head(ts[1..]) == Comma then Ok(Some(ts[0].n), ts[2..])
    else Err
  }

  /** What stands between an aggregation's name and its inner expression. */
  function ParseAggHead(op: AggOp, ts: seq<Tok>): (r: Result<(Option<Grouping>, Option<nat>)>)
    ensures r.Ok? ==> |r.rest| < |ts|
  {
    match ParseGrouping(ts)
    case Err => Err
    case Ok(g, rest) =>
      if Head(rest) != LParen then Err
      else
        match ParseParam(op, rest[1..])
        case Ok(k, rest') => Ok((g, k), rest')
        case Err => Err
  }

  /** A closing parenthesis, and a trailing grouping if there was none before. */
  function ParseAggTail(op: AggOp, h: (Option<Grouping>, Option<nat>), inner: Expr, ts: seq<Tok>): (r: Result<Expr>)
    ensures r.Ok? ==> |r.rest| < |ts|
  {
    if Head(ts) != RParen then Err
    else if h.0.Some? then Ok(Agg(op, h.0, h.1, inner), ts[1..])
    else
      match ParseGrouping(ts[1..])
      case Ok(g, rest) => Ok(Agg(op, g, h.1, inner), rest)
      case Err => Err
  }

  /** A primary that starts with no parenthesis and no aggregation. */
  function ParseLiteral(ts: seq<Tok>): (r: Result<Expr>)
    ensures r.Ok? ==> |r.rest| < |ts|
  {
    match Head(ts)
    case Num(n) => Ok(Lit(n), ts[1..])
    case Minus => if Head(ts[1..]).Num? then Ok(Lit(0 - ts[1].n), ts[2..]) else Err
    case Opaque(id) => Ok(Atom(id), ts[1..])
    case _ => Err
  }

  function ParsePrimary(ts: seq<Tok>): (r: Result<Expr>)
    ensures r.Ok? ==> |r.rest| < |ts|
    decreases |ts|, 0
  {
    match Head(ts)
    case LParen => (
      match ParseExpr(ts[1..])
      case Ok(e, rest) => if Head(rest) == RParen then Ok(e, rest[1..]) else Err
      case Err => Err)
    case Ident(name) => (
      match AggOf(name)
      case None => Err
      case Some(op) => ParseAggregation(op, ts[1..]))
    case _ => ParseLiteral(ts)
  }

  /** An aggregation after its name. */
  function ParseAggregation(op: AggOp, ts: seq<Tok>): (r: Result<Expr>)
    ensures r.Ok? ==> |r.rest| < |ts|
    decreases |ts|, 4
  {
    match ParseAggHead(op, ts)
    case Err => Err
    case Ok(h, inner) =>
      match ParseExpr(inner)
      case Ok(e, rest) => ParseAggTail(op, h, e, rest)
      case Err => Err
  }

  /** An operator, its modifiers and the primary after it. */
  function ParseLink(ts: seq<Tok>): (r: Result<Link>)
    ensures r.Ok? ==> |r.rest| < |ts| && r.value.op == Head(ts)
    decreases |ts|, 1
  {
    if ts == [] then Err
    else
      match ParseMods(ts[1..])
      case Err => Err
      case Ok(m, ts1) =>
        match ParsePrimary(ts1)
        case Ok(p, ts2) => Ok(Link(ts[0], m, p), ts2)
        case Err => Err
  }

  /** The climbing loop: extend `lhs` by operators of at least level `min`. */
  function ParseRHS(lhs: Expr, min: nat, ts: seq<Tok>): (r: Result<Expr>)
    requires min >= 1
    ensures r.Ok? ==> |r.rest| <= |ts|
    decreases |ts|, 2
  {
    if Prec(Head(ts)) < min then Ok(lhs, ts)
    else
      match ParseLink(ts)
      case Err => Err
      case Ok(k, ts2) =>
        match ParseRHS(k.operand, NextPrec(k.op), ts2)
        case Err => Err
        case Ok(rhs, ts3) => ParseRHS(Bin(lhs, k.op, k.mods, rhs), min, ts3)
  }

  function ParseExpr(ts: seq<Tok>): (r: Result<Expr>)
    ensures r.Ok? ==> |r.rest| < |ts|
    decreases |ts|, 3
  {
    match ParsePrimary(ts)
    case Ok(p, rest) => ParseRHS(p, 1, rest)
    case Err => Err
  }

  function Parse(ts: seq<Tok>): Result<Expr> {
    match ParseExpr(ts)
    case Ok(e, rest) => if rest == [] then Ok(e, []) else Err
    case Err => Err
  }
}

/** The tree an operator sequence stands for, without climbing. */
module LogQLTree {
  import opened LogQLExpr

  /** A binary tree over primaries; a parenthesised operand is a leaf. */
  datatype Tree = Leaf(e: Expr) | Node(l: Tree, op: Tok, mods: Mods, r: Tree)

  function ToExpr(t: Tree): Expr {
    match t
    case Leaf(e) => e
    case Node(l, op, m, r) => Bin(ToExpr(l), op, m, ToExpr(r))
  }

  /** The in-order yield: the first operand and the links after it. */
  function First(t: Tree): Expr {
    match t
    case Leaf(e) => e
    case Node(l, _, _, _) => First(l)
  }

  function Links(t: Tree): seq<Link> {
    match t
    case Leaf(_) => []
    case Node(l, op, m, r) => Links(l) + [Link(op, m, First(r))] + Links(r)
  }

  /** An operator may be the left child of another: it binds tighter, or as
      tight on a left-associative level. */
  predicate LeftOk(child: Tok, op: Tok) {
    Prec(child) > Prec(op) || (Prec(child) == Prec(op) && op != Caret)
  }

  predicate RightOk(child: Tok, op: Tok) {
    Prec(child) > Prec(op) || (Prec(child) == Prec(op) && op == Caret)
  }

  /** Precedence and associativity hold at every node. */
  predicate Respects(t: Tree) {
    match t
    case Leaf(_) => true
    case Node(l, op, _, r) =>
      && Prec(op) >= 1
      && Respects(l) && Respects(r)
      && (l.Node? ==> LeftOk(l.op, op))
      && (r.Node? ==> RightOk(r.op, op))
  }

  lemma {:induction false} RootIsLowest(t: Tree, i: nat)
    requires Respects(t) && t.Node? && i < |Links(t)|
    ensures Prec(Links(t)[i].op) >= Prec(t.op)
    ensures i < |Links(t.l)| ==> LeftOk(Links(t)[i].op, t.op)
    ensures i > |Links(t.l)| ==> RightOk(Links(t)[i].op, t.op)
    decreases t
  {
    var n := |Links(t.l)|;
    if i < n {
      RootIsLowest(t.l, i);
      assert Links(t)[i] == Links(t.l)[i];
    } else if i > n {
      RootIsLowest(t.r, i - n - 1);
      assert Links(t)[i] == Links(t.r)[i - n - 1];
    }
  }

  lemma {:induction false} SameRoot(t: Tree, u: Tree)
    requires Respects(t) && Respects(u) && t.Node? && u.Node? && Links(t) == Links(u)
    ensures |Links(t.l)| >= |Links(u.l)|
  {
    var i, j := |Links(t.l)|, |Links(u.l)|;
    if i < j {
      assert Links(t)[i].op == t.op && Links(u)[j].op == u.op;
      RootIsLowest(t, j);
      RootIsLowest(u, i);
      assert false;
    }
  }

  /** A yield determines the tree. */
  lemma {:induction false} TreeIsUnique(t: Tree, u: Tree)
    requires Respects(t) && Respects(u)
    requires First(t) == First(u) && Links(t) == Links(u)
    ensures t == u
    decreases t
  {
    if t.Node? && u.Node? {
      SameRoot(t, u);
      SameRoot(u, t);
      var n := |Links(t.l)|;
      assert Links(t)[..n] == Links(t.l) && Links(u)[..n] == Links(u.l);
      assert Links(t)[n] == Link(t.op, t.mods, First(t.r)) && Links(u)[n] == Link(u.op, u.mods, First(u.r));
      assert Links(t)[n + 1..] == Links(t.r) && Links(u)[n + 1..] == Links(u.r);
      TreeIsUnique(t.l, u.l);
      TreeIsUnique(t.r, u.r);
    }
  }

  // ---------------------------------------------------------------------------
  // Climbing over a flat operator sequence
  // ---------------------------------------------------------------------------

  function Climb(lhs: Tree, links: seq<Link>, min: nat): (r: (Tree, seq<Link>))
    requires min >= 1
    ensures |r.1| <= |links|
    decreases |links|
  {
    if links == [] || Prec(links[0].op) < min then (lhs, links)
    else
      var k := links[0];
      var (rhs, rest) := Climb(Leaf(k.operand), links[1..], NextPrec(k.op));
      Climb(Node(lhs, k.op, k.mods, rhs), rest, min)
  }

  /** The next operator may become the parent of `t`. */
  predicate Ready(t: Tree, links: seq<Link>) {
    t.Node? && links != [] ==> LeftOk(t.op, links[0].op)
  }

  /** `t` continues `lhs` with a prefix of `links` and stops below level `min`. */
  predicate Continues(t: Tree, rest: seq<Link>, lhs: Tree, links: seq<Link>, min: nat) {
    && Respects(t) && Ready(t, rest)
    && First(t) == First(lhs)
    && Links(t) + rest == Links(lhs) + links
    && (rest != [] ==> Prec(rest[0].op) < min)
    && (t == lhs || (t.Node? && Prec(t.op) >= min))
  }

  lemma {:induction false} NodeIsReady(lhs: Tree, k: Link, rhs: Tree, rest: seq<Link>, links: seq<Link>)
    requires Respects(lhs) && Ready(lhs, [k] + links) && Prec(k.op) >= 1
    requires Continues(rhs, rest, Leaf(k.operand), links, NextPrec(k.op))
    ensures var node := Node(lhs, k.op, k.mods, rhs);
            Respects(node) && Ready(node, rest) && Links(node) + rest == Links(lhs) + ([k] + links)
  {
    NodeLinks(lhs, k, rhs, rest);
  }

  lemma {:induction false} NodeLinks(lhs: Tree, k: Link, rhs: Tree, rest: seq<Link>)
    requires First(rhs) == k.operand
    ensures Links(Node(lhs, k.op, k.mods, rhs)) + rest == Links(lhs) + ([k] + (Links(rhs) + rest))
  {
  }

  lemma {:induction false} ClimbBuildsTheTree(lhs: Tree, links: seq<Link>, min: nat)
    requires min >= 1 && Respects(lhs) && Ready(lhs, links)
    ensures var (t, rest) := Climb(lhs, links, min); Continues(t, rest, lhs, links, min)
    decreases |links|
  {
    if links != [] && Prec(links[0].op) >= min {
      var k := links[0];
      var (rhs, rest) := Climb(Leaf(k.operand), links[1..], NextPrec(k.op));
      ClimbBuildsTheTree(Leaf(k.operand), links[1..], NextPrec(k.op));
      assert links == [k] + links[1..];
      NodeIsReady(lhs, k, rhs, rest, links[1..]);
      ClimbBuildsTheTree(Node(lhs, k.op, k.mods, rhs), rest, min);
    }
  }

  /** At the top level nothing is left over. */
  lemma {:induction false} ClimbTakesAll(first: Expr, links: seq<Link>)
    requires Operators(links)
    ensures var (t, rest) := Climb(Leaf(first), links, 1);
            rest == [] && Respects(t) && First(t) == first && Links(t) == links
  {
    ClimbBuildsTheTree(Leaf(first), links, 1);
    var (t, rest) := Climb(Leaf(first), links, 1);
    assert Links(t) + rest == links;
    SuffixOperators(Links(t), rest);
    assert Links(t) + [] == Links(t);
  }

  lemma {:induction false} SuffixOperators(a: seq<Link>, b: seq<Link>)
    requires Operators(a + b)
    ensures Operators(b)
  {
    forall i | 0 <= i < |b| ensures Prec(b[i].op) >= 1 {
      assert b[i] == (a + b)[|a| + i];
    }
  }

  // ---------------------------------------------------------------------------
  // Reading the flat sequence, and the parser against it
  // ---------------------------------------------------------------------------

  /** Operators with their modifiers and operands, as long as operators come. */
  function ReadLinks(ts: seq<Tok>): (r: Result<seq<Link>>)
    ensures r.Ok? ==> |r.rest| <= |ts|
    decreases |ts|
  {
    if Prec(Head(ts)) == 0 then Ok([], ts)
    else
      match ParseLink(ts)
      case Err => Err
      case Ok(k, ts2) =>
        match ReadLinks(ts2)
        case Err => Err
        case Ok(links, rest) => Ok([k] + links, rest)
  }

  predicate Operators(links: seq<Link>) {
    forall i :: 0 <= i < |links| ==> Prec(links[i].op) >= 1
  }

  lemma {:induction false} LinksAreOperators(ts: seq<Tok>)
    requires ReadLinks(ts).Ok?
    ensures Prec(Head(ReadLinks(ts).rest)) == 0 && Operators(ReadLinks(ts).value)
    decreases |ts|
  {
    if Prec(Head(ts)) > 0 {
      var k, ts2 := ParseLink(ts).value, ParseLink(ts).rest;
      LinksAreOperators(ts2);
      ConsOperator(k, ReadLinks(ts2).value);
    }
  }

  lemma {:induction false} ConsOperator(k: Link, links: seq<Link>)
    requires Prec(k.op) >= 1 && Operators(links)
    ensures Operators([k] + links)
  {
  }

  /** From tokens `ts` the climber built `e` and left `ts'`; reading flat from
      both ends agrees, and `e` is what climbing over the flat links builds. */
  ghost predicate Matches(lhs: Tree, min: nat, ts: seq<Tok>, e: Expr, ts': seq<Tok>) {
    && min >= 1
    && ReadLinks(ts).Ok? && ReadLinks(ts').Ok?
    && ReadLinks(ts').rest == ReadLinks(ts).rest
    && var (t, rest) := Climb(lhs, ReadLinks(ts).value, min);
       e == ToExpr(t) && rest == ReadLinks(ts').value
  }

  lemma {:induction false} ClimbOnce(lhs: Tree, min: nat, k: Link, links: seq<Link>, rhs: Tree, rest: seq<Link>)
    requires min >= 1 && Prec(k.op) >= min
    requires Climb(Leaf(k.operand), links, NextPrec(k.op)) == (rhs, rest)
    ensures Climb(lhs, [k] + links, min) == Climb(Node(lhs, k.op, k.mods, rhs), rest, min)
  {
    assert ([k] + links)[1..] == links;
  }

  lemma {:induction false} MatchesOnce(lhs: Tree, min: nat, ts: seq<Tok>, k: Link, ts2: seq<Tok>, rhs: Tree,
      ts3: seq<Tok>, e: Expr, ts4: seq<Tok>)
    requires min >= 1 && Prec(k.op) >= min
    requires ReadLinks(ts2).Ok? && ReadLinks(ts).Ok?
    requires ReadLinks(ts).value == [k] + ReadLinks(ts2).value && ReadLinks(ts).rest == ReadLinks(ts2).rest
    requires ReadLinks(ts3).Ok? && ReadLinks(ts3).rest == ReadLinks(ts2).rest
    requires Climb(Leaf(k.operand), ReadLinks(ts2).value, NextPrec(k.op)) == (rhs, ReadLinks(ts3).value)
    requires Matches(Node(lhs, k.op, k.mods, rhs), min, ts3, e, ts4)
    ensures Matches(lhs, min, ts, e, ts4)
  {
    ClimbOnce(lhs, min, k, ReadLinks(ts2).value, rhs, ReadLinks(ts3).value);
  }

  /** Where reading flat succeeds, the climber succeeds and builds the climbed tree. */
  lemma {:induction false} ParserClimbs(lhs: Tree, min: nat, ts: seq<Tok>)
    requires min >= 1 && ReadLinks(ts).Ok?
    ensures var r := ParseRHS(ToExpr(lhs), min, ts); r.Ok? && Matches(lhs, min, ts, r.value, r.rest)
    decreases |ts|
  {
    if Prec(Head(ts)) >= min {
      var k, ts2 := ParseLink(ts).value, ParseLink(ts).rest;
      ParserClimbs(Leaf(k.operand), NextPrec(k.op), ts2);
      var r := ParseRHS(k.operand, NextPrec(k.op), ts2);
      var rhs := Climb(Leaf(k.operand), ReadLinks(ts2).value, NextPrec(k.op)).0;
      var node := Node(lhs, k.op, k.mods, rhs);
      ParserClimbs(node, min, r.rest);
      var r' := ParseRHS(ToExpr(node), min, r.rest);
      MatchesOnce(lhs, min, ts, k, ts2, rhs, r.rest, r'.value, r'.rest);
    }
  }

  /** Where the climber succeeds, reading flat from its start succeeds if reading
      flat from where it stopped does. */
  lemma {:induction false} ParserReadsFlat(lhs: Expr, min: nat, ts: seq<Tok>)
    requires min >= 1
    ensures var r := ParseRHS(lhs, min, ts); r.Ok? && ReadLinks(r.rest).Ok? ==> ReadLinks(ts).Ok?
    decreases |ts|
  {
    var r := ParseRHS(lhs, min, ts);
    if r.Ok? && ReadLinks(r.rest).Ok? && Prec(Head(ts)) >= min {
      var k, ts2 := ParseLink(ts).value, ParseLink(ts).rest;
      var rhs := ParseRHS(k.operand, NextPrec(k.op), ts2);
      ParserReadsFlat(Bin(lhs, k.op, k.mods, rhs.value), min, rhs.rest);
      ParserReadsFlat(k.operand, NextPrec(k.op), ts2);
    }
  }

  lemma {:induction false} TopLevelStops(lhs: Expr, ts: seq<Tok>)
    ensures var r := ParseRHS(lhs, 1, ts); r.Ok? ==> Prec(Head(r.rest)) == 0
    decreases |ts|
  {
    if Prec(Head(ts)) >= 1 && ParseRHS(lhs, 1, ts).Ok? {
      var k, ts2 := ParseLink(ts).value, ParseLink(ts).rest;
      var rhs := ParseRHS(k.operand, NextPrec(k.op), ts2);
      TopLevelStops(Bin(lhs, k.op, k.mods, rhs.value), rhs.rest);
    }
  }

  /** The flat reading of an expression. */
  ghost predicate Flat(ts: seq<Tok>, first: Expr, links: seq<Link>, rest: seq<Tok>) {
    ParsePrimary(ts).Ok? && ParsePrimary(ts).value == first && ReadLinks(ParsePrimary(ts).rest) == Ok(links, rest)
  }

  /** The parser accepts exactly what reads flat as operands and operators, and
      builds the one tree with that yield that respects the six levels, left
      associative except for `^`. */
  lemma {:induction false} PrecedenceIsRespected(ts: seq<Tok>, e: Expr, rest: seq<Tok>)
    ensures ParseExpr(ts) == Ok(e, rest) <==>
            exists t: Tree :: Respects(t) && e == ToExpr(t) && Flat(ts, First(t), Links(t), rest)
  {
    if ParseExpr(ts) == Ok(e, rest) {
      var t := AcceptedTree(ts, e, rest);
    }
    forall t: Tree | Respects(t) && e == ToExpr(t) && Flat(ts, First(t), Links(t), rest)
      ensures ParseExpr(ts) == Ok(e, rest)
    {
      TreeIsAccepted(ts, t, rest);
    }
  }

  lemma {:induction false} AcceptedTree(ts: seq<Tok>, e: Expr, rest: seq<Tok>) returns (t: Tree)
    requires ParseExpr(ts) == Ok(e, rest)
    ensures Respects(t) && e == ToExpr(t) && Flat(ts, First(t), Links(t), rest)
  {
    var p, ts1 := ParsePrimary(ts).value, ParsePrimary(ts).rest;
    TopLevelStops(p, ts1);
    ParserReadsFlat(p, 1, ts1);
    ParserClimbs(Leaf(p), 1, ts1);
    LinksAreOperators(ts1);
    ClimbTakesAll(p, ReadLinks(ts1).value);
    t := Climb(Leaf(p), ReadLinks(ts1).value, 1).0;
  }

  lemma {:induction false} TreeIsAccepted(ts: seq<Tok>, t: Tree, rest: seq<Tok>)
    requires Respects(t) && Flat(ts, First(t), Links(t), rest)
    ensures ParseExpr(ts) == Ok(ToExpr(t), rest)
  {
    var p, ts1 := ParsePrimary(ts).value, ParsePrimary(ts).rest;
    ParserClimbs(Leaf(p), 1, ts1);
    LinksAreOperators(ts1);
    ClimbTakesAll(p, Links(t));
    var u := Climb(Leaf(p), Links(t), 1).0;
    TreeIsUnique(t, u);
    TopLevelStops(p, ts1);
  }
}
