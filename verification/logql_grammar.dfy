/** The concrete syntax of LogQL metric expressions, written down without the
    parser: which token sequences spell an expression, and which tree each of
    them stands for. Label lists may omit commas, matching clauses may omit their
    lists, and an aggregation may carry its grouping before or after its operand. */
module LogQLGrammar {
  import opened LogQLExpr
  import opened LogQLTree
  import opened Wrappers

  // ---------------------------------------------------------------------------
  // Concrete syntax
  // ---------------------------------------------------------------------------

  /** A label name and whether a comma follows it. */
  datatype Item = Item(name: string, comma: bool)

  datatype Labels = Omitted | Listed(items: seq<Item>)

  datatype GroupClause = GroupClause(without: bool, items: seq<Item>)

  datatype SideClause = SideClause(left: bool, labels: Labels)

  datatype MatchClause = MatchClause(on: bool, labels: Labels, side: Option<SideClause>)

  datatype ModClause = ModClause(returnBool: bool, matching: Option<MatchClause>)

  datatype Primary =
    | Number(n: nat)
    | Negative(n: nat)
    | Whole(id: nat)
    | Parens(inner: Infix)
    | Aggregate(op: AggOp, leading: Option<GroupClause>, param: Option<nat>, inner: Infix,
                trailing: Option<GroupClause>)

  /** Primaries with operators between them, not yet grouped into a tree. */
  datatype Infix = Infix(first: Primary, chain: Chain)

  datatype Chain = End | Then(op: Tok, mods: ModClause, operand: Primary, chain: Chain)

  // ---------------------------------------------------------------------------
  // Its tokens
  // ---------------------------------------------------------------------------

  function ItemToks(items: seq<Item>): seq<Tok> {
    if items == [] then []
    else [Ident(items[0].name)] + (if items[0].comma then [Comma] else []) + ItemToks(items[1..])
  }

  function ListToks(items: seq<Item>): seq<Tok> {
    [LParen] + ItemToks(items) + [RParen]
  }

  function LabelToks(l: Labels): seq<Tok> {
    match l
    case Omitted => []
    case Listed(items) => ListToks(items)
  }

  function GroupToks(g: Option<GroupClause>): seq<Tok> {
    match g
    case None => []
    case Some(c) => [if c.without then Without else By] + ListToks(c.items)
  }

  function SideToks(s: Option<SideClause>): seq<Tok> {
    match s
    case None => []
    case Some(c) => [if c.left then GroupLeft else GroupRight] + LabelToks(c.labels)
  }

  function MatchToks(m: Option<MatchClause>): seq<Tok> {
    match m
    case None => []
    case Some(c) => [if c.on then On else Ignoring] + LabelToks(c.labels) + SideToks(c.side)
  }

  function ModToks(m: ModClause): seq<Tok> {
    (if m.returnBool then [Ident("bool")] else []) + MatchToks(m.matching)
  }

  function ParamToks(k: Option<nat>): seq<Tok> {
    match k
    case None => []
    case Some(n) => [Num(n), Comma]
  }

  function PrimaryToks(p: Primary): seq<Tok> {
    match p
    case Number(n) => [Num(n)]
    case Negative(n) => [Minus, Num(n)]
    case Whole(id) => [Opaque(id)]
    case Parens(s) => [LParen] + InfixToks(s) + [RParen]
    case Aggregate(op, g, k, s, h) =>
      [Ident(AggName(op))] + GroupToks(g) + [LParen] + ParamToks(k) + InfixToks(s) + [RParen] + GroupToks(h)
  }

  function InfixToks(s: Infix): seq<Tok> {
    PrimaryToks(s.first) + ChainToks(s.chain)
  }

  function ChainToks(c: Chain): seq<Tok> {
    match c
    case End => []
    case Then(op, m, p, rest) => [op] + ModToks(m) + PrimaryToks(p) + ChainToks(rest)
  }

  // ---------------------------------------------------------------------------
  // Its meaning
  // ---------------------------------------------------------------------------

  function ItemNames(items: seq<Item>): seq<string> {
    if items == [] then [] else [items[0].name] + ItemNames(items[1..])
  }

  function LabelNames(l: Labels): seq<string> {
    if l.Omitted? then [] else ItemNames(l.items)
  }

  function GroupOf(g: Option<GroupClause>): Option<Grouping> {
    match g
    case None => None
    case Some(c) => Some(Grouping(c.without, ItemNames(c.items)))
  }

  function SideOf(s: Option<SideClause>): Option<Side> {
    match s
    case None => None
    case Some(c) => Some(Side(c.left, LabelNames(c.labels)))
  }

  function MatchOf(m: Option<MatchClause>): Option<Matching> {
    match m
    case None => None
    case Some(c) => Some(Matching(c.on, LabelNames(c.labels), SideOf(c.side)))
  }

  function ModsOf(m: ModClause): Mods {
    Mods(m.returnBool, MatchOf(m.matching))
  }

  ghost predicate PrimaryMeans(p: Primary, e: Expr) {
    match p
    case Number(n) => e == Lit(n)
    case Negative(n) => e == Lit(0 - n)
    case Whole(id) => e == Atom(id)
    case Parens(s) => InfixMeans(s, e)
    case Aggregate(op, g, k, s, h) =>
      && e.Agg? && e.op == op && e.param == k && InfixMeans(s, e.inner)
      && e.grouping == GroupOf(if g.Some? then g else h)
  }

  /** The tree over the operands that respects the levels of its operators. */
  ghost predicate InfixMeans(s: Infix, e: Expr) {
    exists t: Tree ::
      Respects(t) && e == ToExpr(t) && PrimaryMeans(s.first, First(t)) && ChainMeans(s.chain, Links(t))
  }

  ghost predicate ChainMeans(c: Chain, links: seq<Link>) {
    match c
    case End => links == []
    case Then(op, m, p, rest) =>
      && links != [] && links[0].op == op && links[0].mods == ModsOf(m)
      && PrimaryMeans(p, links[0].operand) && ChainMeans(rest, links[1..])
  }

  // ---------------------------------------------------------------------------
  // Which of it is proper
  // ---------------------------------------------------------------------------

  /** An omitted list may not stand before a parenthesis, which would be read as it. */
  predicate ListFits(l: Labels, next: Tok) {
    l.Omitted? ==> next != LParen
  }

  predicate ModsFit(m: ModClause, next: Tok) {
    m.matching.Some? ==>
      match m.matching.value.side
      case None => ListFits(m.matching.value.labels, next)
      case Some(s) => ListFits(s.labels, next)
  }

  /** Exactly topk and bottomk carry a parameter, which is positive. */
  predicate ParamFits(op: AggOp, k: Option<nat>) {
    if op == TopK || op == BottomK then k.Some? && k.value > 0 else k.None?
  }

  predicate PrimaryProper(p: Primary) {
    match p
    case Parens(s) => InfixProper(s)
    case Aggregate(op, g, k, s, h) => InfixProper(s) && ParamFits(op, k) && (g.None? || h.None?)
    case _ => true
  }

  predicate InfixProper(s: Infix) {
    PrimaryProper(s.first) && ChainProper(s.chain)
  }

  predicate ChainProper(c: Chain) {
    match c
    case End => true
    case Then(op, m, p, rest) =>
      Prec(op) >= 1 && ModsFit(m, Head(PrimaryToks(p))) && PrimaryProper(p) && ChainProper(rest)
  }

  /** The tokens spell the expression. */
  ghost predicate Derives(e: Expr, ts: seq<Tok>) {
    exists s: Infix :: InfixProper(s) && InfixToks(s) == ts && InfixMeans(s, e)
  }

  // ---------------------------------------------------------------------------
  // What is spelled is read
  // ---------------------------------------------------------------------------

  lemma {:induction false} Assoc(a: seq<Tok>, b: seq<Tok>, c: seq<Tok>)
    ensures a + b + c == a + (b + c)
  {
  }

  lemma {:induction false} Tail(t: Tok, a: seq<Tok>)
    ensures Head([t] + a) == t && ([t] + a)[1..] == a
  {
  }

  lemma {:induction false} ItemCons(i: Item, items: seq<Item>, rest: seq<Tok>)
    ensures ItemToks([i] + items) + rest ==
      [Ident(i.name)] + (if i.comma then [Comma] else []) + (ItemToks(items) + rest)
  {
    assert ([i] + items)[1..] == items;
    Assoc([Ident(i.name)] + (if i.comma then [Comma] else []), ItemToks(items), rest);
  }

  lemma {:induction false} NamesCons(i: Item, tail: seq<Tok>)
    requires i.comma || Head(tail) != Comma
    ensures Names([Ident(i.name)] + (if i.comma then [Comma] else []) + tail) ==
      ([i.name] + Names(tail).0, Names(tail).1)
  {
    if i.comma {
      var ts := [Ident(i.name)] + [Comma] + tail;
      assert Head(ts[1..]) == Comma && ts[2..] == tail;
    } else {
      var ts := [Ident(i.name)] + [] + tail;
      assert ts[1..] == tail;
    }
  }

  lemma {:induction false} ItemsRead(items: seq<Item>, rest: seq<Tok>)
    requires Head(rest) == RParen
    ensures Names(ItemToks(items) + rest) == (ItemNames(items), rest)
    ensures Head(ItemToks(items) + rest) != Comma
  {
    if items == [] {
      assert ItemToks(items) + rest == rest;
    } else {
      ItemsRead(items[1..], rest);
      assert items == [items[0]] + items[1..];
      ItemCons(items[0], items[1..], rest);
      NamesCons(items[0], ItemToks(items[1..]) + rest);
    }
  }

  lemma {:induction false} ListRead(items: seq<Item>, rest: seq<Tok>)
    ensures var ts := ListToks(items) + rest;
      Head(ts) == LParen && ParseNames(ts[1..]) == Ok(ItemNames(items), rest)
  {
    var close := [RParen] + rest;
    Assoc([LParen] + ItemToks(items), [RParen], rest);
    Assoc([LParen], ItemToks(items), close);
    Tail(LParen, ItemToks(items) + close);
    Tail(RParen, rest);
    ItemsRead(items, close);
  }

  lemma {:induction false} LabelsRead(l: Labels, rest: seq<Tok>)
    requires ListFits(l, Head(rest))
    ensures ParseLabelList(LabelToks(l) + rest) == Ok(LabelNames(l), rest)
  {
    if l.Omitted? {
      assert LabelToks(l) + rest == rest;
    } else {
      ListRead(l.items, rest);
    }
  }

  lemma {:induction false} GroupRead(g: Option<GroupClause>, rest: seq<Tok>)
    requires g.None? ==> Head(rest) != By && Head(rest) != Without
    ensures ParseGrouping(GroupToks(g) + rest) == Ok(GroupOf(g), rest)
  {
    match g
    case None => assert GroupToks(g) + rest == rest;
    case Some(c) =>
      var list := ListToks(c.items) + rest;
      var word := if c.without then Without else By;
      Assoc([word], ListToks(c.items), rest);
      Tail(word, list);
      ListRead(c.items, rest);
      assert ([word] + list)[2..] == list[1..];
  }

  predicate StartsPrimary(t: Tok) {
    t == LParen || t.Num? || t == Minus || t.Opaque? || (t.Ident? && t.name != "bool")
  }

  lemma {:induction false} SideRead(s: Option<SideClause>, rest: seq<Tok>)
    requires StartsPrimary(Head(rest)) && (s.Some? ==> ListFits(s.value.labels, Head(rest)))
    ensures ParseSide(SideToks(s) + rest) == Ok(SideOf(s), rest)
  {
    match s
    case None => assert SideToks(s) + rest == rest;
    case Some(c) =>
      var word := if c.left then GroupLeft else GroupRight;
      Assoc([word], LabelToks(c.labels), rest);
      Tail(word, LabelToks(c.labels) + rest);
      LabelsRead(c.labels, rest);
  }

  lemma {:induction false} MatchRead(m: Option<MatchClause>, rest: seq<Tok>)
    requires StartsPrimary(Head(rest)) && ModsFit(ModClause(false, m), Head(rest))
    ensures ParseMatching(MatchToks(m) + rest) == Ok(MatchOf(m), rest)
  {
    match m
    case None => assert MatchToks(m) + rest == rest;
    case Some(c) =>
      var word, side := if c.on then On else Ignoring, SideToks(c.side) + rest;
      Assoc([word] + LabelToks(c.labels), SideToks(c.side), rest);
      Assoc([word], LabelToks(c.labels), side);
      Tail(word, LabelToks(c.labels) + side);
      SideStarts(c.side, rest);
      LabelsRead(c.labels, side);
      SideRead(c.side, rest);
      MatchParts([word] + (LabelToks(c.labels) + side), c, side, rest);
  }

  lemma {:induction false} SideStarts(s: Option<SideClause>, rest: seq<Tok>)
    ensures Head(SideToks(s) + rest) ==
      match s case None => Head(rest) case Some(c) => if c.left then GroupLeft else GroupRight
  {
    if s.None? { assert SideToks(s) + rest == rest; }
  }

  lemma {:induction false} MatchParts(ts: seq<Tok>, c: MatchClause, side: seq<Tok>, rest: seq<Tok>)
    requires Head(ts) == if c.on then On else Ignoring
    requires ParseLabelList(ts[1..]) == Ok(LabelNames(c.labels), side) && ParseSide(side) == Ok(SideOf(c.side), rest)
    ensures ParseMatching(ts) == Ok(MatchOf(Some(c)), rest)
  {
  }

  lemma {:induction false} NotBool(m: Option<MatchClause>, rest: seq<Tok>)
    requires StartsPrimary(Head(rest))
    ensures Head(MatchToks(m) + rest) != Ident("bool")
  {
    match m
    case None => assert MatchToks(m) + rest == rest;
    case Some(c) => assert Head(MatchToks(m) + rest) == if c.on then On else Ignoring;
  }

  lemma {:induction false} ModsParts(ts: seq<Tok>, b: bool, inner: seq<Tok>, m: Option<Matching>, rest: seq<Tok>)
    requires ParseMatching(inner) == Ok(m, rest)
    requires if b then Head(ts) == Ident("bool") && ts[1..] == inner else Head(ts) != Ident("bool") && ts == inner
    ensures ParseMods(ts) == Ok(Mods(b, m), rest)
  {
  }

  lemma {:induction false} ModsRead(m: ModClause, rest: seq<Tok>)
    requires StartsPrimary(Head(rest)) && ModsFit(m, Head(rest))
    ensures ParseMods(ModToks(m) + rest) == Ok(ModsOf(m), rest)
  {
    var toks := MatchToks(m.matching) + rest;
    MatchRead(m.matching, rest);
    if m.returnBool {
      Assoc([Ident("bool")], MatchToks(m.matching), rest);
      Tail(Ident("bool"), toks);
    } else {
      assert [] + MatchToks(m.matching) == MatchToks(m.matching);
      NotBool(m.matching, rest);
    }
    ModsParts(ModToks(m) + rest, m.returnBool, toks, MatchOf(m.matching), rest);
  }

  lemma {:induction false} ParamRead(op: AggOp, k: Option<nat>, rest: seq<Tok>)
    requires ParamFits(op, k)
    ensures ParseParam(op, ParamToks(k) + rest) == Ok(k, rest)
  {
    var ts := ParamToks(k) + rest;
    if k.Some? {
      assert Head(ts[1..]) == Comma && ts[2..] == rest;
    } else {
      assert ts == rest;
    }
  }

  lemma {:induction false} PrimaryStarts(p: Primary)
    ensures PrimaryToks(p) != [] && StartsPrimary(PrimaryToks(p)[0])
  {
    if p.Aggregate? {
      AggOfName(p.op);
      AggregateToks(p, []);
    }
  }

  /** The tokens of an aggregation, from left to right. */
  lemma {:induction false} AggregateToks(p: Primary, rest: seq<Tok>)
    requires p.Aggregate?
    ensures PrimaryToks(p) + rest ==
      [Ident(AggName(p.op))] + (GroupToks(p.leading) + ([LParen] + (ParamToks(p.param)
      + (InfixToks(p.inner) + ([RParen] + (GroupToks(p.trailing) + rest))))))
    ensures PrimaryToks(p) != [] && PrimaryToks(p)[0] == Ident(AggName(p.op))
  {
    var n, g, k := [Ident(AggName(p.op))], GroupToks(p.leading), ParamToks(p.param);
    var s, h := InfixToks(p.inner), GroupToks(p.trailing);
    Assoc(n + g + [LParen] + k + s + [RParen], h, rest);
    Assoc(n + g + [LParen] + k + s, [RParen], h + rest);
    Assoc(n + g + [LParen] + k, s, [RParen] + (h + rest));
    Assoc(n + g + [LParen], k, s + ([RParen] + (h + rest)));
    Assoc(n + g, [LParen], k + (s + ([RParen] + (h + rest))));
    Assoc(n, g, [LParen] + (k + (s + ([RParen] + (h + rest)))));
  }

  predicate Follows(rest: seq<Tok>) {
    Head(rest) != By && Head(rest) != Without
  }

  predicate Ends(rest: seq<Tok>) {
    Prec(Head(rest)) == 0 && Follows(rest)
  }

  lemma {:induction false} HeadRead(p: Primary, tail: seq<Tok>)
    requires p.Aggregate? && ParamFits(p.op, p.param)
    ensures ParseAggHead(p.op, GroupToks(p.leading) + ([LParen] + (ParamToks(p.param) + tail))) ==
      Ok((GroupOf(p.leading), p.param), tail)
  {
    GroupRead(p.leading, [LParen] + (ParamToks(p.param) + tail));
    Tail(LParen, ParamToks(p.param) + tail);
    ParamRead(p.op, p.param, tail);
  }

  lemma {:induction false} TailRead(p: Primary, inner: Expr, rest: seq<Tok>)
    requires p.Aggregate? && (p.leading.None? || p.trailing.None?) && Follows(rest)
    ensures ParseAggTail(p.op, (GroupOf(p.leading), p.param), inner, [RParen] + (GroupToks(p.trailing) + rest)) ==
      Ok(Agg(p.op, GroupOf(if p.leading.Some? then p.leading else p.trailing), p.param, inner), rest)
  {
    Tail(RParen, GroupToks(p.trailing) + rest);
    GroupRead(p.trailing, rest);
    if p.leading.Some? { assert GroupToks(p.trailing) + rest == rest; }
  }

  lemma {:induction false} AggregateRead(p: Primary, e: Expr, rest: seq<Tok>)
    requires p.Aggregate? && PrimaryProper(p) && Follows(rest) && PrimaryMeans(p, e)
    requires var close := [RParen] + (GroupToks(p.trailing) + rest);
      ParseExpr(InfixToks(p.inner) + close) == Ok(e.inner, close)
    ensures ParsePrimary(PrimaryToks(p) + rest) == Ok(e, rest)
  {
    var close := [RParen] + (GroupToks(p.trailing) + rest);
    var tail := GroupToks(p.leading) + ([LParen] + (ParamToks(p.param) + (InfixToks(p.inner) + close)));
    AggregateToks(p, rest);
    Tail(Ident(AggName(p.op)), tail);
    AggOfName(p.op);
    HeadRead(p, InfixToks(p.inner) + close);
    TailRead(p, e.inner, rest);
    AggregateParts([Ident(AggName(p.op))] + tail, p.op, (GroupOf(p.leading), p.param), InfixToks(p.inner) + close,
                   e.inner, close, e, rest);
  }

  lemma {:induction false} AggregateParts(ts: seq<Tok>, op: AggOp, h: (Option<Grouping>, Option<nat>),
      tail: seq<Tok>, inner: Expr, close: seq<Tok>, e: Expr, rest: seq<Tok>)
    requires Head(ts).Ident? && AggOf(ts[0].name) == Some(op) && ParseAggHead(op, ts[1..]) == Ok(h, tail)
    requires ParseExpr(tail) == Ok(inner, close) && ParseAggTail(op, h, inner, close) == Ok(e, rest)
    ensures ParsePrimary(ts) == Ok(e, rest)
  {
    AggregationParts(op, ts[1..], h, tail, inner, close, e, rest);
    NamedPrimary(ts, op);
  }

  lemma {:induction false} AggregationParts(op: AggOp, ts: seq<Tok>, h: (Option<Grouping>, Option<nat>),
      tail: seq<Tok>, inner: Expr, close: seq<Tok>, e: Expr, rest: seq<Tok>)
    requires ParseAggHead(op, ts) == Ok(h, tail)
    requires ParseExpr(tail) == Ok(inner, close) && ParseAggTail(op, h, inner, close) == Ok(e, rest)
    ensures ParseAggregation(op, ts) == Ok(e, rest)
  {
  }

  lemma {:induction false} NamedPrimary(ts: seq<Tok>, op: AggOp)
    requires Head(ts).Ident? && AggOf(ts[0].name) == Some(op)
    ensures ParsePrimary(ts) == ParseAggregation(op, ts[1..])
  {
  }

  lemma {:induction false} ParensRead(p: Primary, e: Expr, rest: seq<Tok>)
    requires p.Parens? && ParseExpr(InfixToks(p.inner) + ([RParen] + rest)) == Ok(e, [RParen] + rest)
    ensures ParsePrimary(PrimaryToks(p) + rest) == Ok(e, rest)
  {
    Assoc([LParen] + InfixToks(p.inner), [RParen], rest);
    Assoc([LParen], InfixToks(p.inner), [RParen] + rest);
    Tail(LParen, InfixToks(p.inner) + ([RParen] + rest));
    Tail(RParen, rest);
  }

  lemma {:induction false} PrimaryRead(p: Primary, e: Expr, rest: seq<Tok>)
    requires PrimaryProper(p) && PrimaryMeans(p, e) && Follows(rest)
    ensures ParsePrimary(PrimaryToks(p) + rest) == Ok(e, rest)
    decreases p, 0
  {
    match p
    case Parens(s) =>
      InfixRead(s, e, [RParen] + rest);
      ParensRead(p, e, rest);
    case Aggregate(op, g, k, s, h) =>
      InfixRead(s, e.inner, [RParen] + (GroupToks(h) + rest));
      AggregateRead(p, e, rest);
    case _ => LiteralRead(p, e, rest);
  }

  lemma {:induction false} LiteralRead(p: Primary, e: Expr, rest: seq<Tok>)
    requires p.Number? || p.Negative? || p.Whole?
    requires PrimaryMeans(p, e)
    ensures ParsePrimary(PrimaryToks(p) + rest) == Ok(e, rest)
  {
    var ts := PrimaryToks(p) + rest;
    if p.Negative? {
      assert Head(ts[1..]) == Num(p.n) && ts[2..] == rest;
    } else {
      assert ts[1..] == rest;
    }
  }

  lemma {:induction false} ChainToksAre(c: Chain, rest: seq<Tok>)
    requires c.Then?
    ensures ChainToks(c) + rest == [c.op] + (ModToks(c.mods) + (PrimaryToks(c.operand) + (ChainToks(c.chain) + rest)))
  {
    var m, p, r := ModToks(c.mods), PrimaryToks(c.operand), ChainToks(c.chain);
    Assoc([c.op] + m + p, r, rest);
    Assoc([c.op] + m, p, r + rest);
    Assoc([c.op], m, p + (r + rest));
  }

  /** What follows an operand in a chain is an operator or what follows the chain. */
  lemma {:induction false} ChainFollows(c: Chain, rest: seq<Tok>)
    requires ChainProper(c) && Ends(rest)
    ensures Follows(ChainToks(c) + rest)
  {
    if c.End? {
      assert ChainToks(c) + rest == rest;
    } else {
      ChainToksAre(c, rest);
      OperatorFollows(c.op, ModToks(c.mods) + (PrimaryToks(c.operand) + (ChainToks(c.chain) + rest)));
    }
  }

  lemma {:induction false} OperatorFollows(op: Tok, ts: seq<Tok>)
    requires Prec(op) >= 1
    ensures Follows([op] + ts)
  {
  }

  lemma {:induction false} LinkRead(c: Chain, k: Link, tail: seq<Tok>)
    requires c.Then? && ModsFit(c.mods, Head(PrimaryToks(c.operand))) && k.op == c.op && k.mods == ModsOf(c.mods)
    requires ParsePrimary(PrimaryToks(c.operand) + tail) == Ok(k.operand, tail)
    ensures ParseLink([c.op] + (ModToks(c.mods) + (PrimaryToks(c.operand) + tail))) == Ok(k, tail)
  {
    PrimaryStarts(c.operand);
    ModsRead(c.mods, PrimaryToks(c.operand) + tail);
    Tail(c.op, ModToks(c.mods) + (PrimaryToks(c.operand) + tail));
  }

  lemma {:induction false} ChainRead(c: Chain, links: seq<Link>, rest: seq<Tok>)
    requires ChainProper(c) && ChainMeans(c, links) && Ends(rest)
    ensures ReadLinks(ChainToks(c) + rest) == Ok(links, rest)
    decreases c, 0
  {
    if c.End? {
      assert ChainToks(c) + rest == rest;
    } else {
      var tail := ChainToks(c.chain) + rest;
      ChainFollows(c.chain, rest);
      PrimaryRead(c.operand, links[0].operand, tail);
      ChainRead(c.chain, links[1..], rest);
      OneLinkRead(c, links[0], links[1..], rest);
      assert links == [links[0]] + links[1..];
    }
  }

  lemma {:induction false} OneLinkRead(c: Chain, k: Link, links: seq<Link>, rest: seq<Tok>)
    requires c.Then? && Prec(c.op) >= 1 && ModsFit(c.mods, Head(PrimaryToks(c.operand)))
    requires k.op == c.op && k.mods == ModsOf(c.mods)
    requires var tail := ChainToks(c.chain) + rest;
      ParsePrimary(PrimaryToks(c.operand) + tail) == Ok(k.operand, tail) && ReadLinks(tail) == Ok(links, rest)
    ensures ReadLinks(ChainToks(c) + rest) == Ok([k] + links, rest)
  {
    var tail := ChainToks(c.chain) + rest;
    LinkRead(c, k, tail);
    ChainToksAre(c, rest);
    LinksCons([c.op] + (ModToks(c.mods) + (PrimaryToks(c.operand) + tail)), k, tail, links, rest);
  }

  lemma {:induction false} LinksCons(ts: seq<Tok>, k: Link, tail: seq<Tok>, links: seq<Link>, rest: seq<Tok>)
    requires Prec(Head(ts)) >= 1 && ParseLink(ts) == Ok(k, tail) && ReadLinks(tail) == Ok(links, rest)
    ensures ReadLinks(ts) == Ok([k] + links, rest)
  {
  }

  lemma {:induction false} InfixRead(s: Infix, e: Expr, rest: seq<Tok>)
    requires InfixProper(s) && InfixMeans(s, e) && Ends(rest)
    ensures ParseExpr(InfixToks(s) + rest) == Ok(e, rest)
    decreases s, 1
  {
    var t: Tree :|
      Respects(t) && e == ToExpr(t) && PrimaryMeans(s.first, First(t)) && ChainMeans(s.chain, Links(t));
    var tail := ChainToks(s.chain) + rest;
    Assoc(PrimaryToks(s.first), ChainToks(s.chain), rest);
    ChainFollows(s.chain, rest);
    PrimaryRead(s.first, First(t), tail);
    ChainRead(s.chain, Links(t), rest);
    TreeIsAccepted(InfixToks(s) + rest, t, rest);
  }

  // ---------------------------------------------------------------------------
  // What is read is spelled
  // ---------------------------------------------------------------------------

  lemma {:induction false} Uncons(ts: seq<Tok>)
    requires ts != []
    ensures ts == [ts[0]] + ts[1..]
  {
  }

  lemma {:induction false} ItemsSpelled(ts: seq<Tok>) returns (items: seq<Item>)
    ensures ItemToks(items) + Names(ts).1 == ts && ItemNames(items) == Names(ts).0
    decreases |ts|
  {
    items := [];
    if Head(ts).Ident? {
      var comma := Head(ts[1..]) == Comma;
      var tail := if comma then ts[2..] else ts[1..];
      var rest := ItemsSpelled(tail);
      items := [Item(ts[0].name, comma)] + rest;
      assert items[1..] == rest;
      ItemCons(items[0], rest, Names(ts).1);
      if comma { assert ts == [ts[0], Comma] + tail; } else { Uncons(ts); }
    }
  }

  lemma {:induction false} ListSpelled(ts: seq<Tok>) returns (items: seq<Item>)
    requires Head(ts) == LParen && ParseNames(ts[1..]).Ok?
    ensures ListToks(items) + ParseNames(ts[1..]).rest == ts && ItemNames(items) == ParseNames(ts[1..]).value
  {
    items := ItemsSpelled(ts[1..]);
    var close := Names(ts[1..]).1;
    Uncons(ts);
    Uncons(close);
    Assoc([LParen] + ItemToks(items), [RParen], close[1..]);
    Assoc([LParen], ItemToks(items), close);
  }

  lemma {:induction false} LabelsSpelled(ts: seq<Tok>) returns (l: Labels)
    requires ParseLabelList(ts).Ok?
    ensures var r := ParseLabelList(ts);
      LabelToks(l) + r.rest == ts && LabelNames(l) == r.value && ListFits(l, Head(r.rest))
  {
    if Head(ts) != LParen {
      l := Omitted;
      assert [] + ts == ts;
    } else {
      var items := ListSpelled(ts);
      l := Listed(items);
    }
  }

  lemma {:induction false} GroupSpelled(ts: seq<Tok>) returns (g: Option<GroupClause>)
    requires ParseGrouping(ts).Ok?
    ensures var r := ParseGrouping(ts); GroupToks(g) + r.rest == ts && GroupOf(g) == r.value
  {
    if Head(ts) != By && Head(ts) != Without {
      g := None;
      assert [] + ts == ts;
    } else {
      var list := ts[1..];
      assert list[1..] == ts[2..];
      var items := ListSpelled(list);
      g := Some(GroupClause(ts[0] == Without, items));
      Uncons(ts);
      Assoc([ts[0]], ListToks(items), ParseGrouping(ts).rest);
    }
  }

  lemma {:induction false} SideSpelled(ts: seq<Tok>) returns (s: Option<SideClause>)
    requires ParseSide(ts).Ok?
    ensures var r := ParseSide(ts);
      SideToks(s) + r.rest == ts && SideOf(s) == r.value && (s.Some? ==> ListFits(s.value.labels, Head(r.rest)))
  {
    if Head(ts) != GroupLeft && Head(ts) != GroupRight {
      s := None;
      assert [] + ts == ts;
    } else {
      var l := LabelsSpelled(ts[1..]);
      s := Some(SideClause(ts[0] == GroupLeft, l));
      Uncons(ts);
      Assoc([ts[0]], LabelToks(l), ParseSide(ts).rest);
    }
  }

  lemma {:induction false} MatchSpelled(ts: seq<Tok>) returns (m: Option<MatchClause>)
    requires ParseMatching(ts).Ok?
    ensures var r := ParseMatching(ts);
      MatchToks(m) + r.rest == ts && MatchOf(m) == r.value && ModsFit(ModClause(false, m), Head(r.rest))
  {
    if Head(ts) != On && Head(ts) != Ignoring {
      m := None;
      assert [] + ts == ts;
    } else {
      var l := LabelsSpelled(ts[1..]);
      var ts1 := ParseLabelList(ts[1..]).rest;
      var s := SideSpelled(ts1);
      m := Some(MatchClause(ts[0] == On, l, s));
      var rest := ParseSide(ts1).rest;
      Uncons(ts);
      Assoc([ts[0]] + LabelToks(l), SideToks(s), rest);
      Assoc([ts[0]], LabelToks(l), ts1);
      if s.None? { assert ts1 == rest; }
    }
  }

  lemma {:induction false} ModsSpelled(ts: seq<Tok>) returns (m: ModClause)
    requires ParseMods(ts).Ok?
    ensures var r := ParseMods(ts);
      ModToks(m) + r.rest == ts && ModsOf(m) == r.value && ModsFit(m, Head(r.rest))
  {
    var b := Head(ts) == Ident("bool");
    var inner := if b then ts[1..] else ts;
    var c := MatchSpelled(inner);
    m := ModClause(b, c);
    if b {
      Uncons(ts);
      Assoc([ts[0]], MatchToks(c), ParseMods(ts).rest);
    } else {
      assert ModToks(m) == MatchToks(c);
    }
  }

  lemma {:induction false} ParamSpelled(op: AggOp, ts: seq<Tok>)
    requires ParseParam(op, ts).Ok?
    ensures var r := ParseParam(op, ts); ParamToks(r.value) + r.rest == ts && ParamFits(op, r.value)
  {
    var r := ParseParam(op, ts);
    if TakesParam(op) { assert ts == [ts[0], ts[1]] + ts[2..]; } else { assert [] + ts == ts; }
  }

  lemma {:induction false} LiteralSpelled(ts: seq<Tok>) returns (p: Primary)
    requires ParseLiteral(ts).Ok?
    ensures var r := ParseLiteral(ts);
      PrimaryToks(p) + r.rest == ts && PrimaryProper(p) && PrimaryMeans(p, r.value)
  {
    if Head(ts) == Minus {
      p := Negative(ts[1].n);
      assert ts == [ts[0], ts[1]] + ts[2..];
    } else {
      p := if Head(ts).Num? then Number(ts[0].n) else Whole(ts[0].id);
      Uncons(ts);
    }
  }

  lemma {:induction false} PrimarySpelled(ts: seq<Tok>) returns (p: Primary)
    requires ParsePrimary(ts).Ok?
    ensures var r := ParsePrimary(ts);
      PrimaryToks(p) + r.rest == ts && PrimaryProper(p) && PrimaryMeans(p, r.value)
    decreases |ts|, 1
  {
    if Head(ts) == LParen {
      var s := InfixSpelled(ts[1..]);
      p := Parens(s);
      ParensSpelled(ts, s);
    } else if Head(ts).Ident? {
      p := AggregateSpelled(ts);
    } else {
      p := LiteralSpelled(ts);
    }
  }

  lemma {:induction false} ParensSpelled(ts: seq<Tok>, s: Infix)
    requires Head(ts) == LParen && ParsePrimary(ts).Ok?
    requires InfixToks(s) + ParseExpr(ts[1..]).rest == ts[1..]
    ensures PrimaryToks(Parens(s)) + ParsePrimary(ts).rest == ts
  {
    var close := ParseExpr(ts[1..]).rest;
    Uncons(ts);
    Uncons(close);
    Assoc([LParen] + InfixToks(s), [RParen], close[1..]);
    Assoc([LParen], InfixToks(s), close);
  }

  lemma {:induction false} AggregateSpelled(ts: seq<Tok>) returns (p: Primary)
    requires Head(ts).Ident? && ParsePrimary(ts).Ok?
    ensures var r := ParsePrimary(ts);
      PrimaryToks(p) + r.rest == ts && PrimaryProper(p) && PrimaryMeans(p, r.value)
    decreases |ts|, 0
  {
    var op := AggOf(ts[0].name).value;
    var body := ts[1..];
    var head := ParseAggHead(op, body);
    var s := InfixSpelled(head.rest);
    var g := GroupSpelled(body);
    var open := ParseGrouping(body).rest;
    ParamSpelled(op, open[1..]);
    var inner := ParseExpr(head.rest);
    var h := TailSpelled(op, head.value, inner.value, inner.rest);
    if g.Some? { assert head.value.0.Some?; }
    p := Aggregate(op, g, head.value.1, s, h);
    AggregatePieces(ts, p, open, head.rest, inner.rest);
  }

  lemma {:induction false} TailSpelled(op: AggOp, h: (Option<Grouping>, Option<nat>), inner: Expr, ts: seq<Tok>)
      returns (g: Option<GroupClause>)
    requires ParseAggTail(op, h, inner, ts).Ok?
    ensures var r := ParseAggTail(op, h, inner, ts);
      && ts == [RParen] + (GroupToks(g) + r.rest) && (h.0.Some? ==> g.None?)
      && r.value == Agg(op, if h.0.Some? then h.0 else GroupOf(g), h.1, inner)
  {
    Uncons(ts);
    if h.0.Some? {
      g := None;
      assert [] + ts[1..] == ts[1..];
    } else {
      g := GroupSpelled(ts[1..]);
    }
  }

  lemma {:induction false} AggregatePieces(ts: seq<Tok>, p: Primary, open: seq<Tok>, tail: seq<Tok>, close: seq<Tok>)
    requires p.Aggregate? && Head(ts).Ident? && AggOf(ts[0].name) == Some(p.op) && ParsePrimary(ts).Ok?
    requires ts[1..] == GroupToks(p.leading) + open && Head(open) == LParen && open[1..] == ParamToks(p.param) + tail
    requires tail == InfixToks(p.inner) + close && close == [RParen] + (GroupToks(p.trailing) + ParsePrimary(ts).rest)
    ensures PrimaryToks(p) + ParsePrimary(ts).rest == ts
  {
    Uncons(ts);
    Uncons(open);
    NameOfAgg(ts[0].name);
    AggregateToks(p, ParsePrimary(ts).rest);
  }

  lemma NameOfAgg(name: string)
    requires AggOf(name).Some?
    ensures AggName(AggOf(name).value) == name
  {
  }

  lemma {:induction false} ChainSpelled(ts: seq<Tok>) returns (c: Chain)
    requires ReadLinks(ts).Ok?
    ensures var r := ReadLinks(ts); ChainToks(c) + r.rest == ts && ChainProper(c) && ChainMeans(c, r.value)
    decreases |ts|, 2
  {
    if Prec(Head(ts)) == 0 {
      c := End;
      assert [] + ts == ts;
    } else {
      var m := ModsSpelled(ts[1..]);
      var ts1 := ParseMods(ts[1..]).rest;
      var p := PrimarySpelled(ts1);
      var ts2 := ParsePrimary(ts1).rest;
      var rest := ChainSpelled(ts2);
      c := Then(ts[0], m, p, rest);
      var links := ReadLinks(ts2).value;
      assert ReadLinks(ts).value == [ParseLink(ts).value] + links;
      assert ReadLinks(ts).value[1..] == links;
      PrimaryStarts(p);
      Uncons(ts);
      ChainToksAre(c, ReadLinks(ts).rest);
    }
  }

  lemma {:induction false} InfixSpelled(ts: seq<Tok>) returns (s: Infix)
    requires ParseExpr(ts).Ok?
    ensures var r := ParseExpr(ts); InfixToks(s) + r.rest == ts && InfixProper(s) && InfixMeans(s, r.value)
    decreases |ts|, 3
  {
    var r := ParseExpr(ts);
    var t := AcceptedTree(ts, r.value, r.rest);
    var p := PrimarySpelled(ts);
    var tail := ParsePrimary(ts).rest;
    var c := ChainSpelled(tail);
    s := Infix(p, c);
    Assoc(PrimaryToks(p), ChainToks(c), r.rest);
    assert PrimaryMeans(s.first, First(t)) && ChainMeans(s.chain, Links(t));
  }

  // ---------------------------------------------------------------------------
  // The parser is the grammar
  // ---------------------------------------------------------------------------

  /** The parser accepts exactly the token sequences that spell an expression, and
      answers with the tree they stand for. */
  lemma {:induction false} ParsesExactly(ts: seq<Tok>, e: Expr)
    ensures Parse(ts) == Ok(e, []) <==> Derives(e, ts)
  {
    if Parse(ts) == Ok(e, []) { Spelled(ts, e); }
    if Derives(e, ts) { Read(ts, e); }
  }

  lemma {:induction false} Spelled(ts: seq<Tok>, e: Expr)
    requires ParseExpr(ts) == Ok(e, [])
    ensures Derives(e, ts)
  {
    var s := InfixSpelled(ts);
    assert InfixToks(s) + [] == InfixToks(s);
  }

  lemma {:induction false} Read(ts: seq<Tok>, e: Expr)
    requires Derives(e, ts)
    ensures ParseExpr(ts) == Ok(e, [])
  {
    var s: Infix :| InfixProper(s) && InfixToks(s) == ts && InfixMeans(s, e);
    InfixRead(s, e, []);
    assert ts + [] == ts;
  }

  // ---------------------------------------------------------------------------
  // The levels
  // ---------------------------------------------------------------------------

  /** Loki's binary operators, from the loosest level to the tightest. */
  const LEVELS: seq<set<Tok>> :=
    [{OrT}, {AndT, Unless}, {EqEq, BangEq, Lt, LtEq, Gt, GtEq}, {Plus, Minus}, {Star, Slash, Percent}, {Caret}]

  lemma LevelsAre(t: Tok, i: nat)
    requires i < 6
    ensures t in LEVELS[i] <==> Prec(t) == i + 1
  {
  }

  const PLAIN := ModClause(false, None)

  function Plain(a: nat, op: Tok, b: nat, op': Tok, c: nat): Infix {
    Infix(Whole(a), Then(op, PLAIN, Whole(b), Then(op', PLAIN, Whole(c), End)))
  }

  lemma {:induction false} PlainToks(a: nat, op: Tok, b: nat, op': Tok, c: nat)
    ensures InfixToks(Plain(a, op, b, op', c)) == [Opaque(a), op, Opaque(b), op', Opaque(c)]
  {
    var last := Then(op', PLAIN, Whole(c), End);
    ChainToksAre(last, []);
    assert ChainToks(last) + [] == ChainToks(last);
    assert ChainToks(last) == [op', Opaque(c)];
    var chain := Then(op, PLAIN, Whole(b), last);
    ChainToksAre(chain, []);
    assert ChainToks(chain) + [] == ChainToks(chain);
    assert ChainToks(chain) == [op, Opaque(b), op', Opaque(c)];
  }

  const NONE := Mods(false, None)

  /** Two operators in a row, grouped to the right or to the left. */
  function Grouped(right: bool, a: nat, op: Tok, b: nat, op': Tok, c: nat): Tree {
    var x, y, z := Leaf(Atom(a)), Leaf(Atom(b)), Leaf(Atom(c));
    if right then Node(x, op, NONE, Node(y, op', NONE, z)) else Node(Node(x, op, NONE, y), op', NONE, z)
  }

  lemma {:induction false} GroupedTree(right: bool, a: nat, op: Tok, b: nat, op': Tok, c: nat)
    requires Prec(op) >= 1 && Prec(op') >= 1 && if right then RightOk(op', op) else LeftOk(op, op')
    ensures var t := Grouped(right, a, op, b, op', c);
      Respects(t) && First(t) == Atom(a) && Links(t) == [Link(op, NONE, Atom(b)), Link(op', NONE, Atom(c))]
  {
    var x, y, z := Leaf(Atom(a)), Leaf(Atom(b)), Leaf(Atom(c));
    assert Links(x) == [] && Links(y) == [] && Links(z) == [];
    if right {
      OneNode(y, op', z);
    } else {
      OneNode(x, op, y);
    }
  }

  lemma {:induction false} OneNode(x: Tree, op: Tok, y: Tree)
    requires x.Leaf? && y.Leaf? && Prec(op) >= 1
    ensures var t := Node(x, op, NONE, y);
      Respects(t) && First(t) == x.e && Links(t) == [Link(op, NONE, y.e)] && ToExpr(t) == Bin(x.e, op, NONE, y.e)
  {
    assert Links(x) == [] && Links(y) == [];
  }

  function GroupedExpr(right: bool, a: nat, op: Tok, b: nat, op': Tok, c: nat): Expr {
    if right then Bin(Atom(a), op, NONE, Bin(Atom(b), op', NONE, Atom(c)))
    else Bin(Bin(Atom(a), op, NONE, Atom(b)), op', NONE, Atom(c))
  }

  lemma {:induction false} GroupedMeans(right: bool, a: nat, op: Tok, b: nat, op': Tok, c: nat)
    requires Prec(op) >= 1 && Prec(op') >= 1
    ensures ToExpr(Grouped(right, a, op, b, op', c)) == GroupedExpr(right, a, op, b, op', c)
  {
    if right {
      OneNode(Leaf(Atom(b)), op', Leaf(Atom(c)));
    } else {
      OneNode(Leaf(Atom(a)), op, Leaf(Atom(b)));
    }
  }

  lemma {:induction false} PlainMeans(t: Tree, a: nat, op: Tok, b: nat, op': Tok, c: nat)
    requires Respects(t) && First(t) == Atom(a) && Prec(op) >= 1 && Prec(op') >= 1
    requires Links(t) == [Link(op, NONE, Atom(b)), Link(op', NONE, Atom(c))]
    ensures InfixProper(Plain(a, op, b, op', c)) && InfixMeans(Plain(a, op, b, op', c), ToExpr(t))
  {
    var s, links := Plain(a, op, b, op', c), Links(t);
    var last := s.chain.chain;
    assert links[1..] == [links[1]] && [links[1]][1..] == [];
    assert ChainMeans(End, []) && ChainProper(End) && ModsOf(PLAIN) == NONE;
    assert ChainMeans(last, links[1..]) && ChainProper(last);
    assert ChainMeans(s.chain, links) && ChainProper(s.chain);
    assert PrimaryMeans(s.first, First(t));
  }

  /** Of two operators in a row the one on the tighter level binds first; on the
      same level the left one, except for two `^`. */
  lemma {:induction false} TwoOperators(a: nat, op: Tok, b: nat, op': Tok, c: nat, i: nat, j: nat)
    requires i < 6 && j < 6 && op in LEVELS[i] && op' in LEVELS[j]
    ensures Parse([Opaque(a), op, Opaque(b), op', Opaque(c)]) ==
      Ok(GroupedExpr(i < j || (i == 5 && j == 5), a, op, b, op', c), [])
  {
    LevelsAre(op, i);
    LevelsAre(op', j);
    CaretIs(op);
    CaretIs(op');
    BothOperators(i < j || (i == 5 && j == 5), a, op, b, op', c);
  }

  lemma {:induction false} BothOperators(right: bool, a: nat, op: Tok, b: nat, op': Tok, c: nat)
    requires Prec(op) >= 1 && Prec(op') >= 1 && if right then RightOk(op', op) else LeftOk(op, op')
    ensures Parse([Opaque(a), op, Opaque(b), op', Opaque(c)]) == Ok(GroupedExpr(right, a, op, b, op', c), [])
  {
    GroupedTree(right, a, op, b, op', c);
    GroupedMeans(right, a, op, b, op', c);
    PlainMeans(Grouped(right, a, op, b, op', c), a, op, b, op', c);
    PlainToks(a, op, b, op', c);
    var e := GroupedExpr(right, a, op, b, op', c);
    assert Derives(e, InfixToks(Plain(a, op, b, op', c)));
    ParsesExactly(InfixToks(Plain(a, op, b, op', c)), e);
  }

  lemma CaretIs(op: Tok)
    ensures Prec(op) == 6 <==> op == Caret
  {
  }
}
