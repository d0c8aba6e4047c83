/** The array budget that bounds what the operands of a binary expression may
    decode to, charged by one pass over the JSON text. A character stands for one
    byte; the bytes of a multi-byte character are plain string items. */
module BinaryBudget {

  const MAX_ARRAYS := 2000000

  // ---------------------------------------------------------------------------
  // JSON texts as concrete trees (sections 2 to 7 of RFC 8259)
  // ---------------------------------------------------------------------------

  datatype Item = Plain(c: char) | Escape(c: char) | Unicode(hex: string)

  datatype Number = Number(neg: bool, whole: string, frac: string, exp: string)

  datatype Json =
    | Word(name: string)
    | Num(n: Number)
    | Str(items: seq<Item>)
    | Arr(blank: string, elems: Elems)
    | Obj(blank: string, members: Members)

  datatype Elems = NoElems | Elem(before: string, v: Json, after: string, rest: Elems)

  datatype Members =
    | NoMembers
    | Member(ahead: string, name: seq<Item>, behind: string, before: string, v: Json, after: string, rest: Members)

  predicate Blank(s: string) {
    forall i :: 0 <= i < |s| ==> s[i] in {' ', '\t', '\n', '\r'}
  }

  predicate Digits(s: string) {
    s != "" && forall i :: 0 <= i < |s| ==> '0' <= s[i] <= '9'
  }

  predicate IsHex(c: char) {
    '0' <= c <= '9' || 'a' <= c <= 'f' || 'A' <= c <= 'F'
  }

  predicate ItemOk(i: Item) {
    match i
    case Plain(c) => c >= ' ' && c != '\"' && c != '\\'
    case Escape(c) => c in {'\"', '\\', '/', 'b', 'f', 'n', 'r', 't'}
    case Unicode(h) => |h| == 4 && forall i :: 0 <= i < |h| ==> IsHex(h[i])
  }

  predicate StringOk(s: seq<Item>) {
    forall i :: 0 <= i < |s| ==> ItemOk(s[i])
  }

  /** `frac` and `exp` are empty or start with their mark. */
  predicate NumberOk(n: Number) {
    && Digits(n.whole) && (|n.whole| > 1 ==> n.whole[0] != '0')
    && (n.frac != "" ==> n.frac[0] == '.' && Digits(n.frac[1..]))
    && (n.exp != "" ==> n.exp[0] in {'e', 'E'} && ExponentOk(n.exp[1..]))
  }

  predicate ExponentOk(s: string) {
    s != "" && Digits(if s[0] in {'+', '-'} then s[1..] else s)
  }

  predicate Ok(v: Json) {
    match v
    case Word(name) => name in {"true", "false", "null"}
    case Num(n) => NumberOk(n)
    case Str(s) => StringOk(s)
    case Arr(b, es) => Blank(b) && ElemsOk(es)
    case Obj(b, ms) => Blank(b) && MembersOk(ms)
  }

  predicate ElemsOk(es: Elems) {
    match es
    case NoElems => true
    case Elem(b, v, a, rest) => Blank(b) && Ok(v) && Blank(a) && ElemsOk(rest)
  }

  predicate MembersOk(ms: Members) {
    match ms
    case NoMembers => true
    case Member(p, k, q, b, v, a, rest) =>
      Blank(p) && StringOk(k) && Blank(q) && Blank(b) && Ok(v) && Blank(a) && MembersOk(rest)
  }

  function ItemText(i: Item): string {
    match i
    case Plain(c) => [c]
    case Escape(c) => ['\\', c]
    case Unicode(h) => ['\\', 'u'] + h
  }

  function ItemsText(s: seq<Item>): string {
    if s == [] then "" else ItemText(s[0]) + ItemsText(s[1..])
  }

  function Quoted(s: seq<Item>): string {
    ['\"'] + ItemsText(s) + ['\"']
  }

  function NumberText(n: Number): string {
    (if n.neg then "-" else "") + n.whole + n.frac + n.exp
  }

  function Text(v: Json): string {
    match v
    case Word(name) => name
    case Num(n) => NumberText(n)
    case Str(s) => Quoted(s)
    case Arr(b, es) => "[" + (b + ElemsText(es)) + "]"
    case Obj(b, ms) => "{" + (b + MembersText(ms)) + "}"
  }

  function ElemsText(es: Elems): string {
    match es
    case NoElems => ""
    case Elem(b, v, a, rest) => b + Text(v) + a + (if rest.NoElems? then "" else "," + ElemsText(rest))
  }

  function MembersText(ms: Members): string {
    match ms
    case NoMembers => ""
    case Member(p, k, q, b, v, a, rest) =>
      p + Quoted(k) + q + ":" + (b + Text(v) + a) + (if rest.NoMembers? then "" else "," + MembersText(rest))
  }

  /** The number of arrays in the value. */
  function Arrays(v: Json): nat {
    match v
    case Arr(_, es) => 1 + ElemArrays(es)
    case Obj(_, ms) => MemberArrays(ms)
    case _ => 0
  }

  function ElemArrays(es: Elems): nat {
    match es
    case NoElems => 0
    case Elem(_, v, _, rest) => Arrays(v) + ElemArrays(rest)
  }

  function MemberArrays(ms: Members): nat {
    match ms
    case NoMembers => 0
    case Member(_, _, _, _, v, _, rest) => Arrays(v) + MemberArrays(rest)
  }

  // ---------------------------------------------------------------------------
  // The scanner
  // ---------------------------------------------------------------------------

  datatype Mode = Outside | Inside | Escaped

  function Next(m: Mode, c: char): Mode {
    match m
    case Outside => if c == '\"' then Inside else Outside
    case Inside => if c == '\\' then Escaped else if c == '\"' then Outside else Inside
    case Escaped => Inside
  }

  /** Where the scanner stands after the text. */
  function After(m: Mode, s: string): Mode {
    if s == "" then m else Next(After(m, s[..|s| - 1]), s[|s| - 1])
  }

  /** How often it charges the budget on the way. */
  function Charges(m: Mode, s: string): nat {
    if s == "" then 0
    else Charges(m, s[..|s| - 1]) + (if After(m, s[..|s| - 1]) == Outside && s[|s| - 1] == '[' then 1 else 0)
  }

  lemma {:induction false} ScanConcat(m: Mode, a: string, b: string)
    ensures After(m, a + b) == After(After(m, a), b)
    ensures Charges(m, a + b) == Charges(m, a) + Charges(After(m, a), b)
  {
    if b == "" {
      assert a + b == a;
    } else {
      assert (a + b)[..|a + b| - 1] == a + b[..|b| - 1];
      ScanConcat(m, a, b[..|b| - 1]);
    }
  }

  /** Scanned from `m`, the text ends in `m'` and costs `n`. */
  predicate Scans(m: Mode, s: string, m': Mode, n: nat) {
    After(m, s) == m' && Charges(m, s) == n
  }

  lemma {:induction false} Chain(m: Mode, a: string, m1: Mode, n: nat, b: string, m2: Mode, k: nat)
    requires Scans(m, a, m1, n) && Scans(m1, b, m2, k)
    ensures Scans(m, a + b, m2, n + k)
  {
    ScanConcat(m, a, b);
  }

  lemma One(m: Mode, c: char)
    ensures Scans(m, [c], Next(m, c), if m == Outside && c == '[' then 1 else 0)
  {
    assert [c][..0] == "";
  }

  lemma Nothing(m: Mode)
    ensures Scans(m, "", m, 0)
  {
  }

  // ---------------------------------------------------------------------------
  // JSON parts under the scanner
  // ---------------------------------------------------------------------------

  /** Characters the scanner passes over outside a string. */
  predicate Dull(s: string) {
    forall i :: 0 <= i < |s| ==> s[i] != '\"' && s[i] != '['
  }

  lemma {:induction false} DullScans(s: string)
    requires Dull(s)
    ensures Scans(Outside, s, Outside, 0)
  {
    if s != "" { DullScans(s[..|s| - 1]); }
  }

  lemma NumberIsDull(n: Number)
    requires NumberOk(n)
    ensures Dull(NumberText(n))
  {
    DullFrac(n.frac);
    DullExp(n.exp);
  }

  lemma {:induction false} DullFrac(s: string)
    requires s != "" ==> s[0] == '.' && Digits(s[1..])
    ensures Dull(s)
  {
    if s != "" { assert forall i :: 0 < i < |s| ==> s[i] == s[1..][i - 1]; }
  }

  lemma {:induction false} DullExp(s: string)
    requires s != "" ==> s[0] in {'e', 'E'} && ExponentOk(s[1..])
    ensures Dull(s)
  {
    if s != "" {
      assert forall i :: 1 < i < |s| ==> s[i] == s[1..][1..][i - 2];
      assert forall i :: 0 < i < |s| ==> s[i] == s[1..][i - 1];
    }
  }

  /** Four hexadecimal digits inside a string. */
  lemma {:induction false} HexScans(h: string)
    requires forall i :: 0 <= i < |h| ==> IsHex(h[i])
    ensures Scans(Inside, h, Inside, 0)
  {
    if h != "" { HexScans(h[..|h| - 1]); }
  }

  lemma ItemScans(i: Item)
    requires ItemOk(i)
    ensures Scans(Inside, ItemText(i), Inside, 0)
  {
    match i
    case Plain(c) => One(Inside, c);
    case Escape(c) =>
      One(Inside, '\\');
      One(Escaped, c);
      Chain(Inside, ['\\'], Escaped, 0, [c], Inside, 0);
      assert ['\\'] + [c] == ['\\', c];
    case Unicode(h) =>
      One(Inside, '\\');
      One(Escaped, 'u');
      Chain(Inside, ['\\'], Escaped, 0, ['u'], Inside, 0);
      assert ['\\'] + ['u'] == ['\\', 'u'];
      HexScans(h);
      Chain(Inside, ['\\', 'u'], Inside, 0, h, Inside, 0);
  }

  lemma {:induction false} ItemsScan(s: seq<Item>)
    requires StringOk(s)
    ensures Scans(Inside, ItemsText(s), Inside, 0)
  {
    if s == [] {
      Nothing(Inside);
    } else {
      ItemScans(s[0]);
      ItemsScan(s[1..]);
      Chain(Inside, ItemText(s[0]), Inside, 0, ItemsText(s[1..]), Inside, 0);
    }
  }

  /** A string literal is passed over whole, whatever brackets, quotes and
      backslashes it holds. */
  lemma {:induction false} QuotedScans(s: seq<Item>)
    requires StringOk(s)
    ensures Scans(Outside, Quoted(s), Outside, 0)
  {
    ItemsScan(s);
    One(Outside, '\"');
    One(Inside, '\"');
    Chain(Outside, ['\"'], Inside, 0, ItemsText(s), Inside, 0);
    Chain(Outside, ['\"'] + ItemsText(s), Inside, 0, ['\"'], Outside, 0);
  }

  lemma {:induction false} Join(a: string, n: nat, b: string, k: nat)
    requires Scans(Outside, a, Outside, n) && Scans(Outside, b, Outside, k)
    ensures Scans(Outside, a + b, Outside, n + k)
  {
    Chain(Outside, a, Outside, n, b, Outside, k);
  }

  lemma {:induction false} Padded(b: string, s: string, n: nat, a: string)
    requires Blank(b) && Blank(a) && Scans(Outside, s, Outside, n)
    ensures Scans(Outside, b + s + a, Outside, n)
  {
    DullScans(b);
    DullScans(a);
    Join(b, 0, s, n);
    Join(b + s, n, a, 0);
  }

  lemma {:induction false} Prefixed(c: char, s: string, n: nat)
    requires c != '\"' && Scans(Outside, s, Outside, n)
    ensures Scans(Outside, [c] + s, Outside, n + if c == '[' then 1 else 0)
  {
    One(Outside, c);
    Join([c], if c == '[' then 1 else 0, s, n);
  }

  lemma {:induction false} Enclosed(open: char, b: string, s: string, n: nat, close: char)
    requires Blank(b) && Scans(Outside, s, Outside, n) && open in {'[', '{'} && close in {']', '}'}
    ensures Scans(Outside, [open] + (b + s) + [close], Outside, n + if open == '[' then 1 else 0)
  {
    DullScans(b);
    Join(b, 0, s, n);
    Prefixed(open, b + s, n);
    One(Outside, close);
    Join([open] + (b + s), n + if open == '[' then 1 else 0, [close], 0);
  }

  /** The scanner charges one for every array of the value and ends outside a
      string, whatever the nesting, spacing and string contents. */
  lemma {:induction false} ChargesArrays(v: Json)
    requires Ok(v)
    ensures Scans(Outside, Text(v), Outside, Arrays(v))
    decreases v
  {
    match v
    case Word(name) => DullScans(name);
    case Num(n) =>
      NumberIsDull(n);
      DullScans(NumberText(n));
    case Str(s) => QuotedScans(s);
    case Arr(b, es) =>
      ElemsCharge(es);
      Enclosed('[', b, ElemsText(es), ElemArrays(es), ']');
    case Obj(b, ms) =>
      MembersCharge(ms);
      Enclosed('{', b, MembersText(ms), MemberArrays(ms), '}');
  }

  lemma {:induction false} ElemsCharge(es: Elems)
    requires ElemsOk(es)
    ensures Scans(Outside, ElemsText(es), Outside, ElemArrays(es))
    decreases es
  {
    match es
    case NoElems => Nothing(Outside);
    case Elem(b, v, a, rest) =>
      ChargesArrays(v);
      Padded(b, Text(v), Arrays(v), a);
      var tail := if rest.NoElems? then "" else "," + ElemsText(rest);
      if rest.NoElems? {
        Nothing(Outside);
      } else {
        ElemsCharge(rest);
        Prefixed(',', ElemsText(rest), ElemArrays(rest));
      }
      Join(b + Text(v) + a, Arrays(v), tail, ElemArrays(rest));
  }

  lemma {:induction false} NameScans(p: string, k: seq<Item>, q: string)
    requires Blank(p) && StringOk(k) && Blank(q)
    ensures Scans(Outside, p + Quoted(k) + q + ":", Outside, 0)
  {
    QuotedScans(k);
    Padded(p, Quoted(k), 0, q);
    One(Outside, ':');
    Join(p + Quoted(k) + q, 0, ":", 0);
  }

  lemma {:induction false} MembersCharge(ms: Members)
    requires MembersOk(ms)
    ensures Scans(Outside, MembersText(ms), Outside, MemberArrays(ms))
    decreases ms
  {
    match ms
    case NoMembers => Nothing(Outside);
    case Member(p, k, q, b, v, a, rest) =>
      NameScans(p, k, q);
      ChargesArrays(v);
      Padded(b, Text(v), Arrays(v), a);
      var tail := if rest.NoMembers? then "" else "," + MembersText(rest);
      if rest.NoMembers? {
        Nothing(Outside);
      } else {
        MembersCharge(rest);
        Prefixed(',', MembersText(rest), MemberArrays(rest));
      }
      Join(p + Quoted(k) + q + ":", 0, b + Text(v) + a, Arrays(v));
      Join(p + Quoted(k) + q + ":" + (b + Text(v) + a), Arrays(v), tail, MemberArrays(rest));
  }

  // ---------------------------------------------------------------------------
  // The budget
  // ---------------------------------------------------------------------------

  /** One operand's response: a value with blanks around it. */
  datatype Doc = Doc(before: string, v: Json, after: string)

  predicate DocOk(d: Doc) {
    Blank(d.before) && Ok(d.v) && Blank(d.after)
  }

  function DocText(d: Doc): string {
    d.before + Text(d.v) + d.after
  }

  /** A text fits if its charges do; one that does not spends what was left. */
  predicate Accepts(budget: int, body: string) {
    Charges(Outside, body) == 0 || Charges(Outside, body) <= budget
  }

  function Left(budget: int, body: string): int {
    if Accepts(budget, body) then budget - Charges(Outside, body)
    else if budget < 0 then budget else 0
  }

  /** A valid response is accepted exactly when its arrays fit, and then exactly
      they are charged. */
  lemma {:induction false} AcceptsExactly(budget: nat, d: Doc)
    requires DocOk(d)
    ensures Accepts(budget, DocText(d)) <==> Arrays(d.v) <= budget
    ensures Accepts(budget, DocText(d)) ==> Left(budget, DocText(d)) == budget - Arrays(d.v)
    ensures After(Outside, DocText(d)) == Outside
  {
    ChargesArrays(d.v);
    Padded(d.before, Text(d.v), Arrays(d.v), d.after);
  }

  /** All arrays in the responses that were accepted, one after another, from
      one shared budget. */
  function Decoded(budget: nat, ds: seq<Doc>): nat {
    if ds == [] then 0
    else
      (if Accepts(budget, DocText(ds[0])) then Arrays(ds[0].v) else 0)
      + Decoded(Left(budget, DocText(ds[0])), ds[1..])
  }

  /** Operands sharing a budget decode to at most that many arrays together. */
  lemma {:induction false} SharedBudgetBounds(budget: nat, ds: seq<Doc>)
    requires forall i :: 0 <= i < |ds| ==> DocOk(ds[i])
    ensures Decoded(budget, ds) <= budget
    decreases |ds|
  {
    if ds != [] {
      AcceptsExactly(budget, ds[0]);
      SharedBudgetBounds(Left(budget, DocText(ds[0])), ds[1..]);
    }
  }

  class Budget {
    var arrays: int

    /** The budget of one evaluation, shared by all its operands. */
    constructor ()
      ensures arrays == MAX_ARRAYS
    {
      arrays := MAX_ARRAYS;
    }

    /** `limit` bounds the length of one response. */
    method CheckDecode(body: string, limit: nat) returns (ok: bool)
      modifies this
      ensures ok == (|body| <= limit && Accepts(old(arrays), body))
      ensures arrays == if |body| > limit then old(arrays) else Left(old(arrays), body)
    {
      if |body| > limit {
        return false;
      }
      var quoted, escaped := false, false;
      var i := 0;
      while i < |body|
        invariant 0 <= i <= |body| && (escaped ==> quoted)
        invariant After(Outside, body[..i]) == (if escaped then Escaped else if quoted then Inside else Outside)
        invariant arrays == old(arrays) - Charges(Outside, body[..i])
        invariant Charges(Outside, body[..i]) > 0 ==> arrays >= 0
      {
        var c := body[i];
        assert body[..i + 1][..i] == body[..i];
        if quoted {
          if escaped {
            escaped := false;
          } else if c == '\\' {
            escaped := true;
          } else if c == '\"' {
            quoted := false;
          }
        } else if c == '\"' {
          quoted := true;
        } else if c == '[' {
          if arrays <= 0 {
            ChargesGrow(Outside, body, i + 1);
            return false;
          }
          arrays := arrays - 1;
        }
        i := i + 1;
      }
      assert body[..i] == body;
      return true;
    }
  }

  lemma {:induction false} ChargesGrow(m: Mode, s: string, i: nat)
    requires i <= |s|
    ensures Charges(m, s[..i]) <= Charges(m, s)
  {
    ScanConcat(m, s[..i], s[i..]);
    assert s[..i] + s[i..] == s;
  }
}
