/** The `label_format` stage: all assignments against the labels as they were
    before it, and when evaluating them one after another gives the same. */
module LabelFormat {

  type Labels = map<string, string>

  /** The right side of an assignment: another label's name, a text without
      actions, a template that is one field reference between blanks, or any
      other template, which `run` evaluates. */
  datatype Source =
    | Rename(field: string)
    | Text(s: string)
    | Ref(pre: string, field: string, post: string)
    | Other(id: nat)

  datatype Assign = Assign(name: string, src: Source)

  function Get(l: Labels, f: string): string {
    if f in l then l[f] else ""
  }

  function Value(run: (nat, Labels) -> string, s: Source, l: Labels): string {
    match s
    case Rename(f) => Get(l, f)
    case Text(t) => t
    case Ref(pre, f, post) => pre + Get(l, f) + post
    case Other(id) => run(id, l)
  }

  /** Every assignment evaluated against `l`; the last one for a name counts. */
  function Out(run: (nat, Labels) -> string, st: seq<Assign>, l: Labels): Labels {
    if st == [] then map[]
    else Out(run, st[..|st| - 1], l)[st[|st| - 1].name := Value(run, st[|st| - 1].src, l)]
  }

  function Simultaneous(run: (nat, Labels) -> string, st: seq<Assign>, l: Labels): Labels {
    l + Out(run, st, l)
  }

  function Sequential(run: (nat, Labels) -> string, st: seq<Assign>, l: Labels): Labels {
    if st == [] then l
    else
      var l' := Sequential(run, st[..|st| - 1], l);
      l'[st[|st| - 1].name := Value(run, st[|st| - 1].src, l')]
  }

  predicate Writes(st: seq<Assign>, f: string) {
    exists i :: 0 <= i < |st| && st[i].name == f
  }

  /** The pushdown test: it skips renames. */
  predicate Pushable(st: seq<Assign>) {
    forall i :: 0 <= i < |st| ==> PushableSource(st, st[i].src)
  }

  predicate PushableSource(st: seq<Assign>, s: Source) {
    !s.Other? && (s.Ref? ==> !Writes(st, s.field))
  }

  predicate RenamesReadNothingWritten(st: seq<Assign>) {
    forall i :: 0 <= i < |st| && st[i].src.Rename? ==> !Writes(st, st[i].src.field)
  }

  // ---------------------------------------------------------------------------
  // The test and the order
  // ---------------------------------------------------------------------------

  lemma {:induction false} OutKeys(run: (nat, Labels) -> string, st: seq<Assign>, l: Labels)
    ensures forall f :: f in Out(run, st, l) <==> Writes(st, f)
  {
    if st != [] {
      var init, a := st[..|st| - 1], st[|st| - 1];
      OutKeys(run, init, l);
      WritesStep(init, a);
      assert init + [a] == st;
    }
  }

  lemma {:induction false} WritesStep(st: seq<Assign>, a: Assign)
    ensures forall f :: Writes(st + [a], f) <==> Writes(st, f) || f == a.name
  {
    forall f ensures Writes(st + [a], f) <==> Writes(st, f) || f == a.name {
      assert (st + [a])[|st|] == a;
      if i :| 0 <= i < |st| && st[i].name == f { assert (st + [a])[i].name == f; }
    }
  }

  lemma {:induction false} PrefixWrites(st: seq<Assign>, n: nat, f: string)
    requires n <= |st| && !Writes(st, f)
    ensures !Writes(st[..n], f)
  {
    assert forall i :: 0 <= i < n ==> st[..n][i] == st[i];
  }

  /** A source that reads nothing written does not see what was written. */
  lemma {:induction false} ReadsOld(run: (nat, Labels) -> string, s: Source, l: Labels, out: Labels)
    requires !s.Other? && (!s.Text? ==> s.field !in out)
    ensures Value(run, s, l + out) == Value(run, s, l)
  {
  }

  lemma {:induction false} MergeUpdate(l: Labels, out: Labels, f: string, v: string)
    ensures (l + out)[f := v] == l + out[f := v]
  {
  }

  lemma {:induction false} PrefixAgrees(run: (nat, Labels) -> string, st: seq<Assign>, n: nat, l: Labels)
    requires n <= |st| && Pushable(st) && RenamesReadNothingWritten(st)
    ensures Sequential(run, st[..n], l) == Simultaneous(run, st[..n], l)
  {
    if n == 0 {
      assert l + map[] == l;
    } else {
      var init, a := st[..n - 1], st[n - 1];
      PrefixAgrees(run, st, n - 1, l);
      assert st[..n][..n - 1] == init;
      OutKeys(run, init, l);
      assert PushableSource(st, a.src);
      if !a.src.Text? { PrefixWrites(st, n - 1, a.src.field); }
      ReadsOld(run, a.src, l, Out(run, init, l));
      MergeUpdate(l, Out(run, init, l), a.name, Value(run, a.src, l));
    }
  }

  /** A stage that passes the test and whose renames read no label the stage
      writes gives every entry the same labels in sequence as at once. */
  lemma {:induction false} OrderDoesNotMatter(run: (nat, Labels) -> string, st: seq<Assign>, l: Labels)
    requires Pushable(st) && RenamesReadNothingWritten(st)
    ensures Sequential(run, st, l) == Simultaneous(run, st, l)
  {
    PrefixAgrees(run, st, |st|, l);
    assert st[..|st|] == st;
  }

  /** The test alone does not make the order irrelevant: it lets a swap of two
      labels through, which differs on every entry where the two labels differ. */
  lemma SwapDependsOnOrder(run: (nat, Labels) -> string, a: string, b: string, l: Labels)
    requires a != b && Get(l, a) != Get(l, b)
    ensures var st := [Assign(a, Rename(b)), Assign(b, Rename(a))];
      && Pushable(st)
      && Simultaneous(run, st, l) == l[a := Get(l, b)][b := Get(l, a)]
      && Sequential(run, st, l) == l[a := Get(l, b)][b := Get(l, b)]
      && Sequential(run, st, l) != Simultaneous(run, st, l)
  {
    var first, second := Assign(a, Rename(b)), Assign(b, Rename(a));
    var st := [first, second];
    assert st[..1] == [first] && [first][..0] == [];
    assert Out(run, [first], l) == map[a := Get(l, b)];
    assert Out(run, st, l) == map[a := Get(l, b)][b := Get(l, a)];
    assert Simultaneous(run, st, l) == l[a := Get(l, b)][b := Get(l, a)];
    assert Sequential(run, [first], l) == l[a := Get(l, b)];
    assert Sequential(run, st, l)[b] == Get(l, b) && Simultaneous(run, st, l)[b] == Get(l, a);
  }

  // ---------------------------------------------------------------------------
  // Exactly when the two agree
  // ---------------------------------------------------------------------------

  /** A value as a function of the labels before the stage. */
  datatype Sym = Const(s: string) | From(pre: string, field: string, post: string)

  type Syms = map<string, Sym>

  function Meaning(v: Sym, l: Labels): string {
    match v
    case Const(s) => s
    case From(pre, f, post) => pre + Get(l, f) + post
  }

  function Now(m: Syms, f: string): Sym {
    if f in m then m[f] else From("", f, "")
  }

  function Wrap(pre: string, v: Sym, post: string): Sym {
    match v
    case Const(s) => Const(pre + s + post)
    case From(p, f, q) => From(pre + p, f, q + post)
  }

  function SymOf(s: Source, m: Syms): Sym
    requires !s.Other?
  {
    match s
    case Rename(f) => Now(m, f)
    case Text(t) => Const(t)
    case Ref(pre, f, post) => Wrap(pre, Now(m, f), post)
  }

  predicate Blank(s: string) {
    forall i :: 0 <= i < |s| ==> s[i] in {' ', '\t', '\n', '\r', '\U{0C}'}
  }

  /** Renames, texts and field references between blanks only. */
  predicate Simple(st: seq<Assign>) {
    forall i :: 0 <= i < |st| ==> SimpleSource(st[i].src)
  }

  predicate SimpleSource(s: Source) {
    !s.Other? && (s.Ref? ==> Blank(s.pre) && Blank(s.post))
  }

  /** What each label holds after the assignments, in terms of before. */
  function After(st: seq<Assign>): Syms
    requires Simple(st)
  {
    if st == [] then map[]
    else After(st[..|st| - 1])[st[|st| - 1].name := SymOf(st[|st| - 1].src, After(st[..|st| - 1]))]
  }

  function Before(st: seq<Assign>): Syms
    requires Simple(st)
  {
    if st == [] then map[] else Before(st[..|st| - 1])[st[|st| - 1].name := SymOf(st[|st| - 1].src, map[])]
  }

  predicate Overwritten(st: seq<Assign>, i: nat)
    requires i < |st|
  {
    exists j :: i < j < |st| && st[j].name == st[i].name
  }

  /** The label the source reads still holds what it held before the stage. */
  predicate ReadsUntouched(s: Source, m: Syms) {
    s.Text? || s.Other? || Now(m, s.field) == From("", s.field, "")
  }

  /** Every assignment that is not overwritten reads a label that the assignments
      before it left as it was. */
  predicate Clean(st: seq<Assign>)
    requires Simple(st)
  {
    forall i :: 0 <= i < |st| ==> Overwritten(st, i) || ReadsUntouched(st[i].src, After(st[..i]))
  }

  predicate Describes(m: Syms, l: Labels, l': Labels) {
    && l'.Keys == l.Keys + m.Keys
    && (forall f :: f in m ==> l'[f] == Meaning(m[f], l))
    && (forall f :: f in l && f !in m ==> l'[f] == l[f])
  }

  lemma {:induction false} NowMeans(m: Syms, l: Labels, l': Labels, f: string)
    requires Describes(m, l, l')
    ensures Meaning(Now(m, f), l) == Get(l', f)
  {
    if f !in m {
      assert "" + Get(l, f) + "" == Get(l, f);
      assert f in l' <==> f in l;
    }
  }

  lemma {:induction false} WrapMeans(pre: string, v: Sym, post: string, l: Labels)
    ensures Meaning(Wrap(pre, v, post), l) == pre + Meaning(v, l) + post
  {
    if v.From? { WrapText(pre, v.pre, Get(l, v.field), v.post, post); }
  }

  lemma {:induction false} WrapText(a: string, b: string, x: string, c: string, d: string)
    ensures (a + b) + x + (c + d) == a + (b + x + c) + d
  {
  }

  lemma {:induction false} SymOfMeans(run: (nat, Labels) -> string, s: Source, m: Syms, l: Labels, l': Labels)
    requires !s.Other? && Describes(m, l, l')
    ensures Meaning(SymOf(s, m), l) == Value(run, s, l')
  {
    if !s.Text? {
      NowMeans(m, l, l', s.field);
      if s.Ref? { WrapMeans(s.pre, Now(m, s.field), s.post, l); }
    }
  }

  lemma {:induction false} SequentialIs(run: (nat, Labels) -> string, st: seq<Assign>, l: Labels)
    requires Simple(st)
    ensures Describes(After(st), l, Sequential(run, st, l))
  {
    if st != [] {
      var init, a := st[..|st| - 1], st[|st| - 1];
      SequentialIs(run, init, l);
      SymOfMeans(run, a.src, After(init), l, Sequential(run, init, l));
    }
  }

  lemma {:induction false} SimultaneousIs(run: (nat, Labels) -> string, st: seq<Assign>, l: Labels)
    requires Simple(st)
    ensures Describes(Before(st), l, Simultaneous(run, st, l))
  {
    if st != [] {
      var init, a := st[..|st| - 1], st[|st| - 1];
      SimultaneousIs(run, init, l);
      SymOfMeans(run, a.src, map[], l, l);
    }
  }

  lemma {:induction false} SymKeys(st: seq<Assign>)
    requires Simple(st)
    ensures forall f :: f in After(st) <==> Writes(st, f)
    ensures After(st).Keys == Before(st).Keys
  {
    if st != [] {
      var init, a := st[..|st| - 1], st[|st| - 1];
      SymKeys(init);
      WritesStep(init, a);
      assert init + [a] == st;
    }
  }

  // Blanks stay blanks.

  predicate Tidy(v: Sym) {
    v.From? ==> Blank(v.pre) && Blank(v.post)
  }

  lemma {:induction false} AfterTidy(st: seq<Assign>)
    requires Simple(st)
    ensures forall f :: f in After(st) ==> Tidy(After(st)[f])
    ensures forall f :: f in Before(st) ==> Tidy(Before(st)[f])
  {
    if st != [] {
      var init, a := st[..|st| - 1], st[|st| - 1];
      AfterTidy(init);
      assert Tidy(SymOf(a.src, After(init)));
      assert Tidy(SymOf(a.src, map[]));
    }
  }

  // Two different values differ on some entry.

  lemma {:induction false} Plus(pre: string, x: string, post: string)
    ensures |pre + x + post| == |pre| + |x| + |post|
  {
  }

  lemma TellsFields(v: Sym, w: Sym) returns (l: Labels)
    requires v.From? && (w.From? ==> w.field != v.field)
    ensures Meaning(v, l) != Meaning(w, l)
  {
    var l0: Labels, l1: Labels := map[], map[v.field := "x"];
    Plus(v.pre, "", v.post);
    Plus(v.pre, "x", v.post);
    assert Get(l0, v.field) == "" && Get(l1, v.field) == "x";
    assert |Meaning(v, l1)| == |Meaning(v, l0)| + 1;
    assert Meaning(w, l1) == Meaning(w, l0);
    l := if Meaning(v, l0) != Meaning(w, l0) then l0 else l1;
  }

  lemma TellsBlanks(v: Sym, w: Sym) returns (l: Labels)
    requires v.From? && w.From? && v.field == w.field && v != w && Tidy(v) && Tidy(w) && |v.pre| <= |w.pre|
    ensures Meaning(v, l) != Meaning(w, l)
  {
    l := map[v.field := "x"];
    var s, t := Meaning(v, l), Meaning(w, l);
    assert Get(l, v.field) == "x";
    assert s[|v.pre|] == 'x' && t[|w.pre|] == 'x';
    if |v.pre| < |w.pre| {
      assert t[|v.pre|] == w.pre[|v.pre|];
    } else {
      assert s[..|v.pre|] == v.pre && t[..|w.pre|] == w.pre;
      assert s[|v.pre| + 1..] == v.post && t[|w.pre| + 1..] == w.post;
    }
  }

  lemma Tells(v: Sym, w: Sym) returns (l: Labels)
    requires v != w && Tidy(v) && Tidy(w)
    ensures Meaning(v, l) != Meaning(w, l)
  {
    if v.From? && (w.Const? || w.field != v.field) {
      l := TellsFields(v, w);
    } else if w.From? && v.Const? {
      l := TellsFields(w, v);
    } else if v.From? && |v.pre| <= |w.pre| {
      l := TellsBlanks(v, w);
    } else if v.From? {
      l := TellsBlanks(w, v);
    } else {
      l := map[];
    }
  }

  // Equal values and untouched reads.

  lemma UntouchedIs(s: Source, m: Syms)
    requires !s.Other?
    ensures SymOf(s, m) == SymOf(s, map[]) <==> ReadsUntouched(s, m)
  {
    if s.Ref? {
      var v := Now(m, s.field);
      if v.From? && SymOf(s, m) == SymOf(s, map[]) {
        assert s.pre + v.pre == s.pre + "" && v.post + s.post == "" + s.post;
        assert |s.pre + v.pre| == |s.pre| && |v.post + s.post| == |s.post|;
      }
    }
  }

  lemma {:induction false} LastWriter(st: seq<Assign>, i: nat)
    requires Simple(st) && i < |st| && !Overwritten(st, i)
    ensures st[i].name in After(st) && After(st)[st[i].name] == SymOf(st[i].src, After(st[..i]))
    ensures st[i].name in Before(st) && Before(st)[st[i].name] == SymOf(st[i].src, map[])
  {
    if i < |st| - 1 {
      var init := st[..|st| - 1];
      assert init[..i] == st[..i];
      assert forall j :: 0 <= j < |init| ==> init[j] == st[j];
      LastWriter(init, i);
    } else {
      assert st[..i] == st[..|st| - 1];
    }
  }

  lemma {:induction false} FindLast(st: seq<Assign>, f: string) returns (i: nat)
    requires Writes(st, f)
    ensures i < |st| && st[i].name == f && !Overwritten(st, i)
  {
    i := |st| - 1;
    if st[i].name != f {
      var init := st[..|st| - 1];
      var k :| 0 <= k < |st| && st[k].name == f;
      assert init[k].name == f;
      i := FindLast(init, f);
      assert forall j :: 0 <= j < |init| ==> init[j] == st[j];
    }
  }

  /** Clean is the same as both ways leaving the same values. */
  lemma {:induction false} CleanIs(st: seq<Assign>)
    requires Simple(st)
    ensures Clean(st) <==> After(st) == Before(st)
  {
    SymKeys(st);
    if After(st) == Before(st) {
      forall i | 0 <= i < |st| && !Overwritten(st, i) ensures ReadsUntouched(st[i].src, After(st[..i])) {
        LastWriter(st, i);
        UntouchedIs(st[i].src, After(st[..i]));
      }
    }
    if Clean(st) {
      forall f | f in After(st) ensures After(st)[f] == Before(st)[f] {
        var i := FindLast(st, f);
        LastWriter(st, i);
        UntouchedIs(st[i].src, After(st[..i]));
      }
    }
  }

  ghost predicate AgreeAlways(run: (nat, Labels) -> string, st: seq<Assign>) {
    forall l: Labels :: Sequential(run, st, l) == Simultaneous(run, st, l)
  }

  /** Evaluating the assignments one after another is right for every entry exactly
      when the stage is clean. */
  lemma {:induction false} AgreeExactly(run: (nat, Labels) -> string, st: seq<Assign>)
    requires Simple(st)
    ensures AgreeAlways(run, st) <==> Clean(st)
  {
    CleanIs(st);
    SymKeys(st);
    if After(st) == Before(st) {
      forall l: Labels ensures Sequential(run, st, l) == Simultaneous(run, st, l) {
        SequentialIs(run, st, l);
        SimultaneousIs(run, st, l);
      }
    } else {
      AfterTidy(st);
      var f :| f in After(st) && After(st)[f] != Before(st)[f];
      var l := Tells(After(st)[f], Before(st)[f]);
      SequentialIs(run, st, l);
      SimultaneousIs(run, st, l);
      assert Sequential(run, st, l)[f] != Simultaneous(run, st, l)[f];
    }
  }

  // ---------------------------------------------------------------------------
  // The test and the stage as they run
  // ---------------------------------------------------------------------------

  method LabelFormatPushable(st: seq<Assign>) returns (ok: bool)
    ensures ok == Pushable(st)
  {
    var dsts: set<string> := {};
    var i := 0;
    while i < |st|
      invariant 0 <= i <= |st| && forall f :: f in dsts <==> Writes(st[..i], f)
    {
      assert st[..i + 1] == st[..i] + [st[i]];
      WritesStep(st[..i], st[i]);
      dsts := dsts + {st[i].name};
      i := i + 1;
    }
    assert st[..i] == st;
    i := 0;
    while i < |st|
      invariant 0 <= i <= |st| && forall j :: 0 <= j < i ==> PushableSource(st, st[j].src)
    {
      var s := st[i].src;
      if !s.Rename? && !s.Text? {
        if s.Other? || s.field in dsts {
          assert !PushableSource(st, st[i].src);
          return false;
        }
      }
      i := i + 1;
    }
    return true;
  }

  class Entry {
    var labels: Labels

    constructor (l: Labels)
      ensures labels == l
    {
      labels := l;
    }

    /** Evaluate everything first, then write. */
    method ApplyLabelFormat(run: (nat, Labels) -> string, st: seq<Assign>)
      modifies this
      ensures labels == Simultaneous(run, st, old(labels))
    {
      var out := Evaluate(run, st, labels);
      var todo := out.Keys;
      while todo != {}
        invariant todo <= out.Keys && labels + out == old(labels) + out
        invariant forall k :: k in out && k !in todo ==> k in labels && labels[k] == out[k]
        decreases |todo|
      {
        var k :| k in todo;
        Absorbed(labels, out, k);
        labels := labels[k := out[k]];
        todo := todo - {k};
      }
      AllAbsorbed(labels, out);
    }
  }

  lemma {:induction false} Absorbed(l: Labels, out: Labels, k: string)
    requires k in out
    ensures l[k := out[k]] + out == l + out
  {
  }

  lemma AllAbsorbed(l: Labels, out: Labels)
    requires forall k :: k in out ==> k in l && l[k] == out[k]
    ensures l + out == l
  {
  }

  method Evaluate(run: (nat, Labels) -> string, st: seq<Assign>, l: Labels) returns (out: Labels)
    ensures out == Out(run, st, l)
  {
    out := map[];
    var i := 0;
    while i < |st|
      invariant 0 <= i <= |st| && out == Out(run, st[..i], l)
    {
      assert st[..i + 1][..i] == st[..i];
      out := out[st[i].name := Value(run, st[i].src, l)];
      i := i + 1;
    }
    assert st[..i] == st;
  }
}
