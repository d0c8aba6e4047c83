/** The `label_format` stage pushed down: each assignment becomes a `format` pipe
    of the backend, which fills `<name>` placeholders from the labels as the pipes
    before it left them. */
module LabelPushdown {
  import opened LabelFormat

  // ---------------------------------------------------------------------------
  // From templates to placeholders
  // ---------------------------------------------------------------------------

  predicate WordChar(c: char) {
    c == '_' || c == '.' || 'a' <= c <= 'z' || 'A' <= c <= 'Z' || '0' <= c <= '9'
  }

  predicate BlankChar(c: char) {
    c in {' ', '\t', '\n', '\r', '\U{0C}'}
  }

  function WordLength(t: string): (n: nat)
    ensures n <= |t|
  {
    if t != "" && WordChar(t[0]) then 1 + WordLength(t[1..]) else 0
  }

  function SkipBlanks(t: string): (r: string)
    ensures |r| <= |t|
  {
    if t != "" && BlankChar(t[0]) then SkipBlanks(t[1..]) else t
  }

  predicate Opens(t: string) {
    |t| >= 2 && t[0] == '{' && t[1] == '{'
  }

  datatype Found = Nothing | Reference(name: string, rest: string)

  /** A field reference at the start of the text: `{{ .name }}`. */
  function Reference0(t: string): (r: Found)
    ensures r.Reference? ==> |r.rest| < |t|
  {
    if !Opens(t) then Nothing
    else
      var u := SkipBlanks(t[2..]);
      if u == "" || u[0] != '.' then Nothing
      else
        var n := WordLength(u[1..]);
        var v := SkipBlanks(u[1..][n..]);
        if n == 0 || |v| < 2 || v[..2] != "}}" then Nothing else Reference(u[1..][..n], v[2..])
  }

  /** Every field reference of the text replaced by a placeholder. */
  function ConvertGoTemplate(t: string): string
    decreases |t|
  {
    if t == "" then ""
    else
      var r := Reference0(t);
      if r.Reference? then "<" + r.name + ">" + ConvertGoTemplate(r.rest)
      else [t[0]] + ConvertGoTemplate(t[1..])
  }

  /** What the pipe of an assignment formats: a bare name stays as it is. */
  function Emitted(s: Source): string
    requires !s.Other?
  {
    match s
    case Rename(f) => f
    case Text(t) => t
    case Ref(pre, f, post) => pre + ("<" + f + ">" + post)
  }

  predicate NoActions(t: string) {
    forall i :: 0 <= i < |t| - 1 ==> !(t[i] == '{' && t[i + 1] == '{')
  }

  lemma {:induction false} KeepsPlainText(t: string)
    requires NoActions(t)
    ensures ConvertGoTemplate(t) == t
  {
    if t != "" {
      assert !Opens(t);
      assert forall i :: 0 <= i < |t| - 1 ==> t[1..][i] == t[i + 1];
      KeepsPlainText(t[1..]);
      assert t == [t[0]] + t[1..];
    }
  }

  lemma {:induction false} KeepsBlanks(pre: string, t: string)
    requires Blank(pre)
    ensures ConvertGoTemplate(pre + t) == pre + ConvertGoTemplate(t)
  {
    if pre == "" {
      assert pre + t == t;
    } else {
      assert (pre + t)[1..] == pre[1..] + t;
      KeepsOne(pre + t);
      KeepsBlanks(pre[1..], t);
      Assoc([pre[0]], pre[1..], ConvertGoTemplate(t));
      assert pre == [pre[0]] + pre[1..];
    }
  }

  lemma {:induction false} KeepsOne(t: string)
    requires t != "" && t[0] != '{'
    ensures ConvertGoTemplate(t) == [t[0]] + ConvertGoTemplate(t[1..])
  {
    assert Reference0(t).Nothing?;
  }

  lemma {:induction false} SkipsBlanks(pre: string, t: string)
    requires Blank(pre) && (t != "" ==> !BlankChar(t[0]))
    ensures SkipBlanks(pre + t) == t
  {
    if pre == "" {
      assert pre + t == t;
    } else {
      assert (pre + t)[1..] == pre[1..] + t;
      SkipsBlanks(pre[1..], t);
    }
  }

  lemma {:induction false} ReadsWord(f: string, t: string)
    requires (forall i :: 0 <= i < |f| ==> WordChar(f[i])) && (t != "" ==> !WordChar(t[0]))
    ensures WordLength(f + t) == |f|
  {
    if f == "" {
      assert f + t == t;
    } else {
      assert (f + t)[1..] == f[1..] + t;
      ReadsWord(f[1..], t);
    }
  }

  lemma {:induction false} ReadsReference(u: string, f: string, v: string, post: string)
    requires Blank(u) && Blank(v) && f != "" && forall i :: 0 <= i < |f| ==> WordChar(f[i])
    ensures Reference0("{{" + (u + ("." + (f + (v + ("}}" + post)))))) == Reference(f, post)
  {
    var close := "}}" + post;
    var tail := v + close;
    var dot := "." + (f + tail);
    var t := "{{" + (u + dot);
    assert t[2..] == u + dot;
    SkipsBlanks(u, dot);
    assert dot[1..] == f + tail;
    ReadsWord(f, tail);
    assert (f + tail)[..|f|] == f && (f + tail)[|f|..] == tail;
    SkipsBlanks(v, close);
    assert close[2..] == post;
  }

  /** The translator turns a text without actions, a bare name and a single field
      reference between blanks into what is emitted for them. */
  lemma {:induction false} ConvertsSimple(u: string, v: string, s: Source)
    requires !s.Other? && Blank(u) && Blank(v)
    requires s.Text? ==> NoActions(s.s)
    requires !s.Text? ==> s.field != "" && forall i :: 0 <= i < |s.field| ==> WordChar(s.field[i])
    requires s.Ref? ==> Blank(s.pre) && Blank(s.post)
    ensures match s
      case Ref(pre, f, post) =>
        ConvertGoTemplate(pre + ("{{" + (u + ("." + (f + (v + ("}}" + post))))))) == Emitted(s)
      case Rename(f) => ConvertGoTemplate(f) == Emitted(s)
      case Text(t) => ConvertGoTemplate(t) == Emitted(s)
  {
    match s
    case Rename(f) => KeepsPlainText(f);
    case Text(t) => KeepsPlainText(t);
    case Ref(pre, f, post) =>
      var action := "{{" + (u + ("." + (f + (v + ("}}" + post)))));
      KeepsBlanks(pre, action);
      ReadsReference(u, f, v, post);
      KeepsBlanks(post, "");
      assert post + "" == post;
  }

  // ---------------------------------------------------------------------------
  // What the backend makes of a pipe
  // ---------------------------------------------------------------------------

  datatype Part = Chr(c: char) | Fld(f: string)

  type Word = seq<Part>

  function FirstClose(t: string): (n: nat)
    ensures n <= |t| && (forall i :: 0 <= i < n ==> t[i] != '>') && (n < |t| ==> t[n] == '>')
  {
    if t == "" || t[0] == '>' then 0 else 1 + FirstClose(t[1..])
  }

  /** The template as characters and placeholders; an opening bracket that is
      never closed is a character. */
  function Parts(t: string): Word {
    if t == "" then []
    else
      var n := FirstClose(t);
      if t[0] == '<' && n < |t| then [Fld(t[1..n])] + Parts(t[n + 1..]) else [Chr(t[0])] + Parts(t[1..])
  }

  function Spell(w: Word, l: Labels): string {
    if w == [] then ""
    else Shown(w[0], l) + Spell(w[1..], l)
  }

  function Shown(p: Part, l: Labels): string {
    match p
    case Chr(c) => [c]
    case Fld(f) => Get(l, f)
  }

  /** The labels after the pipes have run one after another. */
  function PushedDown(st: seq<Assign>, l: Labels): Labels
    requires Simple(st)
  {
    if st == [] then l
    else
      var l' := PushedDown(st[..|st| - 1], l);
      l'[st[|st| - 1].name := Spell(Parts(Emitted(st[|st| - 1].src)), l')]
  }

  /** The pipes give every entry the labels of the stage. */
  ghost predicate AlwaysRight(run: (nat, Labels) -> string, st: seq<Assign>)
    requires Simple(st)
  {
    forall l: Labels :: PushedDown(st, l) == Simultaneous(run, st, l)
  }

  function Chars(s: string): Word {
    if s == "" then [] else [Chr(s[0])] + Chars(s[1..])
  }

  lemma {:induction false} SpellConcat(a: Word, b: Word, l: Labels)
    ensures Spell(a + b, l) == Spell(a, l) + Spell(b, l)
  {
    if a == [] {
      assert a + b == b;
    } else {
      assert (a + b)[1..] == a[1..] + b;
      SpellConcat(a[1..], b, l);
      Assoc(Shown(a[0], l), Spell(a[1..], l), Spell(b, l));
    }
  }

  lemma {:induction false} Assoc(a: string, b: string, c: string)
    ensures a + (b + c) == a + b + c
  {
  }

  lemma {:induction false} SpellChars(s: string, l: Labels)
    ensures Spell(Chars(s), l) == s
  {
    if s != "" {
      SpellChars(s[1..], l);
      assert s == [s[0]] + s[1..];
    }
  }

  lemma {:induction false} SpellOne(f: string, l: Labels)
    ensures Spell([Fld(f)], l) == Get(l, f)
  {
    assert [Fld(f)][1..] == [];
    assert Spell([], l) == "";
  }

  lemma {:induction false} CharsConcat(a: string, b: string)
    ensures Chars(a + b) == Chars(a) + Chars(b)
  {
    if a == "" {
      assert a + b == b;
    } else {
      assert (a + b)[1..] == a[1..] + b;
      CharsConcat(a[1..], b);
    }
  }

  predicate Plain(w: Word) {
    forall i :: 0 <= i < |w| ==> w[i].Chr?
  }

  lemma {:induction false} CharsPlain(s: string)
    ensures Plain(Chars(s)) && |Chars(s)| == |s|
  {
    if s != "" { CharsPlain(s[1..]); }
  }

  lemma {:induction false} PlainIsChars(w: Word, l: Labels)
    requires Plain(w)
    ensures w == Chars(Spell(w, l))
  {
    if w != [] {
      assert Plain(w[1..]);
      PlainIsChars(w[1..], l);
      var s := Spell(w, l);
      assert s[0] == w[0].c && s[1..] == Spell(w[1..], l);
      assert w == [w[0]] + w[1..];
    }
  }

  // ---------------------------------------------------------------------------
  // Both sides as words over the labels before the stage
  // ---------------------------------------------------------------------------

  type Words = map<string, Word>

  function At(m: Words, f: string): Word {
    if f in m then m[f] else [Fld(f)]
  }

  /** The word with every label replaced by what it holds. */
  function Fill(w: Word, m: Words): Word {
    if w == [] then [] else (if w[0].Fld? then At(m, w[0].f) else [w[0]]) + Fill(w[1..], m)
  }

  /** What an assignment means in the stage. */
  function Means(s: Source): Word
    requires !s.Other?
  {
    match s
    case Rename(f) => [Fld(f)]
    case Text(t) => Chars(t)
    case Ref(pre, f, post) => Chars(pre) + [Fld(f)] + Chars(post)
  }

  /** What its pipe leaves, after pipes that left `m`. */
  function Leaves(s: Source, m: Words): Word
    requires !s.Other?
  {
    Fill(Parts(Emitted(s)), m)
  }

  function Pushed(st: seq<Assign>): Words
    requires Simple(st)
  {
    if st == [] then map[]
    else
      var m := Pushed(st[..|st| - 1]);
      m[st[|st| - 1].name := Leaves(st[|st| - 1].src, m)]
  }

  function Meant(st: seq<Assign>): Words
    requires Simple(st)
  {
    if st == [] then map[] else Meant(st[..|st| - 1])[st[|st| - 1].name := Means(st[|st| - 1].src)]
  }

  predicate Tracks(m: Words, l: Labels, l': Labels) {
    && l'.Keys == l.Keys + m.Keys
    && (forall f :: f in m ==> l'[f] == Spell(m[f], l))
    && (forall f :: f in l && f !in m ==> l'[f] == l[f])
  }

  lemma {:induction false} AtSpells(m: Words, l: Labels, l': Labels, f: string)
    requires Tracks(m, l, l')
    ensures Spell(At(m, f), l) == Get(l', f)
  {
    if f !in m {
      SpellOne(f, l);
      assert f in l' <==> f in l;
    }
  }

  lemma {:induction false} FillSpells(w: Word, m: Words, l: Labels, l': Labels)
    requires Tracks(m, l, l')
    ensures Spell(Fill(w, m), l) == Spell(w, l')
  {
    if w != [] {
      FillSpells(w[1..], m, l, l');
      if w[0].Fld? {
        AtSpells(m, l, l', w[0].f);
        SpellConcat(At(m, w[0].f), Fill(w[1..], m), l);
      } else {
        SpellConcat([w[0]], Fill(w[1..], m), l);
        assert [w[0]][1..] == [] && Spell([], l) == "";
      }
    }
  }

  lemma {:induction false} MeansValue(run: (nat, Labels) -> string, s: Source, l: Labels)
    requires !s.Other?
    ensures Spell(Means(s), l) == Value(run, s, l)
  {
    match s
    case Rename(f) => SpellOne(f, l);
    case Text(t) => SpellChars(t, l);
    case Ref(pre, f, post) =>
      SpellConcat(Chars(pre) + [Fld(f)], Chars(post), l);
      SpellConcat(Chars(pre), [Fld(f)], l);
      SpellChars(pre, l);
      SpellChars(post, l);
      SpellOne(f, l);
  }

  lemma {:induction false} PushedIs(st: seq<Assign>, l: Labels)
    requires Simple(st)
    ensures Tracks(Pushed(st), l, PushedDown(st, l))
  {
    if st != [] {
      var init, a := st[..|st| - 1], st[|st| - 1];
      PushedIs(init, l);
      FillSpells(Parts(Emitted(a.src)), Pushed(init), l, PushedDown(init, l));
    }
  }

  lemma {:induction false} MeantIs(run: (nat, Labels) -> string, st: seq<Assign>, l: Labels)
    requires Simple(st)
    ensures Tracks(Meant(st), l, Simultaneous(run, st, l))
  {
    if st != [] {
      var init, a := st[..|st| - 1], st[|st| - 1];
      MeantIs(run, init, l);
      MeansValue(run, a.src, l);
      MergeUpdate(l, Out(run, init, l), a.name, Value(run, a.src, l));
    }
  }

  lemma {:induction false} SameKeys(st: seq<Assign>)
    requires Simple(st)
    ensures forall f :: f in Pushed(st) <==> Writes(st, f)
    ensures Pushed(st).Keys == Meant(st).Keys
  {
    if st != [] {
      var init, a := st[..|st| - 1], st[|st| - 1];
      SameKeys(init);
      WritesStep(init, a);
      assert init + [a] == st;
    }
  }

  lemma {:induction false} LastPipe(st: seq<Assign>, i: nat)
    requires Simple(st) && i < |st| && !Overwritten(st, i)
    ensures st[i].name in Pushed(st) && Pushed(st)[st[i].name] == Leaves(st[i].src, Pushed(st[..i]))
    ensures st[i].name in Meant(st) && Meant(st)[st[i].name] == Means(st[i].src)
  {
    if i < |st| - 1 {
      var init := st[..|st| - 1];
      assert init[..i] == st[..i];
      assert forall j :: 0 <= j < |init| ==> init[j] == st[j];
      LastPipe(init, i);
    } else {
      assert st[..i] == st[..|st| - 1];
    }
  }

  // ---------------------------------------------------------------------------
  // Two different words differ on some entry
  // ---------------------------------------------------------------------------

  function Count(w: Word, f: string): nat {
    if w == [] then 0 else (if w[0] == Fld(f) then 1 else 0) + Count(w[1..], f)
  }

  function Characters(w: Word): nat {
    if w == [] then 0 else (if w[0].Chr? then 1 else 0) + Characters(w[1..])
  }

  lemma {:induction false} SpelledLength(w: Word, f: string)
    ensures |Spell(w, map[])| == Characters(w)
    ensures |Spell(w, map[f := "x"])| == Characters(w) + Count(w, f)
  {
    if w != [] { SpelledLength(w[1..], f); }
  }

  lemma {:induction false} CountConcat(a: Word, b: Word, f: string)
    ensures Count(a + b, f) == Count(a, f) + Count(b, f)
  {
    if a == [] {
      assert a + b == b;
    } else {
      assert (a + b)[1..] == a[1..] + b;
      CountConcat(a[1..], b, f);
    }
  }

  lemma {:induction false} CountPlain(w: Word, f: string)
    requires Plain(w)
    ensures Count(w, f) == 0
  {
    if w != [] {
      assert Plain(w[1..]);
      CountPlain(w[1..], f);
    }
  }

  lemma {:induction false} CountMeans(s: Source, f: string)
    requires !s.Other?
    ensures Count(Means(s), f) == if !s.Text? && s.field == f then 1 else 0
  {
    match s
    case Rename(g) => assert [Fld(g)][1..] == [] && Count([], f) == 0;
    case Text(t) =>
      CharsPlain(t);
      CountPlain(Chars(t), f);
    case Ref(pre, g, post) =>
      CountConcat(Chars(pre) + [Fld(g)], Chars(post), f);
      CountConcat(Chars(pre), [Fld(g)], f);
      CharsPlain(pre);
      CharsPlain(post);
      CountPlain(Chars(pre), f);
      CountPlain(Chars(post), f);
      assert [Fld(g)][1..] == [] && Count([], f) == 0;
  }

  /** Words that hold a label a different number of times. */
  lemma TellsCounts(u: Word, v: Word, f: string) returns (l: Labels)
    requires Count(u, f) != Count(v, f)
    ensures Spell(u, l) != Spell(v, l)
  {
    SpelledLength(u, f);
    SpelledLength(v, f);
    l := if Spell(u, map[]) != Spell(v, map[]) then map[] else map[f := "x"];
  }

  /** The word up to its first label, that label, and the rest. */
  lemma {:induction false} FirstLabel(w: Word) returns (i: nat)
    requires !Plain(w)
    ensures i < |w| && w[i].Fld? && Plain(w[..i]) && w == w[..i] + [w[i]] + w[i + 1..]
  {
    if w[0].Fld? {
      i := 0;
    } else {
      assert !Plain(w[1..]);
      var j := FirstLabel(w[1..]);
      i := j + 1;
      assert w[..i] == [w[0]] + w[1..][..j];
    }
  }

  lemma {:induction false} CountsFirst(a: Word, f: string, b: Word, g: string)
    requires Plain(a)
    ensures Count(a + [Fld(f)] + b, g) == (if f == g then 1 else 0) + Count(b, g)
  {
    CountConcat(a + [Fld(f)], b, g);
    CountConcat(a, [Fld(f)], g);
    CountPlain(a, g);
    assert [Fld(f)][1..] == [] && Count([], g) == 0;
  }

  lemma {:induction false} SpellAround(a: string, f: string, b: string, x: string)
    ensures Spell(Chars(a) + [Fld(f)] + Chars(b), map[f := x]) == a + x + b
  {
    var l: Labels := map[f := x];
    SpellConcat(Chars(a) + [Fld(f)], Chars(b), l);
    SpellConcat(Chars(a), [Fld(f)], l);
    SpellChars(a, l);
    SpellChars(b, l);
    SpellOne(f, l);
  }

  /** One label between texts, against the same label between blanks. */
  lemma TellsAround(a: string, b: string, pre: string, f: string, post: string) returns (l: Labels)
    requires Blank(pre) && Blank(post) && (a != pre || b != post)
    ensures Spell(Chars(a) + [Fld(f)] + Chars(b), l) != Spell(Chars(pre) + [Fld(f)] + Chars(post), l)
  {
    var x := if |a| > |pre| && a[|pre|] == 'x' then "y" else "x";
    l := map[f := x];
    SpellAround(a, f, b, x);
    SpellAround(pre, f, post, x);
    var s, t := a + x + b, pre + x + post;
    assert s[|a|] == x[0] && t[|pre|] == x[0];
    if |a| < |pre| {
      assert t[|a|] == pre[|a|];
    } else if |a| > |pre| {
      assert s[|pre|] == a[|pre|];
    } else {
      assert s[..|a|] == a && t[..|pre|] == pre;
      assert s[|a| + 1..] == b && t[|pre| + 1..] == post;
    }
  }

  function PreOf(s: Source): string {
    if s.Ref? then s.pre else ""
  }

  function PostOf(s: Source): string {
    if s.Ref? then s.post else ""
  }

  lemma {:induction false} MeansAround(s: Source)
    requires s.Rename? || s.Ref?
    ensures Means(s) == Chars(PreOf(s)) + [Fld(s.field)] + Chars(PostOf(s))
  {
  }

  /** What a pipe leaves and what the assignment means differ on some entry
      whenever they are different words. */
  lemma TellsWord(u: Word, s: Source) returns (l: Labels)
    requires SimpleSource(s) && u != Means(s)
    ensures Spell(u, l) != Spell(Means(s), l)
  {
    if Plain(u) {
      l := TellsPlain(u, s);
    } else {
      var i := FirstLabel(u);
      var g, rest := u[i].f, u[i + 1..];
      CountsFirst(u[..i], g, rest, g);
      CountMeans(s, g);
      if s.Text? || s.field != g || Count(rest, g) > 0 {
        l := TellsCounts(u, Means(s), g);
      } else if !Plain(rest) {
        l := TellsSecond(u, s, u[..i], g, rest);
      } else {
        PlainIsChars(u[..i], map[]);
        PlainIsChars(rest, map[]);
        MeansAround(s);
        l := TellsAround(Spell(u[..i], map[]), Spell(rest, map[]), PreOf(s), g, PostOf(s));
      }
    }
  }

  lemma TellsPlain(u: Word, s: Source) returns (l: Labels)
    requires SimpleSource(s) && Plain(u) && u != Means(s)
    ensures Spell(u, l) != Spell(Means(s), l)
  {
    if s.Text? {
      l := map[];
      PlainIsChars(u, l);
      SpellChars(s.s, l);
    } else {
      CountPlain(u, s.field);
      CountMeans(s, s.field);
      l := TellsCounts(u, Means(s), s.field);
    }
  }

  lemma TellsSecond(u: Word, s: Source, a: Word, g: string, rest: Word) returns (l: Labels)
    requires SimpleSource(s) && !s.Text? && s.field == g && u == a + [Fld(g)] + rest && Plain(a)
    requires !Plain(rest) && Count(rest, g) == 0
    ensures Spell(u, l) != Spell(Means(s), l)
  {
    var j := FirstLabel(rest);
    var h := rest[j].f;
    CountsFirst(rest[..j], h, rest[j + 1..], h);
    CountsFirst(a, g, rest, h);
    CountMeans(s, h);
    l := TellsCounts(u, Means(s), h);
  }

  // ---------------------------------------------------------------------------
  // Exactly when the pipes are right
  // ---------------------------------------------------------------------------

  /** Every assignment that is not overwritten has a pipe that leaves what it means. */
  predicate Right(st: seq<Assign>)
    requires Simple(st)
  {
    forall i :: 0 <= i < |st| ==> Overwritten(st, i) || Leaves(st[i].src, Pushed(st[..i])) == Means(st[i].src)
  }

  lemma {:induction false} RightIs(st: seq<Assign>)
    requires Simple(st)
    ensures Right(st) <==> Pushed(st) == Meant(st)
  {
    SameKeys(st);
    if Pushed(st) == Meant(st) {
      forall i | 0 <= i < |st| && !Overwritten(st, i)
        ensures Leaves(st[i].src, Pushed(st[..i])) == Means(st[i].src)
      {
        LastPipe(st, i);
      }
    }
    if Right(st) {
      forall f | f in Pushed(st) ensures Pushed(st)[f] == Meant(st)[f] {
        var i := FindLast(st, f);
        LastPipe(st, i);
      }
    }
  }

  /** Pushed down, a stage gives every entry the right labels exactly when every
      pipe that is not overwritten leaves, label for label, what it means. */
  lemma {:induction false} RightExactly(run: (nat, Labels) -> string, st: seq<Assign>)
    requires Simple(st)
    ensures AlwaysRight(run, st) <==> Right(st)
  {
    RightIs(st);
    SameKeys(st);
    if Right(st) {
      forall l: Labels ensures PushedDown(st, l) == Simultaneous(run, st, l) {
        PushedIs(st, l);
        MeantIs(run, st, l);
      }
    } else {
      var i :| 0 <= i < |st| && !Overwritten(st, i) && Leaves(st[i].src, Pushed(st[..i])) != Means(st[i].src);
      LastPipe(st, i);
      WrongShows(run, st, st[i].name, st[i].src);
    }
  }

  lemma {:induction false} WrongShows(run: (nat, Labels) -> string, st: seq<Assign>, f: string, s: Source)
    requires Simple(st) && SimpleSource(s)
    requires f in Pushed(st) && f in Meant(st) && Meant(st)[f] == Means(s) && Pushed(st)[f] != Means(s)
    ensures !AlwaysRight(run, st)
  {
    var l := TellsWord(Pushed(st)[f], s);
    PushedIs(st, l);
    MeantIs(run, st, l);
    assert PushedDown(st, l)[f] != Simultaneous(run, st, l)[f];
  }

  // ---------------------------------------------------------------------------
  // A condition on the text of the stage
  // ---------------------------------------------------------------------------

  predicate HasPlaceholder(t: string) {
    exists i, j :: 0 <= i < j < |t| && t[i] == '<' && t[j] == '>'
  }

  /** The names the scanner accepts have no brackets. */
  predicate Name(f: string) {
    forall i :: 0 <= i < |f| ==> f[i] != '<' && f[i] != '>'
  }

  predicate Named(st: seq<Assign>) {
    forall i :: 0 <= i < |st| ==> NamedSource(st[i].src)
  }

  predicate NamedSource(s: Source) {
    s.Rename? || s.Ref? ==> Name(s.field)
  }

  /** No label is assigned twice, which the validator demands. */
  predicate Distinct(st: seq<Assign>) {
    forall i, j :: 0 <= i < j < |st| ==> st[i].name != st[j].name
  }

  /** No renames, no text that could be taken for placeholders, and references
      only to labels that no earlier assignment changes. */
  predicate Translatable(st: seq<Assign>) {
    forall i :: 0 <= i < |st| ==> TranslatableAt(st, i)
  }

  predicate TranslatableAt(st: seq<Assign>, i: nat)
    requires i < |st|
  {
    match st[i].src
    case Rename(_) => false
    case Text(t) => !HasPlaceholder(t)
    case Ref(_, f, _) => forall j :: 0 <= j < i && st[j].name == f ==> st[j].src == Ref("", f, "")
    case Other(_) => false
  }

  lemma {:induction false} NoPlaceholderTail(t: string, k: nat)
    requires k <= |t| && !HasPlaceholder(t)
    ensures !HasPlaceholder(t[k..])
  {
    assert forall i :: 0 <= i < |t| - k ==> t[k..][i] == t[k + i];
  }

  lemma {:induction false} PlainParts(t: string)
    requires !HasPlaceholder(t)
    ensures Parts(t) == Chars(t)
  {
    if t != "" {
      NoPlaceholderTail(t, 1);
      PlainParts(t[1..]);
    }
  }

  lemma {:induction false} FillChars(s: string, m: Words)
    ensures Fill(Chars(s), m) == Chars(s)
  {
    if s != "" { FillChars(s[1..], m); }
  }

  lemma {:induction false} FillConcat(a: Word, b: Word, m: Words)
    ensures Fill(a + b, m) == Fill(a, m) + Fill(b, m)
  {
    if a == [] {
      assert a + b == b;
    } else {
      assert (a + b)[1..] == a[1..] + b;
      FillConcat(a[1..], b, m);
    }
  }

  /** Text without an opening bracket is read by itself. */
  lemma {:induction false} PartsAfter(pre: string, t: string)
    requires '<' !in pre
    ensures Parts(pre + t) == Chars(pre) + Parts(t)
  {
    if pre == "" {
      assert pre + t == t;
    } else {
      assert (pre + t)[1..] == pre[1..] + t;
      PartsAfter(pre[1..], t);
    }
  }

  lemma {:induction false} CloseOf(f: string, t: string)
    requires '>' !in f
    ensures FirstClose(f + ">" + t) == |f|
  {
    var all := f + ">" + t;
    var n := FirstClose(all);
    assert all[|f|] == '>' && forall i :: 0 <= i < |f| ==> all[i] == f[i];
  }

  lemma {:induction false} PartsOfReference(f: string, post: string)
    requires Name(f)
    ensures Parts("<" + f + ">" + post) == [Fld(f)] + Parts(post)
  {
    var t := "<" + f + ">" + post;
    assert t == ("<" + f) + ">" + post;
    CloseOf("<" + f, post);
    assert t[1..|f| + 1] == f && t[|f| + 2..] == post;
  }

  lemma {:induction false} LeavesOfRef(s: Source, m: Words)
    requires s.Ref? && SimpleSource(s) && Name(s.field)
    ensures Leaves(s, m) == Chars(s.pre) + At(m, s.field) + Chars(s.post)
  {
    PartsOfRef(s);
    FillAround(s.pre, s.field, s.post, m);
  }

  lemma {:induction false} PartsOfRef(s: Source)
    requires s.Ref? && SimpleSource(s) && Name(s.field)
    ensures Parts(Emitted(s)) == Chars(s.pre) + ([Fld(s.field)] + Chars(s.post))
  {
    PartsAfter(s.pre, "<" + s.field + ">" + s.post);
    PartsOfReference(s.field, s.post);
    PlainParts(s.post);
  }

  lemma {:induction false} FillAround(a: string, f: string, b: string, m: Words)
    ensures Fill(Chars(a) + ([Fld(f)] + Chars(b)), m) == Chars(a) + At(m, f) + Chars(b)
  {
    FillConcat(Chars(a), [Fld(f)] + Chars(b), m);
    FillCons(Fld(f), Chars(b), m);
    FillChars(a, m);
    FillChars(b, m);
    assert Chars(a) + (At(m, f) + Chars(b)) == Chars(a) + At(m, f) + Chars(b);
  }

  /** A rename leaves the text of its name, never the label. */
  lemma {:induction false} LeavesOfRename(f: string, m: Words)
    requires Name(f)
    ensures Leaves(Rename(f), m) == Chars(f) && Leaves(Rename(f), m) != Means(Rename(f))
  {
    PlainParts(f);
    FillChars(f, m);
    CharsPlain(f);
  }

  /** What the labels hold is no text with a placeholder. */
  predicate Honest(m: Words) {
    forall g :: g in m && Plain(m[g]) ==> !HasPlaceholder(Spell(m[g], map[]))
  }

  lemma {:induction false} CharsSlice(y: string, n: nat)
    requires n <= |y|
    ensures |Chars(y)| == |y| && Chars(y)[..n] == Chars(y[..n]) && Chars(y)[n..] == Chars(y[n..])
  {
    assert y == y[..n] + y[n..];
    CharsConcat(y[..n], y[n..]);
    CharsPlain(y[..n]);
    CharsPlain(y[n..]);
  }

  lemma {:induction false} HasIt(d: string, f: string, s: string)
    requires |d| + |f| + 2 <= |s| && s[..|d| + |f| + 2] == d + ("<" + f + ">")
    ensures HasPlaceholder(s)
  {
    var p := s[..|d| + |f| + 2];
    assert p[|d|] == '<' && p[|d| + |f| + 1] == '>';
    assert s[|d|] == '<' && s[|d| + |f| + 1] == '>';
  }

  lemma {:induction false} SplitChars(w: Word, x: Word, y: string)
    requires w + x == Chars(y)
    ensures |w| <= |y| && w == Chars(y[..|w|]) && x == Chars(y[|w|..])
    ensures Plain(w) && Spell(w, map[]) == y[..|w|]
  {
    CharsPlain(y);
    assert Chars(y)[..|w|] == w && Chars(y)[|w|..] == x;
    CharsSlice(y, |w|);
    CharsPlain(y[..|w|]);
    SpellChars(y[..|w|], map[]);
  }

  lemma {:induction false} FillFirst(t: string, m: Words)
    requires t != ""
    ensures var n := FirstClose(t);
      Fill(Parts(t), m) ==
        if t[0] == '<' && n < |t| then At(m, t[1..n]) + Fill(Parts(t[n + 1..]), m)
        else [Chr(t[0])] + Fill(Parts(t[1..]), m)
  {
    var n := FirstClose(t);
    if t[0] == '<' && n < |t| {
      FillCons(Fld(t[1..n]), Parts(t[n + 1..]), m);
    } else {
      FillCons(Chr(t[0]), Parts(t[1..]), m);
    }
  }

  lemma {:induction false} FillCons(p: Part, w: Word, m: Words)
    ensures Fill([p] + w, m) == (if p.Fld? then At(m, p.f) else [p]) + Fill(w, m)
  {
    assert ([p] + w)[1..] == w;
  }

  /** Filling the placeholders of a text with text that has none gives a text that
      has fallen behind the original: it is never the original again. */
  lemma {:induction false} FallsBehind(t: string, d: string, m: Words)
    requires Honest(m) && (d != "" || HasPlaceholder(t))
    ensures Fill(Parts(t), m) != Chars(d + t)
    decreases |t|, 1
  {
    if t == "" {
      CharsPlain(d + t);
    } else if t[0] == '<' && FirstClose(t) < |t| {
      FallsOne(t, d, m);
    } else {
      KeepsPace(t, d, m);
    }
  }

  /** A character is copied and the distance stays. */
  lemma {:induction false} KeepsPace(t: string, d: string, m: Words)
    requires Honest(m) && (d != "" || HasPlaceholder(t)) && t != "" && !(t[0] == '<' && FirstClose(t) < |t|)
    ensures Fill(Parts(t), m) != Chars(d + t)
    decreases |t|, 0
  {
    var d', rest := (d + [t[0]])[1..], t[1..];
    if d == "" { StillThere(t); }
    FallsBehind(rest, d', m);
    FillFirst(t, m);
    Shifts(d, t);
    if Fill(Parts(t), m) == Chars(d + t) {
      SplitChars([Chr(t[0])], Fill(Parts(rest), m), d + t);
    }
  }

  lemma {:induction false} Shifts(d: string, t: string)
    requires t != ""
    ensures (d + t)[1..] == (d + [t[0]])[1..] + t[1..]
  {
  }

  lemma {:induction false} StillThere(t: string)
    requires HasPlaceholder(t) && !(t[0] == '<' && FirstClose(t) < |t|)
    ensures HasPlaceholder(t[1..])
  {
    var i, j :| 0 <= i < j < |t| && t[i] == '<' && t[j] == '>';
    assert t[1..][i - 1] == '<' && t[1..][j - 1] == '>';
  }

  /** A placeholder is filled with less than its own text. */
  lemma {:induction false} FallsOne(t: string, d: string, m: Words)
    requires Honest(m) && t != "" && t[0] == '<' && FirstClose(t) < |t|
    ensures Fill(Parts(t), m) != Chars(d + t)
    decreases |t|, 0
  {
    var n := FirstClose(t);
    var f, rest, w := t[1..n], t[n + 1..], At(m, t[1..n]);
    var head := d + ("<" + f + ">");
    FillFirst(t, m);
    Bracketed(t, n);
    Assoc(d, "<" + f + ">", rest);
    if w + Fill(Parts(rest), m) == Chars(head + rest) {
      var d' := Lag(w, Fill(Parts(rest), m), m, f, head, rest, d);
      FallsBehind(rest, d', m);
    }
  }

  lemma {:induction false} Bracketed(t: string, n: nat)
    requires 0 < n < |t| && t[0] == '<' && t[n] == '>'
    ensures t == "<" + t[1..n] + ">" + t[n + 1..]
  {
  }

  lemma {:induction false} Lag(w: Word, x: Word, m: Words, f: string, head: string, rest: string, d: string)
    returns (d': string)
    requires Honest(m) && w == At(m, f) && w + x == Chars(head + rest) && head == d + ("<" + f + ">")
    ensures d' != "" && x == Chars(d' + rest)
  {
    SplitChars(w, x, head + rest);
    Behind(w, m, f, head, rest, d);
    d' := head[|w|..];
    assert (head + rest)[|w|..] == d' + rest;
  }

  lemma {:induction false} Behind(w: Word, m: Words, f: string, head: string, rest: string, d: string)
    requires Honest(m) && w == At(m, f) && Plain(w) && |w| <= |head + rest| && Spell(w, map[]) == (head + rest)[..|w|]
    requires head == d + ("<" + f + ">")
    ensures |w| < |head|
  {
    if |w| >= |head| {
      var s := (head + rest)[..|w|];
      assert s[..|d| + |f| + 2] == head;
      HasIt(d, f, s);
    }
  }

  lemma {:induction false} NeverOverwritten(st: seq<Assign>, i: nat)
    requires Distinct(st) && i < |st|
    ensures !Overwritten(st, i)
  {
  }

  /** While the pipes are right the labels hold what the assignments mean. */
  lemma {:induction false} HoldsMeaning(st: seq<Assign>, n: nat, g: string) returns (j: nat)
    requires Simple(st) && Distinct(st) && n <= |st| && g in Pushed(st[..n])
    requires forall i :: 0 <= i < n ==> Leaves(st[i].src, Pushed(st[..i])) == Means(st[i].src)
    ensures j < n && st[j].name == g && Pushed(st[..n])[g] == Means(st[j].src)
  {
    var init := st[..n];
    assert init[..n - 1] == st[..n - 1];
    if st[n - 1].name == g {
      j := n - 1;
    } else {
      j := HoldsMeaning(st, n - 1, g);
    }
  }

  lemma {:induction false} MeansPlain(s: Source)
    requires !s.Other?
    ensures Plain(Means(s)) <==> s.Text?
  {
    match s
    case Rename(f) => assert Means(s)[0] == Fld(f);
    case Text(t) => CharsPlain(t);
    case Ref(pre, f, post) => assert Means(s)[|Chars(pre)|] == Fld(f);
  }

  lemma {:induction false} MeansTheLabel(s: Source, f: string)
    requires !s.Other? && Means(s) == [Fld(f)]
    ensures s == Rename(f) || s == Ref("", f, "")
  {
    MeansPlain(s);
    assert [Fld(f)][0] == Fld(f);
    if s.Ref? {
      CharsPlain(s.pre);
      CharsPlain(s.post);
      assert |Means(s)| == |s.pre| + 1 + |s.post|;
      assert Means(s)[|Chars(s.pre)|] == Fld(s.field);
    }
  }

  lemma {:induction false} Cancel(a: Word, x: Word, y: Word, b: Word)
    requires a + x + b == a + y + b
    ensures x == y
  {
    assert |x| == |y|;
    assert (a + x + b)[|a|..|a| + |x|] == x && (a + y + b)[|a|..|a| + |y|] == y;
  }

  ghost predicate RightUpTo(st: seq<Assign>, n: nat)
    requires Simple(st) && n <= |st|
  {
    forall i :: 0 <= i < n ==> Leaves(st[i].src, Pushed(st[..i])) == Means(st[i].src)
  }

  ghost predicate TranslatableUpTo(st: seq<Assign>, n: nat)
    requires n <= |st|
  {
    forall i :: 0 <= i < n ==> TranslatableAt(st, i)
  }

  /** The label still holds itself exactly when only copies of itself were written to it. */
  lemma {:induction false} HoldsItself(st: seq<Assign>, n: nat, f: string)
    requires Simple(st) && Distinct(st) && n <= |st| && RightUpTo(st, n) && TranslatableUpTo(st, n)
    ensures At(Pushed(st[..n]), f) == [Fld(f)] <==>
      forall j :: 0 <= j < n && st[j].name == f ==> st[j].src == Ref("", f, "")
  {
    SameKeys(st[..n]);
    assert forall j :: 0 <= j < n ==> st[..n][j] == st[j];
    if f in Pushed(st[..n]) {
      var j := HoldsMeaning(st, n, f);
      assert TranslatableAt(st, j) && SimpleSource(st[j].src);
      MeansItself(st[j].src, f);
    }
  }

  lemma {:induction false} MeansItself(s: Source, f: string)
    requires !s.Other? && !s.Rename?
    ensures Means(s) == [Fld(f)] <==> s == Ref("", f, "")
  {
    if Means(s) == [Fld(f)] { MeansTheLabel(s, f); }
    assert Chars("") + [Fld(f)] + Chars("") == [Fld(f)];
  }

  lemma {:induction false} OneReference(st: seq<Assign>, n: nat)
    requires Simple(st) && Named(st) && Distinct(st) && n < |st| && RightUpTo(st, n) && TranslatableUpTo(st, n)
    requires st[n].src.Ref?
    ensures Leaves(st[n].src, Pushed(st[..n])) == Means(st[n].src) <==> TranslatableAt(st, n)
  {
    var s, m := st[n].src, Pushed(st[..n]);
    assert NamedSource(s) && SimpleSource(s);
    LeavesOfRef(s, m);
    HoldsItself(st, n, s.field);
    if Leaves(s, m) == Means(s) { Cancel(Chars(s.pre), At(m, s.field), [Fld(s.field)], Chars(s.post)); }
  }

  lemma {:induction false} OneText(st: seq<Assign>, n: nat)
    requires Simple(st) && Distinct(st) && n < |st| && RightUpTo(st, n) && TranslatableUpTo(st, n)
    requires st[n].src.Text?
    ensures Leaves(st[n].src, Pushed(st[..n])) == Means(st[n].src) <==> TranslatableAt(st, n)
  {
    var t, m := st[n].src.s, Pushed(st[..n]);
    if HasPlaceholder(t) {
      forall g | g in m && Plain(m[g]) ensures !HasPlaceholder(Spell(m[g], map[])) {
        var j := HoldsMeaning(st, n, g);
        assert TranslatableAt(st, j) && SimpleSource(st[j].src);
        MeansPlain(st[j].src);
        SpellChars(st[j].src.s, map[]);
      }
      FallsBehind(t, "", m);
      assert "" + t == t;
    } else {
      PlainParts(t);
      FillChars(t, m);
    }
  }

  lemma {:induction false} UpTo(st: seq<Assign>, n: nat)
    requires Simple(st) && Named(st) && Distinct(st) && n <= |st|
    ensures RightUpTo(st, n) <==> TranslatableUpTo(st, n)
  {
    if n > 0 {
      UpTo(st, n - 1);
      OneMore(st, n - 1);
      if RightUpTo(st, n - 1) { OneAssignment(st, n - 1); }
    }
  }

  lemma {:induction false} OneMore(st: seq<Assign>, n: nat)
    requires Simple(st) && n < |st|
    ensures RightUpTo(st, n + 1) <==> RightUpTo(st, n) && Leaves(st[n].src, Pushed(st[..n])) == Means(st[n].src)
    ensures TranslatableUpTo(st, n + 1) <==> TranslatableUpTo(st, n) && TranslatableAt(st, n)
  {
  }

  lemma {:induction false} OneAssignment(st: seq<Assign>, n: nat)
    requires Simple(st) && Named(st) && Distinct(st) && n < |st| && RightUpTo(st, n) && TranslatableUpTo(st, n)
    ensures Leaves(st[n].src, Pushed(st[..n])) == Means(st[n].src) <==> TranslatableAt(st, n)
  {
    var s := st[n].src;
    assert SimpleSource(s) && NamedSource(s);
    if s.Rename? {
      LeavesOfRename(s.field, Pushed(st[..n]));
    } else if s.Text? {
      OneText(st, n);
    } else {
      OneReference(st, n);
    }
  }

  lemma {:induction false} RightIsTranslatable(st: seq<Assign>)
    requires Simple(st) && Named(st) && Distinct(st)
    ensures Right(st) <==> Translatable(st)
  {
    UpTo(st, |st|);
    forall i | 0 <= i < |st| ensures !Overwritten(st, i) {
      NeverOverwritten(st, i);
    }
  }

  /** The pipes of a validated stage give every entry the right labels exactly when
      it has no rename, no text with a placeholder, and no reference to a label
      that an earlier assignment changes. */
  lemma {:induction false} PushedDownExactly(run: (nat, Labels) -> string, st: seq<Assign>)
    requires Simple(st) && Named(st) && Distinct(st)
    ensures AlwaysRight(run, st) <==> Translatable(st)
  {
    RightExactly(run, st);
    RightIsTranslatable(st);
  }

  predicate OnlyTextsAndReferences(st: seq<Assign>) {
    forall i :: 0 <= i < |st| ==> !st[i].src.Rename? && (st[i].src.Text? ==> !HasPlaceholder(st[i].src.s))
  }

  /** So the pushdown test is enough exactly for stages without renames and
      without texts that have placeholders. */
  lemma {:induction false} TestIsEnoughExactly(run: (nat, Labels) -> string, st: seq<Assign>)
    requires Simple(st) && Named(st) && Distinct(st) && Pushable(st)
    ensures AlwaysRight(run, st) <==> OnlyTextsAndReferences(st)
  {
    PushedDownExactly(run, st);
    if OnlyTextsAndReferences(st) {
      forall i | 0 <= i < |st| ensures TranslatableAt(st, i) {
        assert PushableSource(st, st[i].src);
      }
    }
    if Translatable(st) {
      forall i | 0 <= i < |st| ensures !st[i].src.Rename? && (st[i].src.Text? ==> !HasPlaceholder(st[i].src.s)) {
        assert TranslatableAt(st, i);
      }
    }
  }

  // ---------------------------------------------------------------------------
  // Two stages that pass the test
  // ---------------------------------------------------------------------------

  lemma {:induction false} OnePipe(run: (nat, Labels) -> string, a: Assign, l: Labels)
    requires SimpleSource(a.src)
    ensures Simple([a]) && PushedDown([a], l) == l[a.name := Spell(Parts(Emitted(a.src)), l)]
    ensures Simultaneous(run, [a], l) == l[a.name := Value(run, a.src, l)]
  {
    var st := [a];
    assert st[..0] == [];
    assert PushedDown([], l) == l && Out(run, [], l) == map[];
    assert l + map[] == l;
    MergeUpdate(l, map[], a.name, Value(run, a.src, l));
  }

  /** A bare rename passes the test, and its pipe writes the name of the label
      instead of its value. */
  lemma {:induction false} BareRenameWritesTheName(run: (nat, Labels) -> string, a: string, b: string, l: Labels)
    requires Name(b)
    ensures var st := [Assign(a, Rename(b))];
      && Pushable(st) && Simple(st)
      && PushedDown(st, l) == l[a := b] && Simultaneous(run, st, l) == l[a := Get(l, b)]
      && (PushedDown(st, l) == Simultaneous(run, st, l) <==> Get(l, b) == b)
  {
    OnePipe(run, Assign(a, Rename(b)), l);
    PlainParts(b);
    SpellChars(b, l);
    assert l[a := b][a] == b && l[a := Get(l, b)][a] == Get(l, b);
  }

  /** A text that looks like a placeholder passes the test too, and gets the same
      pipe as the reference to that label. */
  lemma {:induction false} BracketedTextReadsTheLabel(run: (nat, Labels) -> string, a: string, b: string, l: Labels)
    requires Name(b)
    ensures var text, ref := Text("<" + b + ">"), Ref("", b, "");
      && Emitted(text) == Emitted(ref) && Pushable([Assign(a, text)]) && Simple([Assign(a, text)])
      && PushedDown([Assign(a, text)], l) == l[a := Get(l, b)]
      && Simultaneous(run, [Assign(a, text)], l) == l[a := "<" + b + ">"]
  {
    var t := "<" + b + ">";
    assert "" + ("<" + b + ">" + "") == t;
    OnePipe(run, Assign(a, Text(t)), l);
    PartsOfReference(b, "");
    assert "<" + b + ">" + "" == t;
    assert [Fld(b)] + [] == [Fld(b)];
    SpellOne(b, l);
  }

  /** An assignment as it is written, and a pipe of the backend. */
  datatype Written = Written(name: string, template: string)

  datatype Pipe = Format(template: string, field: string)

  /** The loop that turns the assignments into pipes, in their order. */
  method TranslateLabelFormat(assignments: seq<Written>) returns (pipes: seq<Pipe>)
    ensures |pipes| == |assignments|
    ensures forall i :: 0 <= i < |pipes| ==>
      pipes[i] == Format(ConvertGoTemplate(assignments[i].template), assignments[i].name)
  {
    pipes := [];
    for i := 0 to |assignments|
      invariant |pipes| == i
      invariant forall j :: 0 <= j < i ==>
        pipes[j] == Format(ConvertGoTemplate(assignments[j].template), assignments[j].name)
    {
      pipes := pipes + [Format(ConvertGoTemplate(assignments[i].template), assignments[i].name)];
    }
  }
}
