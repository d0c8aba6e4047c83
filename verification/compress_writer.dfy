/** The response writer that holds a body back until it is worth compressing.
    The codec is the identity: `packed` is what the compressor was given. */
module CompressWriter {
  import opened Wrappers

  type Byte = b: int | 0 <= b < 256
  type Bytes = seq<Byte>

  datatype Config = Config(encoding: string, minBytes: int)

  /** `encoded` says that the Content-Encoding header is set, `raw` is what the
      underlying writer was given directly, `sent` the statuses it was given;
      `acquired` and `released` count hold buffers. */
  datatype Writer = Writer(
    status: int, started: bool, bypass: bool, buf: Option<Bytes>, encoded: bool,
    raw: Bytes, packed: Bytes, sent: seq<int>, acquired: nat, released: nat)

  const NEW := Writer(0, false, false, None, false, [], [], [], 0, 0)

  /** What a handler does with the writer. */
  datatype Op = Write(b: Bytes) | WriteHeader(code: int) | Flush | SetEncoding(on: bool)

  predicate AllowsBody(code: int) {
    !(100 <= code < 200) && code != 204 && code != 304
  }

  predicate ShouldBypass(c: Config, w: Writer) {
    c.encoding == "" || !AllowsBody(w.status) || w.encoded
  }

  function Held(w: Writer): Bytes {
    if w.buf.Some? then w.buf.value else []
  }

  function Status(w: Writer): seq<int> {
    if w.status != 0 then w.sent + [w.status] else w.sent
  }

  /** Give the hold buffer back, if there is one. */
  function Released(w: Writer): Writer {
    if w.buf.None? then w else w.(buf := None, released := w.released + 1)
  }

  function StartCompression(w: Writer): Writer {
    if w.started then w
    else Released(w.(started := true, encoded := true, sent := Status(w), packed := w.packed + Held(w)))
  }

  function StartBypass(w: Writer): Writer {
    if w.started then w
    else Released(w.(started := true, bypass := true, sent := Status(w), raw := w.raw + Held(w)))
  }

  function Forward(w: Writer, b: Bytes): Writer {
    if w.bypass then w.(raw := w.raw + b) else w.(packed := w.packed + b)
  }

  function Buffered(w: Writer, b: Bytes): Writer {
    w.(buf := Some(Held(w) + b), acquired := if w.buf.None? then w.acquired + 1 else w.acquired)
  }

  function DoWrite(c: Config, w: Writer, b: Bytes): Writer {
    if w.started then Forward(w, b)
    else
      var w := if w.status == 0 then w.(status := 200) else w;
      if ShouldBypass(c, w) then Forward(StartBypass(w), b)
      else if c.minBytes <= 0 then Forward(StartCompression(w), b)
      else if |Held(w) + b| >= c.minBytes then StartCompression(Buffered(w, b))
      else Buffered(w, b)
  }

  function Step(c: Config, w: Writer, op: Op): Writer {
    match op
    case Write(b) => DoWrite(c, w, b)
    case WriteHeader(code) => if w.started then w else w.(status := code)
    case Flush =>
      if w.started then w else if ShouldBypass(c, w) then StartBypass(w) else StartCompression(w)
    case SetEncoding(on) => w.(encoded := on)
  }

  function Finish(c: Config, w: Writer): Writer {
    if w.started then Released(w)
    else if ShouldBypass(c, w) || |Held(w)| < c.minBytes then Released(StartBypass(w))
    else Released(StartCompression(w))
  }

  function Run(c: Config, ops: seq<Op>): Writer {
    if ops == [] then NEW else Step(c, Run(c, ops[..|ops| - 1]), ops[|ops| - 1])
  }

  /** Everything the handler wrote, in order. */
  function Body(ops: seq<Op>): Bytes {
    if ops == [] then []
    else Body(ops[..|ops| - 1]) + (if ops[|ops| - 1].Write? then ops[|ops| - 1].b else [])
  }

  // ---------------------------------------------------------------------------
  // Conservation
  // ---------------------------------------------------------------------------

  predicate Conserves(w: Writer, body: Bytes) {
    if !w.started then
      && !w.bypass && w.raw == [] && w.packed == [] && w.sent == [] && Held(w) == body
      && w.released == 0 && w.acquired == (if w.buf.Some? then 1 else 0)
    else
      && w.buf.None? && w.acquired == w.released <= 1
      && w.sent == (if w.status == 0 then [] else [w.status])
      && (if w.bypass then w.raw == body && w.packed == [] else w.packed == body && w.raw == [])
  }

  lemma {:induction false} StartConserves(w: Writer, body: Bytes)
    requires Conserves(w, body)
    ensures Conserves(StartBypass(w), body) && Conserves(StartCompression(w), body)
  {
  }

  lemma {:induction false} ForwardConserves(w: Writer, body: Bytes, b: Bytes)
    requires Conserves(w, body) && w.started
    ensures Conserves(Forward(w, b), body + b)
  {
  }

  lemma {:induction false} WriteConserves(c: Config, w: Writer, body: Bytes, b: Bytes)
    requires Conserves(w, body)
    ensures Conserves(DoWrite(c, w, b), body + b)
  {
    if w.started {
      ForwardConserves(w, body, b);
    } else {
      var w1 := if w.status == 0 then w.(status := 200) else w;
      StartConserves(w1, body);
      ForwardConserves(StartBypass(w1), body, b);
      ForwardConserves(StartCompression(w1), body, b);
      StartConserves(Buffered(w1, b), body + b);
    }
  }

  /** At every moment the held bytes, or one of the two sinks, are exactly the
      body so far, and the other places are empty. */
  lemma {:induction false} RunConserves(c: Config, ops: seq<Op>)
    ensures Conserves(Run(c, ops), Body(ops))
  {
    if ops != [] {
      var init, op := ops[..|ops| - 1], ops[|ops| - 1];
      RunConserves(c, init);
      var w := Run(c, init);
      assert Body(init) + [] == Body(init);
      match op
      case Write(b) => WriteConserves(c, w, Body(init), b);
      case Flush => StartConserves(w, Body(init));
      case _ =>
    }
  }

  /** After `finish` one sink has taken the whole body in order and the other
      nothing, a status was sent at most once, and every hold buffer that was
      acquired was released once. */
  lemma {:induction false} BodyReachesOneSink(c: Config, ops: seq<Op>)
    ensures var w := Finish(c, Run(c, ops));
      && (if w.bypass then w.raw == Body(ops) && w.packed == [] else w.packed == Body(ops) && w.raw == [])
      && w.sent == (if w.status == 0 then [] else [w.status])
      && w.buf == None && w.acquired == w.released <= 1
  {
    RunConserves(c, ops);
    StartConserves(Run(c, ops), Body(ops));
  }

  /** Once output started, neither the sink nor the status can change. */
  lemma {:induction false} DecisionIsFinal(c: Config, ops: seq<Op>, op: Op)
    requires Run(c, ops).started
    ensures var w, w' := Run(c, ops), Run(c, ops + [op]);
      w'.started && w'.bypass == w.bypass && w'.sent == w.sent && w'.status == w.status
  {
    assert (ops + [op])[..|ops|] == ops;
  }

  // ---------------------------------------------------------------------------
  // Which sink
  // ---------------------------------------------------------------------------

  /** No flush, no encoding of the handler's own, and only statuses with a body. */
  predicate Plain(ops: seq<Op>) {
    forall i :: 0 <= i < |ops| ==>
      match ops[i]
      case Write(_) => true
      case WriteHeader(code) => AllowsBody(code)
      case Flush => false
      case SetEncoding(_) => false
  }

  predicate Writes(ops: seq<Op>) {
    exists i :: 0 <= i < |ops| && ops[i].Write?
  }

  lemma {:induction false} PlainRun(c: Config, ops: seq<Op>)
    requires Plain(ops) && c.encoding != ""
    ensures var w := Run(c, ops);
      && AllowsBody(w.status) && !w.bypass && (w.encoded ==> w.started)
      && (w.started ==> |Body(ops)| >= c.minBytes)
      && (!w.started ==> |Body(ops)| < c.minBytes || !Writes(ops))
  {
    if ops != [] {
      var init, op := ops[..|ops| - 1], ops[|ops| - 1];
      PlainRun(c, init);
      RunConserves(c, init);
      assert Writes(ops) ==> op.Write? || Writes(init) by {
        if i :| 0 <= i < |ops| && ops[i].Write? { assert i < |init| ==> init[i].Write?; }
      }
    }
  }

  lemma {:induction false} NoWritesNoBody(ops: seq<Op>)
    requires !Writes(ops)
    ensures Body(ops) == []
  {
    if ops != [] {
      var init := ops[..|ops| - 1];
      assert forall i :: 0 <= i < |init| ==> !init[i].Write? by {
        assert forall i :: 0 <= i < |init| ==> init[i] == ops[i];
      }
      assert !ops[|ops| - 1].Write?;
      NoWritesNoBody(init);
    }
  }

  /** A plain response is compressed exactly when its whole body is at least
      `minBytes` long, however it was cut into writes. */
  lemma {:induction false} ThresholdDecides(c: Config, ops: seq<Op>)
    requires Plain(ops) && c.encoding != ""
    ensures !Finish(c, Run(c, ops)).bypass <==> |Body(ops)| >= c.minBytes
  {
    PlainRun(c, ops);
    RunConserves(c, ops);
    if !Writes(ops) { NoWritesNoBody(ops); }
  }

  // ---------------------------------------------------------------------------
  // The outcome of every run, told from the operations
  // ---------------------------------------------------------------------------

  /** The status the operations ask for: that of the last header, or 200 for a
      write that finds none; 0 for neither. */
  function Chosen(ops: seq<Op>): int {
    if ops == [] then 0
    else
      var before := Chosen(ops[..|ops| - 1]);
      match ops[|ops| - 1]
      case WriteHeader(code) => code
      case Write(_) => if before == 0 then 200 else before
      case _ => before
  }

  /** Whether the handler's own encoding is set: the last word counts. */
  function OwnEncoding(ops: seq<Op>): bool {
    if ops == [] then false
    else if ops[|ops| - 1].SetEncoding? then ops[|ops| - 1].on
    else OwnEncoding(ops[..|ops| - 1])
  }

  predicate LastHeader(ops: seq<Op>, i: nat) {
    i < |ops| && ops[i].WriteHeader? && forall j :: i < j < |ops| ==> !ops[j].WriteHeader?
  }

  /** Without a header the status is 200 exactly if something was written; with
      one it is that of the last header, unless that is 0, which is no status. */
  lemma {:induction false} ChosenIs(ops: seq<Op>)
    ensures (forall i: nat :: !LastHeader(ops, i)) ==> Chosen(ops) == if Writes(ops) then 200 else 0
    ensures forall i: nat :: LastHeader(ops, i) && ops[i].code != 0 ==> Chosen(ops) == ops[i].code
  {
    if ops != [] {
      var init, op := ops[..|ops| - 1], ops[|ops| - 1];
      ChosenIs(init);
      assert forall j :: 0 <= j < |init| ==> init[j] == ops[j];
      if op.WriteHeader? {
        assert LastHeader(ops, |ops| - 1);
      } else {
        assert forall i: nat :: LastHeader(init, i) <==> LastHeader(ops, i);
        assert Writes(ops) <==> Writes(init) || op.Write? by { WritesGrow(ops); }
      }
    }
  }

  lemma {:induction false} WritesGrow(ops: seq<Op>)
    requires ops != []
    ensures Writes(ops) <==> Writes(ops[..|ops| - 1]) || ops[|ops| - 1].Write?
  {
    var init := ops[..|ops| - 1];
    assert forall j :: 0 <= j < |init| ==> init[j] == ops[j];
    if i :| 0 <= i < |ops| && ops[i].Write? { assert i < |init| ==> init[i].Write?; }
    if i :| 0 <= i < |init| && init[i].Write? { assert ops[i].Write?; }
  }

  /** No encoding was negotiated, the status has no body, or the handler encodes itself. */
  predicate Bypasses(c: Config, ops: seq<Op>) {
    c.encoding == "" || !AllowsBody(Chosen(ops)) || OwnEncoding(ops)
  }

  /** The last operation makes a writer that holds everything back start its
      output: a flush, or a write that need not or must not be held back. */
  predicate Starts(c: Config, ops: seq<Op>) {
    ops != [] &&
    match ops[|ops| - 1]
    case Flush => true
    case Write(_) => Bypasses(c, ops) || c.minBytes <= 0 || |Body(ops)| >= c.minBytes
    case _ => false
  }

  predicate StartsAt(c: Config, ops: seq<Op>, j: nat)
    requires j < |ops|
  {
    Starts(c, ops[..j + 1])
  }

  /** Operation `i` is the first to start the output. */
  ghost predicate StartedBy(c: Config, ops: seq<Op>, i: nat) {
    i < |ops| && StartsAt(c, ops, i) && forall j: nat :: j < i ==> !StartsAt(c, ops, j)
  }

  ghost predicate HeldBack(c: Config, ops: seq<Op>) {
    forall j: nat :: j < |ops| ==> !StartsAt(c, ops, j)
  }

  function StatusLine(code: int): seq<int> {
    if code == 0 then [] else [code]
  }

  lemma {:induction false} StartedStep(c: Config, ops: seq<Op>)
    requires ops != []
    ensures var init := ops[..|ops| - 1];
      && (HeldBack(c, ops) <==> HeldBack(c, init) && !Starts(c, ops))
      && (forall i: nat :: StartedBy(c, ops, i) <==>
            StartedBy(c, init, i) || (i == |init| && HeldBack(c, init) && Starts(c, ops)))
  {
    var init := ops[..|ops| - 1];
    assert ops[..|init| + 1] == ops;
    forall j: nat | j < |init| ensures StartsAt(c, init, j) <==> StartsAt(c, ops, j) {
      assert init[..j + 1] == ops[..j + 1];
    }
    assert StartsAt(c, ops, |init|) <==> Starts(c, ops);
  }

  /** While everything is held back, the writer has what the operations ask for. */
  predicate Waiting(w: Writer, ops: seq<Op>) {
    !w.started && w.status == Chosen(ops) && w.encoded == OwnEncoding(ops) && w.sent == [] && Held(w) == Body(ops)
  }

  lemma {:induction false} WaitingStep(c: Config, ops: seq<Op>)
    requires ops != [] && Waiting(Run(c, ops[..|ops| - 1]), ops[..|ops| - 1])
    ensures var w := Run(c, ops);
      if Starts(c, ops) then w.started && w.bypass == Bypasses(c, ops) && w.sent == StatusLine(Chosen(ops))
      else Waiting(w, ops)
  {
    var init := ops[..|ops| - 1];
    RunConserves(c, init);
    assert Body(init) + [] == Body(init);
    if ops[|ops| - 1].Write? { WaitingWrite(c, Run(c, init), init, ops); }
  }

  lemma {:induction false} WaitingWrite(c: Config, w: Writer, init: seq<Op>, ops: seq<Op>)
    requires ops != [] && init == ops[..|ops| - 1] && ops[|ops| - 1].Write?
    requires Waiting(w, init) && Conserves(w, Body(init))
    ensures var w' := DoWrite(c, w, ops[|ops| - 1].b);
      if Starts(c, ops) then w'.started && w'.bypass == Bypasses(c, ops) && w'.sent == StatusLine(Chosen(ops))
      else Waiting(w', ops)
  {
  }

  /** What the writer has decided once operation `i` started the output. */
  predicate Decided(c: Config, w: Writer, ops: seq<Op>, i: nat) {
    i < |ops| && w.started && w.bypass == Bypasses(c, ops[..i + 1]) && w.sent == StatusLine(Chosen(ops[..i + 1]))
  }

  lemma {:induction false} FollowsOperations(c: Config, ops: seq<Op>)
    ensures HeldBack(c, ops) ==> Waiting(Run(c, ops), ops)
    ensures forall i: nat :: StartedBy(c, ops, i) ==> Decided(c, Run(c, ops), ops, i)
    ensures HeldBack(c, ops) || exists i: nat :: StartedBy(c, ops, i)
  {
    if ops != [] {
      var init, op := ops[..|ops| - 1], ops[|ops| - 1];
      FollowsOperations(c, init);
      StartedStep(c, ops);
      if HeldBack(c, init) {
        WaitingStep(c, ops);
        assert ops[..|init| + 1] == ops;
        if Starts(c, ops) { assert StartedBy(c, ops, |init|); }
      } else {
        var i: nat :| StartedBy(c, init, i);
        assert init + [op] == ops;
        DecisionIsFinal(c, init, op);
        assert StartedBy(c, ops, i);
      }
      forall i: nat | StartedBy(c, init, i) ensures Decided(c, Run(c, ops), ops, i) {
        assert init + [op] == ops && init[..i + 1] == ops[..i + 1];
        DecisionIsFinal(c, init, op);
      }
    }
  }

  /** After `finish`, in every run: the status line and the sink are what the
      operations up to the first one that starts the output ask for. If none
      does, they are what all operations ask for, and the body is compressed
      exactly if nothing forbids it and it reaches `minBytes`. */
  lemma {:induction false} OutcomeExactly(c: Config, ops: seq<Op>)
    ensures forall i: nat :: StartedBy(c, ops, i) ==>
      Finish(c, Run(c, ops)).sent == StatusLine(Chosen(ops[..i + 1]))
      && (Finish(c, Run(c, ops)).bypass <==> Bypasses(c, ops[..i + 1]))
    ensures HeldBack(c, ops) ==>
      Finish(c, Run(c, ops)).sent == StatusLine(Chosen(ops))
      && (Finish(c, Run(c, ops)).bypass <==> Bypasses(c, ops) || |Body(ops)| < c.minBytes)
    ensures HeldBack(c, ops) || exists i: nat :: StartedBy(c, ops, i)
  {
    FollowsOperations(c, ops);
    RunConserves(c, ops);
  }

  // ---------------------------------------------------------------------------
  // The writer as it runs
  // ---------------------------------------------------------------------------

  /** A pooled buffer: nobody may touch it between release and acquisition. */
  class HoldBuffer {
    var data: Bytes
    var pooled: bool

    constructor ()
      ensures data == [] && !pooled
    {
      data, pooled := [], false;
    }

    method Append(b: Bytes)
      requires !pooled
      modifies this
      ensures data == old(data) + b && !pooled
    {
      data := data + b;
    }

    method Release()
      requires !pooled
      modifies this
      ensures pooled
    {
      pooled := true;
    }
  }

  class ResponseWriter {
    const cfg: Config
    var status: int
    var started: bool
    var bypass: bool
    var buf: HoldBuffer?
    var encoded: bool
    var raw: Bytes
    var packed: Bytes
    var sent: seq<int>
    ghost var acquired: nat
    ghost var released: nat

    ghost function View(): Writer
      reads this, buf
    {
      Writer(status, started, bypass, if buf == null then None else Some(buf.data), encoded,
             raw, packed, sent, acquired, released)
    }

    /** The buffer the writer holds is never one it gave back. */
    ghost predicate Valid()
      reads this, buf
    {
      buf != null ==> !buf.pooled
    }

    constructor (c: Config)
      ensures cfg == c && Valid() && View() == NEW && buf == null
    {
      cfg := c;
      status, started, bypass, buf, encoded := 0, false, false, null, false;
      raw, packed, sent, acquired, released := [], [], [], 0, 0;
    }

    method ReleaseHoldBuf()
      requires Valid()
      modifies this, buf
      ensures Valid() && View() == Released(old(View())) && buf == null
      ensures old(buf) != null ==> old(buf).pooled
    {
      if buf == null {
        return;
      }
      buf.Release();
      buf, released := null, released + 1;
    }

    function BypassNow(): (r: bool)
      reads this, buf
      ensures r == ShouldBypass(cfg, View())
    {
      cfg.encoding == "" || !AllowsBody(status) || encoded
    }

    method BeginCompression()
      requires Valid() && !started
      modifies this, buf
      ensures Valid() && View() == StartCompression(old(View())) && buf == null
    {
      ghost var w := View();
      started, encoded := true, true;
      if status != 0 {
        sent := sent + [status];
      }
      if buf != null && |buf.data| > 0 {
        packed := packed + buf.data;
      }
      assert View() == w.(started := true, encoded := true, sent := Status(w), packed := w.packed + Held(w));
      ReleaseHoldBuf();
    }

    method BeginBypass()
      requires Valid() && !started
      modifies this, buf
      ensures Valid() && View() == StartBypass(old(View())) && buf == null
    {
      ghost var w := View();
      started, bypass := true, true;
      if status != 0 {
        sent := sent + [status];
      }
      if buf != null && |buf.data| > 0 {
        raw := raw + buf.data;
      }
      assert View() == w.(started := true, bypass := true, sent := Status(w), raw := w.raw + Held(w));
      ReleaseHoldBuf();
    }

    method SinkWrite(b: Bytes)
      requires Valid() && started
      modifies this
      ensures Valid() && buf == old(buf) && View() == Forward(old(View()), b)
    {
      if bypass {
        raw := raw + b;
      } else {
        packed := packed + b;
      }
    }

    /** Append to the hold buffer, acquiring one for the first bytes. */
    method Hold(b: Bytes)
      requires Valid()
      modifies this, buf
      ensures Valid() && View() == Buffered(old(View()), b)
      ensures buf != null && (fresh(buf) || buf == old(buf))
    {
      if buf == null {
        buf := new HoldBuffer();
        acquired := acquired + 1;
      }
      buf.Append(b);
    }

    method WriteBytes(b: Bytes)
      requires Valid()
      modifies this, buf
      ensures Valid() && View() == DoWrite(cfg, old(View()), b)
      ensures buf == null || fresh(buf) || buf == old(buf)
    {
      if started {
        SinkWrite(b);
        return;
      }
      if status == 0 {
        status := 200;
      }
      if BypassNow() {
        BeginBypass();
        SinkWrite(b);
      } else if cfg.minBytes <= 0 {
        BeginCompression();
        SinkWrite(b);
      } else {
        Hold(b);
        if |buf.data| >= cfg.minBytes {
          BeginCompression();
        }
      }
    }

    method WriteStatus(code: int)
      requires Valid()
      modifies this
      ensures Valid() && buf == old(buf) && View() == Step(cfg, old(View()), WriteHeader(code))
    {
      if started {
        return;
      }
      status := code;
    }

    method FlushNow()
      requires Valid()
      modifies this, buf
      ensures Valid() && View() == Step(cfg, old(View()), Flush)
      ensures buf == null || buf == old(buf)
    {
      if !started {
        if BypassNow() {
          BeginBypass();
        } else {
          BeginCompression();
        }
      }
    }

    method Close()
      requires Valid()
      modifies this, buf
      ensures Valid() && View() == Finish(cfg, old(View())) && buf == null
    {
      if !started {
        var held := if buf == null then 0 else |buf.data|;
        if BypassNow() || held < cfg.minBytes {
          BeginBypass();
        } else {
          BeginCompression();
        }
      }
      ReleaseHoldBuf();
    }
  }
}
