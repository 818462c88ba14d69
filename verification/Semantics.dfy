/**
  The reference semantics of the parser: the transition table run over a whole input, one byte at a
  time.  The events carry complete spans, however the input was cut into buffers.
*/
module Semantics {
  import opened Http
  import opened Machine
  import opened Framing
  import opened Numbers
  import opened Automaton

  /** A span the parser has opened and not yet closed, with the bytes it has covered. */
  datatype OpenSpan = OpenSpan(kind: SpanKind, data: seq<byte>)

  /** `pos` counts the consumed bytes; `stop` is the error the parser stopped with, 0 while it runs. */
  datatype Config = Config(core: Core, span: Option<OpenSpan>, trace: seq<Event>, pos: nat, stop: nat)

  function InitialLine(ty: MsgType, lenient: Lenient): Line {
    Line(ty, 0, 0, 0, 0, false, Safe, lenient)
  }

  /** `llhttp__internal_init` and `llhttp_init` */
  function InitialCore(ty: MsgType, lenient: Lenient): Core {
    Core(L(Start), 0, 0, General, NoFlags, InitialLine(ty, lenient))
  }

  function Initial(ty: MsgType, lenient: Lenient): Config {
    Config(InitialCore(ty, lenient), None, [], 0, 0)
  }

  /** Consuming a byte lengthens the open span. */
  function Taken(k: Config, b: byte): Config {
    k.(pos := k.pos + 1,
       span := match k.span case Some(o) => Some(o.(data := o.data + [b])) case None => None)
  }

  function Closing(k: Config): Config {
    match k.span
    case Some(o) => k.(span := None, trace := k.trace + [Span(o.kind, o.data)])
    case None => k
  }

  function Head(buf: seq<byte>): Option<byte> { if buf == [] then None else Some(buf[0]) }

  function Advance(env: Env, k: Config, a: Act, c: Option<byte>): Config
    requires Takes(a) ==> c.Some?
  {
    match a
    case Wait => k
    case Go(next, take) => if take then Taken(k.(core := next), c.value) else k.(core := next)
    case Open(kind, next) => k.(core := next, span := Some(OpenSpan(kind, [])))
    case Close(next, take) => if take then Taken(Closing(k).(core := next), c.value) else Closing(k).(core := next)
    case Notify(event, next, _) => k.(core := next, trace := k.trace + [event])
    case AskHeaders(next) =>
      k.(core := Answered(next, env.answer(k.trace)), trace := k.trace + [HeadersComplete])
    case Fail(code, next) => k.(core := next, stop := code)
  }

  /** Why every call ends: a state of lower rank, or a byte consumed. */
  function Rank(n: Node): nat {
    match n
    case L(l) => LineRank(l)
    case U(u) => UrlRank(u)
    case N(h) => NameRank(h)
    case V(h) => ValueRank(h)
    case B(b) => BodyRank(b)
    case Error => 0
  }

  function LineRank(n: LineNode): nat {
    match n
    case Start => 5 case OnMessageBegin => 4 case LoadType => 3 case StartReqOrRes => 2
    case ReqOrResMethod => 1 case Method(_) => 1 case StartRes => 1 case ReqSpaces => 4
    case LoadMethodHttp => 1 case LoadMethodIce => 1 case LoadMethodRtsp => 1
    case ResStatusCode => 4 case ResStatusCodeOtherwise => 3 case ResStatusStart => 2 case SpanStartStatus => 1
    case OnStatusComplete => 5
    case _ => 0
  }

  function UrlRank(n: UrlNode): nat {
    match n
    case SpanStartUrlConnect => 3 case SpanStartUrl => 3 case UrlStart => 2
    case UrlSchema => 1 case UrlServer => 1 case UrlServerWithAt => 1 case UrlPath => 2
    case UrlQueryOrFragment => 1 case UrlQuery => 1 case UrlFragment => 1
    case OnUrlComplete09 => 5 case OnUrlComplete => 1
    case _ => 0
  }

  function NameRank(n: NameNode): nat {
    match n
    case FieldStart => 4 case SpanStartField => 3 case FieldGeneral => 1 case FieldGeneralOtherwise => 0
    case OnFieldComplete => 10
    case _ => 2
  }

  function ValueRank(n: ValueNode): nat {
    match n
    case DiscardWs => 9 case DiscardLws => 8
    case SpanStartEmptyValue => 7 case SpanEndEmptyValue => 6 case OnValueComplete => 5
    case SpanStartValue => 8 case LoadHeaderState => 7 case Value => 3
    case Conn => 4 case Conn1 => 4 case Conn2 => 4 case Conn3 => 4 case ConnWs => 4 case ConnToken => 3
    case Length => 4 case LengthWs => 3 case LengthOverflow => 1
    case TeChunked0 => 5 case TeChunkedLast => 6 case TeTokenOws => 6 case TeToken => 4
    case ValueOtherwise => 2 case ValueLenient => 1 case ValueLws => 9
    case _ => 0
  }

  function BodyRank(n: BodyNode): nat {
    match n
    case TestFlags => 13 case OnHeadersComplete => 12 case AfterHeadersComplete => 11
    case UpdateContentLength => 1 case ChunkSize => 1
    case OnChunkHeader => 6 case IsEqualContentLength => 5 case SpanStartChunk => 2 case ConsumeChunk => 1
    case OnChunkComplete => 2 case OnLastChunkComplete => 9
    case SpanStartIdentity => 10 case ConsumeIdentity => 9 case SpanStartEof => 1
    case OnMessageComplete => 7 case OnMessageComplete1 => 7 case OnMessageComplete2 => 8
    case IsEqualUpgrade => 7 case AfterMessageComplete => 6
    case _ => 0
  }

  /** What every transition guarantees whatever the registers hold. */
  predicate WellShaped(k: Core, c: Option<byte>, a: Act) {
    && (Takes(a) ==> c.Some?)
    && (a.Wait? ==> c.None? || k.node.Error?)
    && (!a.Wait? && !a.Fail? && !Takes(a) ==> Rank(a.next.node) < Rank(k.node))
    && (a.Fail? ==> a.code != 0 && a.code != HPE_PAUSED && (a.code == HPE_PAUSED_UPGRADE ==> !a.next.node.Error?))
    && (a.Notify? && a.fault.Some? ==> HPE_CB_MESSAGE_BEGIN <= a.fault.value <= HPE_CB_CHUNK_COMPLETE)
    && (a.Notify? ==> !a.event.HeadersComplete? && !a.event.Span?)
    && (!a.Wait? && !a.Fail? ==> !a.next.node.Error?)
  }

  lemma LineByteShape(k: Core, n: LineNode, b: byte)
    requires k.node == L(n) && LineReads(n)
    ensures WellShaped(k, Some(b), LineByte(k, n, b))
  {
    hide MatcherOf, Machine.Apply, MulAddStatus, MethodCode, IsMethodPrefix, NameRank, ValueRank, BodyRank;
  }

  lemma LineShape(k: Core, n: LineNode, c: Option<byte>)
    requires k.node == L(n)
    ensures WellShaped(k, c, LineStep(k, n, c))
  {
    if c.Some? && LineReads(n) { LineByteShape(k, n, c.value); }
    hide LineByte, UrlRank, NameRank, ValueRank, BodyRank;
  }

  lemma UrlShape(k: Core, n: UrlNode, c: Option<byte>)
    requires k.node == U(n)
    ensures WellShaped(k, c, UrlStep(k, n, c))
  {
  }

  lemma NameShape(strict: bool, k: Core, n: NameNode, c: Option<byte>)
    requires k.node == N(n)
    ensures WellShaped(k, c, NameStep(strict, k, n, c))
  {
  }

  lemma ListShape(k: Core, n: ValueNode, b: byte)
    requires k.node == V(n) && IsListNode(n)
    ensures WellShaped(k, Some(b), ListByte(k, n, b))
  {
  }

  lemma ValueByteShape(strict: bool, k: Core, n: ValueNode, b: byte)
    requires k.node == V(n) && ValueReads(n)
    ensures WellShaped(k, Some(b), ValueByte(strict, k, n, b))
  {
    if IsListNode(n) { ListShape(k, n, b); }
    hide ListByte, MulAdd, LineRank, UrlRank, BodyRank;
  }

  lemma ValueShape(strict: bool, k: Core, n: ValueNode, c: Option<byte>)
    requires k.node == V(n)
    ensures WellShaped(k, c, ValueStep(strict, k, n, c))
  {
    if c.Some? && ValueReads(n) { ValueByteShape(strict, k, n, c.value); }
    hide ValueByte, LineRank, UrlRank, BodyRank;
  }

  lemma BodyByteShape(strict: bool, k: Core, n: BodyNode, b: byte)
    requires k.node == B(n) && BodyReads(n)
    ensures WellShaped(k, Some(b), BodyByte(strict, k, n, b))
  {
  }

  lemma BodyBlindShape(strict: bool, k: Core, n: BodyNode, c: Option<byte>)
    requires k.node == B(n) && !(c.Some? && BodyReads(n))
    ensures WellShaped(k, c, BodyStep(strict, k, n, c))
  {
    hide BodyByte, AfterHeaders, ShouldKeepAlive, UpgradeFlag, UrlRank, ValueRank, NoFlags, Answered, MatcherOf;
  }

  lemma BodyShape(strict: bool, k: Core, n: BodyNode, c: Option<byte>)
    requires k.node == B(n)
    ensures WellShaped(k, c, BodyStep(strict, k, n, c))
  {
    if c.Some? && BodyReads(n) {
      BodyByteShape(strict, k, n, c.value);
      hide BodyByte, WellShaped;
    } else {
      BodyBlindShape(strict, k, n, c);
      hide BodyStep;
    }
  }

  lemma StepShape(strict: bool, k: Core, c: Option<byte>)
    ensures WellShaped(k, c, Step(strict, k, c))
  {
    match k.node
    case L(n) => LineShape(k, n, c);
    case U(n) => UrlShape(k, n, c);
    case N(n) => NameShape(strict, k, n, c);
    case V(n) => ValueShape(strict, k, n, c);
    case B(n) => BodyShape(strict, k, n, c);
    case Error =>
  }

  /** A state either needs the byte under the cursor or does the same thing without looking at it. */
  lemma StepBlind(strict: bool, k: Core, b: byte)
    ensures Step(strict, k, None).Wait? || Step(strict, k, None) == Step(strict, k, Some(b))
  {
  }

  /** `llhttp__internal__run` on a whole input. */
  function Run(env: Env, k: Config, buf: seq<byte>): Config
    decreases |buf|, Rank(k.core.node)
  {
    var a := Step(env.strict, k.core, Head(buf));
    StepShape(env.strict, k.core, Head(buf));
    if k.stop != 0 || a.Wait? then k
    else if a.Fail? then Advance(env, k, a, Head(buf))
    else Run(env, Advance(env, k, a, Head(buf)), if Takes(a) then buf[1..] else buf)
  }

  /**
    Segmentation independence: feeding A and then B is feeding A + B, for every state and every cut.
  */
  lemma {:induction false} RunSplit(env: Env, k: Config, a: seq<byte>, b: seq<byte>)
    ensures Run(env, Run(env, k, a), b) == Run(env, k, a + b)
    decreases |a|, Rank(k.core.node)
  {
    var act := Step(env.strict, k.core, Head(a));
    StepShape(env.strict, k.core, Head(a));
    if a == [] {
      assert a + b == b;
      if k.stop == 0 && !act.Wait? && !act.Fail? {
        if b != [] { StepBlind(env.strict, k.core, b[0]); }
        RunSplit(env, Advance(env, k, act, Head(a)), a, b);
      } else if k.stop == 0 && act.Fail? && b != [] {
        StepBlind(env.strict, k.core, b[0]);
      }
    } else {
      assert (a + b)[0] == a[0] && (a + b)[1..] == a[1..] + b;
      if k.stop == 0 && !act.Wait? && !act.Fail? {
        RunSplit(env, Advance(env, k, act, Head(a)), if Takes(act) then a[1..] else a, b);
      }
    }
  }

  /** A run that does not stop has consumed its whole input. */
  lemma {:induction false} RunConsumes(env: Env, k: Config, buf: seq<byte>)
    requires k.stop == 0 && !k.core.node.Error?
    ensures var r := Run(env, k, buf);
            && k.pos <= r.pos <= k.pos + |buf|
            && (r.stop == 0 ==> r.pos == k.pos + |buf| && !r.core.node.Error?)
    decreases |buf|, Rank(k.core.node)
  {
    var act := Step(env.strict, k.core, Head(buf));
    StepShape(env.strict, k.core, Head(buf));
    if !act.Wait? && !act.Fail? {
      RunConsumes(env, Advance(env, k, act, Head(buf)), if Takes(act) then buf[1..] else buf);
    }
  }

  // ---------------------------------------------------------------- steps that only move the cursor

  function Moved(k: Config, core: Core, data: seq<byte>): Config {
    k.(core := core, pos := k.pos + |data|,
       span := match k.span case Some(o) => Some(o.(data := o.data + data)) case None => None)
  }

  lemma MovedTaken(k: Config, core: Core, b: byte, core': Core, data: seq<byte>)
    ensures Moved(Taken(k.(core := core), b), core', data) == Moved(k, core', [b] + data)
  {
    if k.span.Some? { assert k.span.value.data + [b] + data == k.span.value.data + ([b] + data); }
  }

  lemma MovedNothing(k: Config)
    ensures Moved(k, k.core, []) == k
  {
    if k.span.Some? { assert k.span.value.data + [] == k.span.value.data; }
  }

  /** A stretch of bytes each consumed by a plain transition can be taken at once. */
  lemma {:induction false} RunGlide(env: Env, k: Config, cores: nat -> Core, data: seq<byte>, rest: seq<byte>)
    requires k.stop == 0 && k.core == cores(0)
    requires forall i :: 0 <= i < |data| ==> Step(env.strict, cores(i), Some(data[i])) == Go(cores(i + 1), true)
    ensures Run(env, k, data + rest) == Run(env, Moved(k, cores(|data|), data), rest)
    decreases |data|
  {
    hide Step;
    if data == [] {
      assert data + rest == rest;
      assert Moved(k, cores(0), data) == k by {
        if k.span.Some? { assert k.span.value.data + data == k.span.value.data; }
      }
    } else {
      var b, data', shifted := data[0], data[1..], (i: nat) => cores(i + 1);
      assert (data + rest)[0] == b && (data + rest)[1..] == data' + rest;
      var k' := Taken(k.(core := cores(1)), b);
      RunGlide(env, k', shifted, data', rest);
      assert Moved(k', shifted(|data'|), data') == Moved(k, cores(|data|), data) by {
        if k.span.Some? { assert k.span.value.data + [b] + data' == k.span.value.data + data; }
      }
    }
  }

  /** One transition of the reference run. */
  lemma RunOne(env: Env, k: Config, buf: seq<byte>, a: Act)
    requires k.stop == 0 && a == Step(env.strict, k.core, Head(buf)) && !a.Wait?
    ensures (Takes(a) ==> buf != []) && (a.Fail? ==> a.code != 0)
    ensures Run(env, k, buf) ==
            if a.Fail? then Advance(env, k, a, Head(buf))
            else Run(env, Advance(env, k, a, Head(buf)), if Takes(a) then buf[1..] else buf)
    ensures !a.Fail? && !Takes(a) ==> Rank(a.next.node) < Rank(k.core.node)
    ensures !a.Fail? ==> !a.next.node.Error?
    ensures a.Fail? ==> a.code != HPE_PAUSED && (a.code == HPE_PAUSED_UPGRADE ==> !a.next.node.Error?)
    ensures a.Notify? ==> !a.event.HeadersComplete?
    ensures a.Notify? && a.fault.Some? ==> HPE_CB_MESSAGE_BEGIN <= a.fault.value <= HPE_CB_CHUNK_COMPLETE
  {
    StepShape(env.strict, k.core, Head(buf));
    hide Step;
  }

  predicate Consuming(n: Node) { n == B(ConsumeChunk) || n == B(ConsumeIdentity) }

  /** Body bytes can be consumed in bulk, up to the bytes still owed. */
  lemma ConsumeGlide(env: Env, k: Config, buf: seq<byte>, n: nat)
    requires k.stop == 0 && Consuming(k.core.node) && n <= k.core.length && n <= |buf|
    ensures Run(env, k, buf) == Run(env, Moved(k, k.core.(length := k.core.length - n), buf[..n]), buf[n..])
  {
    var cores := (i: nat) => k.core.(length := if i <= k.core.length then k.core.length - i else 0);
    assert forall i :: 0 <= i < n ==> Step(env.strict, cores(i), Some(buf[..n][i])) == Go(cores(i + 1), true);
    hide Step;
    assert cores(0) == k.core && buf == buf[..n] + buf[n..];
    RunGlide(env, k, cores, buf[..n], buf[n..]);
  }

  lemma RunWaits(env: Env, k: Config, buf: seq<byte>)
    requires k.stop == 0 && !k.core.node.Error? && Step(env.strict, k.core, Head(buf)).Wait?
    ensures buf == [] && Run(env, k, buf) == k
  {
    StepShape(env.strict, k.core, Head(buf));
    hide Step;
  }

  // ---------------------------------------------------------------- failing inside a span

  function Data(span: Option<OpenSpan>): seq<byte> {
    match span case Some(o) => o.data case None => []
  }

  /**
    What the application holds after one call.  The bytes of a span reach it when the span closes or
    the buffer ends; when the parser fails inside a span, the part in the failing buffer is never
    reported.
  */
  function Received(env: Env, k: Config, buf: seq<byte>): Config {
    var r := Run(env, k, buf);
    if r.stop != 0 && r.span.Some? then
      r.(span := Some(r.span.value.(data := if r.trace == k.trace then Data(k.span) else [])))
    else r
  }

  /** Feeding A left bytes of A in an open span, and feeding B fails before that span is closed. */
  predicate FailsInsideCutSpan(env: Env, k: Config, a: seq<byte>, b: seq<byte>) {
    var m, r := Run(env, k, a), Run(env, k, a + b);
    && m.stop == 0 && r.stop != 0 && r.span.Some? && r.trace == m.trace
    && Data(m.span) != if m.trace == k.trace then Data(k.span) else []
  }

  /**
    Where a buffer is cut is visible to the application in exactly one case: a failure inside a span
    that the cut had made it report in part.
  */
  lemma ReceivedSplit(env: Env, k: Config, a: seq<byte>, b: seq<byte>)
    requires k.stop == 0
    ensures Received(env, Received(env, k, a), b) == Received(env, k, a + b) <==> !FailsInsideCutSpan(env, k, a, b)
  {
    RunSplit(env, k, a, b);
    RunExtends(env, k, a);
    RunExtends(env, Run(env, k, a), b);
    hide Step;
  }

  /** So a cut between two spans is never visible, whatever follows it. */
  lemma ReceivedAcrossCut(env: Env, k: Config, a: seq<byte>, b: seq<byte>)
    requires k.stop == 0 && k.span == None && Run(env, k, a).span == None
    ensures Received(env, Received(env, k, a), b) == Received(env, k, a + b)
  {
    ReceivedSplit(env, k, a, b);
    hide Run;
  }

  /** The reference run only ever adds events. */
  lemma {:induction false} RunExtends(env: Env, k: Config, buf: seq<byte>)
    ensures k.trace <= Run(env, k, buf).trace
    decreases |buf|, Rank(k.core.node)
  {
    var a := Step(env.strict, k.core, Head(buf));
    StepShape(env.strict, k.core, Head(buf));
    hide Step;
    if k.stop == 0 && !a.Wait? && !a.Fail? {
      RunExtends(env, Advance(env, k, a, Head(buf)), if Takes(a) then buf[1..] else buf);
    }
  }

  /** The case does arise: a URL cut before its last byte, which is not a URL byte. */
  lemma CutSpanExample(env: Env)
    ensures var k := Config(InitialCore(Request, Lenient(false, false, false)).(node := U(UrlServer)),
                            Some(OpenSpan(Url, [])), [MessageBegin], 12, 0);
            FailsInsideCutSpan(env, k, "a", "<")
  {
    var k := Config(InitialCore(Request, Lenient(false, false, false)).(node := U(UrlServer)),
                    Some(OpenSpan(Url, [])), [MessageBegin], 12, 0);
    var a: seq<byte>, b: seq<byte> := "a", "<";
    RunSplit(env, k, a, b);
    var m := Taken(k, 'a');
    assert Step(env.strict, k.core, Head(a)) == Go(k.core, true);
    assert a[1..] == [] && Run(env, m, []) == m;
    assert Run(env, k, a) == m;
    assert Step(env.strict, m.core, Head(b)) == FailAt(m.core, HPE_INVALID_URL);
  }
}
