/**
  The order of events on every run.  A small automaton over events says which sequences are
  well formed; every run of the parser, over any input and any answers, produces such a sequence.
*/
module Grammar {
  import opened Http
  import opened Machine
  import opened Numbers
  import opened Framing
  import opened Automaton
  import opened Semantics
  import opened Invariants

  /**
    Where in a message a well-formed sequence of events stands.  `trailing` marks the fields after the
    last chunk; Chunk(n) has announced n bytes of data that are still to come.
  */
  datatype Phase =
    | Idle | StartLine | UrlRead | StatusRead
    | Fields(trailing: bool) | NameRead(trailing: bool) | Values(trailing: bool, some: bool)
    | Framed | Chunk(size: nat) | ChunkRead | BetweenChunks | BodyRead

  function Follow(ph: Phase, e: Event): Option<Phase> {
    match e
    case MessageBegin => if ph.Idle? then Some(StartLine) else None
    case Span(Url, _) => if ph.StartLine? then Some(UrlRead) else None
    case UrlComplete => if ph.UrlRead? then Some(Fields(false)) else None
    case Span(Status, _) => if ph.StartLine? then Some(StatusRead) else None
    case StatusComplete => if ph.StartLine? || ph.StatusRead? then Some(Fields(false)) else None
    case Span(HeaderField, _) => if ph.Fields? then Some(NameRead(ph.trailing)) else None
    case HeaderFieldComplete => if ph.NameRead? then Some(Values(ph.trailing, false)) else None
    case Span(HeaderValue, _) => if ph.Values? then Some(Values(ph.trailing, true)) else None
    case HeaderValueComplete => if ph.Values? && ph.some then Some(Fields(ph.trailing)) else None
    case HeadersComplete => if ph == Fields(false) then Some(Framed) else None
    case ChunkHeader(n) =>
      if ph.Framed? || ph.BetweenChunks? then Some(if n == 0 then Fields(true) else Chunk(n)) else None
    case Span(Body, data) =>
      if ph.Framed? then Some(BodyRead)
      else if ph.Chunk? && |data| == ph.size then Some(ChunkRead)
      else None
    case ChunkComplete =>
      if ph.ChunkRead? then Some(BetweenChunks) else if ph == Fields(true) then Some(BodyRead) else None
    case MessageComplete => if ph.Framed? || ph.BodyRead? then Some(Idle) else None
  }

  /** The phase after a sequence of events, None if the sequence is ill formed. */
  function Scan(trace: seq<Event>): Option<Phase> {
    if trace == [] then Some(Idle) else
    var before := Scan(trace[..|trace| - 1]);
    if before.None? then None else Follow(before.value, trace[|trace| - 1])
  }

  lemma ScanAppend(trace: seq<Event>, e: Event)
    ensures Scan(trace + [e]) == if Scan(trace).None? then None else Follow(Scan(trace).value, e)
  {
    assert (trace + [e])[..|trace|] == trace;
  }

  // ---------------------------------------------------------------- the phase of every state

  /** The registers and the phase agree; `covered` is the length of the open span. */
  predicate Fits(k: Core, ph: Phase, covered: nat) {
    match k.node
    case L(n) => FitsLine(k, n, ph)
    case U(n) =>
      && k.flags == NoFlags && k.line.finish.Unsafe?
      && (if SpanAt(k.node).Some? || n.SpanStartUrl? || n.SpanStartUrlConnect? then ph.StartLine? else ph.UrlRead?)
    case N(n) =>
      && k.line.finish.Unsafe?
      && ph == if n.OnFieldComplete? then NameRead(k.flags.trailing) else Fields(k.flags.trailing)
    case V(n) =>
      && k.line.finish.Unsafe? && ph.Values? && ph.trailing == k.flags.trailing
      && (n.ValueAlmostDone? || n.ValueLws? || n.OnValueComplete? ==> ph.some)
    case B(n) => FitsBody(k, n, ph, covered)
    case Error => true
  }

  predicate FitsLine(k: Core, n: LineNode, ph: Phase) {
    && k.flags == NoFlags
    && (if n.Start? then k.line.finish.Safe? else k.line.finish.Unsafe?)
    && (if n.Start? || n.OnMessageBegin? then ph.Idle?
        else if n.ReqHttpStart? || n.ReqHttpStart1? || n.ReqHttpStart2? || n.ReqHttpStart3? || n.LoadMethodHttp?
             || n.LoadMethodIce? || n.LoadMethodRtsp? || n.ReqMajor? || n.ReqDot? || n.ReqMinor? || n.ReqHttpComplete?
             || n.ReqHttpComplete1? || n.PriUpgrade? || n.PriDone? then ph == Fields(false)
        else if n.ResLineAlmostDone? || n.OnStatusComplete? then ph.StartLine? || ph.StatusRead?
        else ph.StartLine?)
  }

  predicate FitsBody(k: Core, n: BodyNode, ph: Phase, covered: nat) {
    && k.line.finish == (if n.SpanStartEof? || n.Eof? then SafeWithCb else if n.Closed? then Safe else Unsafe)
    && (match n
        case HeadersAlmostDone => ph == Fields(k.flags.trailing)
        case TestFlags => ph == Fields(k.flags.trailing)
        case OnLastChunkComplete => ph == Fields(true)
        case OnHeadersComplete => ph == Fields(false) && !k.flags.trailing
        case IsEqualContentLength =>
          !k.flags.trailing && ph == if k.length == 0 then Fields(true) else Chunk(k.length)
        case SpanStartChunk => !k.flags.trailing && ph == Chunk(k.length)
        case ConsumeChunk => !k.flags.trailing && ph == Chunk(k.length + covered)
        case ChunkDataAlmostDone => !k.flags.trailing && ph.ChunkRead?
        case ChunkDataAlmostDoneSkip => !k.flags.trailing && ph.ChunkRead?
        case OnChunkComplete => !k.flags.trailing && ph.ChunkRead?
        case OnMessageComplete2 => ph.BodyRead?
        case IsEqualUpgrade => ph.Idle?
        case PauseUpgrade => ph.Idle?
        case AfterMessageComplete => ph.Idle?
        case Closed => ph.Idle?
        case AfterHeadersComplete => !k.flags.trailing && ph.Framed?
        case OnMessageComplete => ph.Framed?
        case OnMessageComplete1 => ph.Framed?
        case SpanStartIdentity => ph.Framed?
        case ConsumeIdentity => ph.Framed?
        case SpanStartEof => ph.Framed?
        case Eof => ph.Framed?
        case _ => !k.flags.trailing && (ph.Framed? || ph.BetweenChunks?))
  }

  /** The phase and the covered length after a transition. */
  predicate FitsAfter(k: Core, a: Act, ph: Phase, covered: nat, data: seq<byte>) {
    match a
    case Wait => true
    case Go(next, take) => Fits(next, ph, if take && SpanAt(k.node).Some? then covered + 1 else covered)
    case Open(_, next) => Fits(next, ph, 0)
    case Close(next, _) =>
      SpanAt(k.node).Some? && |data| == covered ==>
        var after := Follow(ph, Span(SpanAt(k.node).value, data)); after.Some? && Fits(next, after.value, 0)
    case Notify(event, next, _) => var after := Follow(ph, event); after.Some? && Fits(next, after.value, 0)
    case AskHeaders(next) =>
      var after := Follow(ph, HeadersComplete);
      after.Some? && forall answer :: Fits(Answered(next, answer), after.value, 0)
    case Fail(_, next) => Fits(next, ph, covered)
  }

  lemma StatusFits(k: Core, b: byte, ph: Phase, covered: nat, data: seq<byte>)
    requires k.node == L(ResStatus) && Fits(k, ph, covered)
    ensures FitsAfter(k, LineByte(k, ResStatus, b), ph, covered, data)
  {
    hide MatcherOf;
  }

  /** The states of a status line. */
  predicate InStatusLine(n: LineNode) {
    || n.StartRes? || n.ResMajor? || n.ResDot? || n.ResMinor? || n.ResHttpEnd? || n.ResStatusCode?
    || n.ResStatusCodeOtherwise? || n.ResStatusStart? || n.SpanStartStatus? || n.ResLineAlmostDone?
  }

  /** The states of a status line up to its status code. */
  predicate InVersion(n: LineNode) { n.StartRes? || n.ResMajor? || n.ResDot? || n.ResMinor? || n.ResHttpEnd? }

  lemma VersionFits(k: Core, n: LineNode, b: byte, ph: Phase, covered: nat, data: seq<byte>)
    requires k.node == L(n) && Fits(k, ph, covered) && InVersion(n)
    ensures FitsAfter(k, LineByte(k, n, b), ph, covered, data)
  {
    hide FitsBody, MatcherOf, Machine.Apply, MulAddStatus, NoFlags, Follow, IsDigit, DigitVal, MethodByte;
  }

  lemma AfterVersionFits(k: Core, n: LineNode, b: byte, ph: Phase, covered: nat, data: seq<byte>)
    requires k.node == L(n) && Fits(k, ph, covered) && InStatusLine(n) && !InVersion(n)
    ensures FitsAfter(k, LineByte(k, n, b), ph, covered, data)
  {
    hide FitsBody, MatcherOf, Machine.Apply, MulAddStatus, NoFlags, Follow, IsDigit, DigitVal, MethodByte;
  }

  lemma StatusLineFits(k: Core, n: LineNode, b: byte, ph: Phase, covered: nat, data: seq<byte>)
    requires k.node == L(n) && Fits(k, ph, covered) && InStatusLine(n)
    ensures FitsAfter(k, LineByte(k, n, b), ph, covered, data)
  {
    hide LineByte, FitsAfter, Fits;
    if InVersion(n) { VersionFits(k, n, b, ph, covered, data); } else { AfterVersionFits(k, n, b, ph, covered, data); }
  }

  lemma RequestLineFits(k: Core, n: LineNode, b: byte, ph: Phase, covered: nat, data: seq<byte>)
    requires k.node == L(n) && Fits(k, ph, covered) && LineReads(n) && !InStatusLine(n) && !n.ResStatus?
    ensures FitsAfter(k, LineByte(k, n, b), ph, covered, data)
  {
    hide FitsBody, MatcherOf, Machine.Apply, MethodCode, IsMethodPrefix, Follow, IsDigit, DigitVal;
  }

  lemma LineByteFits(k: Core, n: LineNode, b: byte, ph: Phase, covered: nat, data: seq<byte>)
    requires k.node == L(n) && Fits(k, ph, covered) && LineReads(n)
    ensures FitsAfter(k, LineByte(k, n, b), ph, covered, data)
  {
    if n.ResStatus? {
      StatusFits(k, b, ph, covered, data);
    } else if InStatusLine(n) {
      StatusLineFits(k, n, b, ph, covered, data);
    } else {
      RequestLineFits(k, n, b, ph, covered, data);
    }
    hide LineByte, FitsAfter, Fits;
  }

  lemma LineFits(k: Core, n: LineNode, c: Option<byte>, ph: Phase, covered: nat, data: seq<byte>)
    requires k.node == L(n) && Fits(k, ph, covered)
    ensures FitsAfter(k, LineStep(k, n, c), ph, covered, data)
  {
    hide FitsBody, LineByte;
    if c.Some? && LineReads(n) { LineByteFits(k, n, c.value, ph, covered, data); }
  }

  lemma UrlFits(k: Core, n: UrlNode, c: Option<byte>, ph: Phase, covered: nat, data: seq<byte>)
    requires k.node == U(n) && Fits(k, ph, covered)
    ensures FitsAfter(k, UrlStep(k, n, c), ph, covered, data)
  {
    hide FitsBody, MatcherOf, Machine.Apply;
  }

  lemma NameFits(strict: bool, k: Core, n: NameNode, c: Option<byte>, ph: Phase, covered: nat, data: seq<byte>)
    requires k.node == N(n) && Fits(k, ph, covered)
    ensures FitsAfter(k, NameStep(strict, k, n, c), ph, covered, data)
  {
    hide FitsLine, MatcherOf, Machine.Apply, IsFieldByte;
  }

  lemma ListFits(strict: bool, k: Core, n: ValueNode, b: byte, ph: Phase, covered: nat, data: seq<byte>)
    requires k.node == V(n) && Fits(k, ph, covered) && IsListNode(n)
    ensures FitsAfter(k, ListByte(k, n, b), ph, covered, data)
  {
    SettleKeeps(k);
    hide Settle, Lower, NoFlags, FitsLine, FitsBody, MatcherOf, Machine.Apply, IsValueByte;
  }

  /** The value states before the value itself. */
  predicate IsLeading(n: ValueNode) {
    n.DiscardWs? || n.DiscardWsAlmostDone? || n.DiscardLws? || n.SpanStartEmptyValue? || n.SpanStartValue?
  }

  lemma LeadingFits(strict: bool, k: Core, n: ValueNode, b: byte, ph: Phase, covered: nat, data: seq<byte>)
    requires k.node == V(n) && Fits(k, ph, covered) && IsLeading(n)
    ensures FitsAfter(k, ValueByte(strict, k, n, b), ph, covered, data)
  {
    hide FitsLine, FitsBody, MatcherOf, ListByte;
  }

  lemma ValueEndFits(strict: bool, k: Core, b: byte, ph: Phase, covered: nat, data: seq<byte>)
    requires k.node == V(ValueLws) && Fits(k, ph, covered)
    ensures FitsAfter(k, ValueByte(strict, k, ValueLws, b), ph, covered, data)
  {
    SettleKeeps(k);
    hide Follow, FitsLine, FitsBody, ListByte, NoFlags, Settle;
  }

  lemma ValueCloseFits(strict: bool, k: Core, n: ValueNode, b: byte, ph: Phase, covered: nat, data: seq<byte>)
    requires k.node == V(n) && Fits(k, ph, covered) && (n.ValueOtherwise? || n.ValueLenient? || n.LengthWs?)
    ensures FitsAfter(k, ValueByte(strict, k, n, b), ph, covered, data)
  {
    hide FitsLine, FitsBody, MatcherOf, NoFlags, ListByte;
  }

  lemma ValueByteFits(strict: bool, k: Core, n: ValueNode, b: byte, ph: Phase, covered: nat, data: seq<byte>)
    requires k.node == V(n) && Fits(k, ph, covered) && ValueReads(n) && !IsLeading(n)
    ensures FitsAfter(k, ValueByte(strict, k, n, b), ph, covered, data)
  {
    if n.ValueLws? { ValueEndFits(strict, k, b, ph, covered, data); }
    if n.ValueOtherwise? || n.ValueLenient? || n.LengthWs? { ValueCloseFits(strict, k, n, b, ph, covered, data); }
    if IsListNode(n) { ListFits(strict, k, n, b, ph, covered, data); }
    hide Settle, Follow, IsDigit, DigitVal, NoFlags, FitsLine, FitsBody, MatcherOf, MulAdd, IsValueByte, ListByte;
  }

  lemma ValueFits(strict: bool, k: Core, n: ValueNode, c: Option<byte>, ph: Phase, covered: nat, data: seq<byte>)
    requires k.node == V(n) && Fits(k, ph, covered)
    ensures FitsAfter(k, ValueStep(strict, k, n, c), ph, covered, data)
  {
    hide Fits, FitsAfter, ValueByte, ValueStep;
    if c.Some? && ValueReads(n) {
      ReadsIsByte(strict, k, n, c);
      if IsLeading(n) {
        LeadingFits(strict, k, n, c.value, ph, covered, data);
      } else {
        ValueByteFits(strict, k, n, c.value, ph, covered, data);
      }
    } else {
      ValueBlindFits(strict, k, n, c, ph, covered, data);
    }
  }

  lemma ReadsIsByte(strict: bool, k: Core, n: ValueNode, c: Option<byte>)
    requires c.Some? && ValueReads(n)
    ensures ValueStep(strict, k, n, c) == ValueByte(strict, k, n, c.value)
  {
    hide ValueByte, ValueAutomaton;
  }

  lemma ValueBlindFits(strict: bool, k: Core, n: ValueNode, c: Option<byte>, ph: Phase, covered: nat, data: seq<byte>)
    requires k.node == V(n) && Fits(k, ph, covered) && !(c.Some? && ValueReads(n))
    ensures FitsAfter(k, ValueStep(strict, k, n, c), ph, covered, data)
  {
    hide FitsLine, FitsBody, MatcherOf, ValueByte, ValueAutomaton, NoFlags;
    if n.LoadHeaderState? { AutomatonFits(k, ph, covered, data); }
  }

  lemma AutomatonFits(k: Core, ph: Phase, covered: nat, data: seq<byte>)
    requires k.node == V(LoadHeaderState) && Fits(k, ph, covered)
    ensures FitsAfter(k, ValueAutomaton(k), ph, covered, data)
  {
    hide FitsLine, FitsBody, MatcherOf, NoFlags, Follow;
    match k.hs {
      case TransferEncoding =>
      case _ =>
    }
  }

  lemma BodyByteFits(strict: bool, k: Core, n: BodyNode, b: byte, ph: Phase, covered: nat, data: seq<byte>)
    requires k.node == B(n) && Fits(k, ph, covered) && BodyReads(n)
    ensures FitsAfter(k, BodyByte(strict, k, n, b), ph, covered, data)
  {
    hide MatcherOf, Machine.Apply, MulAdd, IsHex, HexVal;
  }

  /** The states from the last callback of a message to its end. */
  predicate IsEnding(n: BodyNode) {
    || n.OnLastChunkComplete? || n.OnMessageComplete? || n.OnMessageComplete1? || n.OnMessageComplete2?
    || n.IsEqualUpgrade? || n.PauseUpgrade? || n.AfterMessageComplete?
  }

  lemma EndingFits(strict: bool, k: Core, n: BodyNode, c: Option<byte>, ph: Phase, covered: nat, data: seq<byte>)
    requires k.node == B(n) && Fits(k, ph, covered) && IsEnding(n)
    ensures FitsAfter(k, BodyStep(strict, k, n, c), ph, covered, data)
  {
    hide AfterHeaders, NeedsEof, ShouldKeepAlive, UpgradeFlag, MatcherOf, BodyByte;
  }

  /** The states that end the header section and choose the framing. */
  predicate EndsHeaders(n: BodyNode) {
    n.HeadersAlmostDone? || n.TestFlags? || n.OnHeadersComplete? || n.AfterHeadersComplete?
  }

  lemma HeadersEndFits(strict: bool, k: Core, n: BodyNode, c: Option<byte>, ph: Phase, covered: nat, data: seq<byte>)
    requires k.node == B(n) && Fits(k, ph, covered) && EndsHeaders(n) && (c.Some? ==> !BodyReads(n))
    ensures FitsAfter(k, BodyStep(strict, k, n, c), ph, covered, data)
  {
    if n.AfterHeadersComplete? {
      FramingFits(strict, k, c, ph, covered, data);
    } else {
      HeadersLastFits(strict, k, n, c, ph, covered, data);
    }
    hide BodyStep, FitsAfter, Fits;
  }

  lemma FramingFits(strict: bool, k: Core, c: Option<byte>, ph: Phase, covered: nat, data: seq<byte>)
    requires k.node == B(AfterHeadersComplete) && Fits(k, ph, covered)
    ensures FitsAfter(k, BodyStep(strict, k, AfterHeadersComplete, c), ph, covered, data)
  {
    hide FitsLine, AfterHeaders, NeedsEof, ShouldKeepAlive, UpgradeFlag, MatcherOf, Consume, BodyByte;
  }

  lemma HeadersLastFits(strict: bool, k: Core, n: BodyNode, c: Option<byte>, ph: Phase, covered: nat, data: seq<byte>)
    requires k.node == B(n) && Fits(k, ph, covered) && EndsHeaders(n) && !n.AfterHeadersComplete?
    requires c.Some? ==> !BodyReads(n)
    ensures FitsAfter(k, BodyStep(strict, k, n, c), ph, covered, data)
  {
    hide FitsLine, AfterHeaders, NeedsEof, ShouldKeepAlive, UpgradeFlag, MatcherOf, Consume, BodyByte;
  }

  lemma MiddleFits(strict: bool, k: Core, n: BodyNode, c: Option<byte>, ph: Phase, covered: nat, data: seq<byte>)
    requires k.node == B(n) && Fits(k, ph, covered) && !IsEnding(n) && !EndsHeaders(n) && (c.Some? ==> !BodyReads(n))
    ensures FitsAfter(k, BodyStep(strict, k, n, c), ph, covered, data)
  {
    hide FitsLine, AfterHeaders, ShouldKeepAlive, UpgradeFlag, MatcherOf, BodyByte;
  }

  lemma BodyFits(strict: bool, k: Core, n: BodyNode, c: Option<byte>, ph: Phase, covered: nat, data: seq<byte>)
    requires k.node == B(n) && Fits(k, ph, covered)
    ensures FitsAfter(k, BodyStep(strict, k, n, c), ph, covered, data)
  {
    if IsEnding(n) {
      EndingFits(strict, k, n, c, ph, covered, data);
    } else if c.Some? && BodyReads(n) {
      BodyByteFits(strict, k, n, c.value, ph, covered, data);
      hide BodyByte, FitsAfter;
    } else if EndsHeaders(n) {
      HeadersEndFits(strict, k, n, c, ph, covered, data);
    } else {
      MiddleFits(strict, k, n, c, ph, covered, data);
    }
  }

  lemma StepFits(strict: bool, k: Core, c: Option<byte>, ph: Phase, covered: nat, data: seq<byte>)
    requires Fits(k, ph, covered)
    ensures FitsAfter(k, Step(strict, k, c), ph, covered, data)
  {
    match k.node
    case L(n) => LineFits(k, n, c, ph, covered, data);
    case U(n) => UrlFits(k, n, c, ph, covered, data);
    case N(n) => NameFits(strict, k, n, c, ph, covered, data);
    case V(n) => ValueFits(strict, k, n, c, ph, covered, data);
    case B(n) => BodyFits(strict, k, n, c, ph, covered, data);
    case Error =>
  }

  // ---------------------------------------------------------------- whole runs

  /** A configuration whose events are well formed and in step with its state. */
  predicate Grammatical(strict: bool, k: Config) {
    && Sound(strict, k)
    && (k.stop == 0 ==> !k.core.node.Error?)
    && Scan(k.trace).Some?
    && Fits(k.core, Scan(k.trace).value, |Data(k.span)|)
  }

  /** One transition keeps the events well formed. */
  lemma AdvanceGrammar(env: Env, k: Config, c: Option<byte>)
    requires Grammatical(env.strict, k) && k.stop == 0 && !Step(env.strict, k.core, c).Wait?
    ensures var a := Step(env.strict, k.core, c);
            (Takes(a) ==> c.Some?) && Grammatical(env.strict, Advance(env, k, a, c))
  {
    hide Step, Rank, Coherent, Fits, Scan, Follow, SpanAt, Grammatical, FitsAfter, Keeps, WellShaped;
    var a := Step(env.strict, k.core, c);
    StepShape(env.strict, k.core, c);
    GrammaticalParts(env.strict, k);
    StepKeeps(env.strict, k.core, c);
    StepFits(env.strict, k.core, c, Scan(k.trace).value, |Data(k.span)|, Data(k.span));
    ActGrammar(env, k, a, c);
  }

  lemma GrammaticalParts(strict: bool, k: Config)
    requires Grammatical(strict, k)
    ensures Coherent(strict, k.core) && Scan(k.trace).Some? && Fits(k.core, Scan(k.trace).value, |Data(k.span)|)
  {
    hide Coherent, Scan, Fits;
  }

  lemma ActGrammar(env: Env, k: Config, a: Act, c: Option<byte>)
    requires Grammatical(env.strict, k) && k.stop == 0 && !a.Wait? && WellShaped(k.core, c, a)
    requires Keeps(env.strict, k.core, a) && FitsAfter(k.core, a, Scan(k.trace).value, |Data(k.span)|, Data(k.span))
    ensures (Takes(a) ==> c.Some?) && Grammatical(env.strict, Advance(env, k, a, c))
  {
    hide Rank, Coherent, Fits, Scan, Follow, SpanAt;
    match a {
      case Close(_, _) => ScanAppend(k.trace, Span(k.span.value.kind, Data(k.span)));
      case Notify(event, _, _) => ScanAppend(k.trace, event);
      case AskHeaders(next) =>
        ScanAppend(k.trace, HeadersComplete);
        AnsweredKeeps(env.strict, next, env.answer(k.trace));
      case _ =>
    }
  }

  lemma AnsweredKeeps(strict: bool, k: Core, answer: HeadersAnswer)
    requires Coherent(strict, k)
    ensures Coherent(strict, Answered(k, answer)) && Answered(k, answer).node == k.node
  {
  }

  /** Every run, from any well-formed configuration, keeps its events well formed. */
  lemma {:induction false} RunGrammar(env: Env, k: Config, buf: seq<byte>)
    requires Grammatical(env.strict, k)
    ensures Grammatical(env.strict, Run(env, k, buf))
    decreases |buf|, Rank(k.core.node)
  {
    var a := Step(env.strict, k.core, Head(buf));
    StepShape(env.strict, k.core, Head(buf));
    hide Step, Rank, Grammatical;
    if k.stop == 0 && !a.Wait? {
      AdvanceGrammar(env, k, Head(buf));
      if !a.Fail? { RunGrammar(env, Advance(env, k, a, Head(buf)), if Takes(a) then buf[1..] else buf); }
    }
  }

  lemma InitialGrammatical(strict: bool, ty: MsgType, lenient: Lenient)
    ensures Grammatical(strict, Initial(ty, lenient))
  {
  }

  // ---------------------------------------------------------------- llhttp_finish

  /** A message has begun and has not been reported complete. */
  predicate Unfinished(trace: seq<Event>) {
    Scan(trace) != Some(Idle)
  }

  predicate ReadsUntilEof(n: Node) { n == B(SpanStartEof) || n == B(Eof) }

  /**
    The states between reporting a message complete and resetting the message, and the one before
    reporting a message begun; a parser rests there only after a callback paused it.
  */
  predicate BetweenMessages(n: Node) {
    n == L(OnMessageBegin) || n == B(IsEqualUpgrade) || n == B(PauseUpgrade) || n == B(AfterMessageComplete)
  }

  /** When `finish` is UNSAFE, which is when llhttp_finish reports an invalid end of input. */
  lemma UnsafeExactly(strict: bool, k: Config)
    requires Grammatical(strict, k) && !k.core.node.Error?
    ensures k.core.line.finish.Unsafe? <==>
            (Unfinished(k.trace) && !ReadsUntilEof(k.core.node)) || BetweenMessages(k.core.node)
  {
  }

  /** When the end of input completes a message. */
  lemma CompletedByEof(strict: bool, k: Config)
    requires Grammatical(strict, k) && !k.core.node.Error?
    ensures k.core.line.finish.SafeWithCb? <==> ReadsUntilEof(k.core.node)
    ensures ReadsUntilEof(k.core.node) ==> Unfinished(k.trace)
  {
  }

  /** A call that ends without an error rests in a state that waits for a byte. */
  lemma {:induction false} RunRests(env: Env, k: Config, buf: seq<byte>)
    requires k.stop == 0 && !k.core.node.Error?
    ensures var r := Run(env, k, buf); r.stop == 0 ==> Step(env.strict, r.core, None).Wait? && !r.core.node.Error?
    decreases |buf|, Rank(k.core.node)
  {
    var a := Step(env.strict, k.core, Head(buf));
    StepShape(env.strict, k.core, Head(buf));
    hide Step, Rank;
    if !a.Wait? && !a.Fail? {
      RunRests(env, Advance(env, k, a, Head(buf)), if Takes(a) then buf[1..] else buf);
    }
  }

  lemma RestsNotBetween(strict: bool, k: Core)
    requires Step(strict, k, None).Wait?
    ensures !BetweenMessages(k.node)
  {
  }

  /**
    After any input that raised no error, llhttp_finish reports an invalid end of input exactly when
    the events show an unfinished message whose body is not delimited by the end of the connection.
  */
  lemma FinishExactly(env: Env, k: Config, buf: seq<byte>)
    requires Grammatical(env.strict, k) && k.stop == 0
    ensures var r := Run(env, k, buf);
            r.stop == 0 ==>
              (r.core.line.finish.Unsafe? <==> Unfinished(r.trace) && !ReadsUntilEof(r.core.node))
  {
    var r := Run(env, k, buf);
    RunGrammar(env, k, buf);
    RunRests(env, k, buf);
    if r.stop == 0 {
      RestsNotBetween(env.strict, r.core);
      UnsafeExactly(env.strict, r);
    }
  }
}
