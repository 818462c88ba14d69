/**
  Several messages on one connection: what a message leaves behind in the registers, and why a pipeline
  of messages is read as the messages one by one.
*/
module Pipeline {
  import opened Http
  import opened Machine
  import opened Framing
  import opened Numbers
  import opened Automaton
  import opened Semantics
  import opened Invariants
  import opened Grammar

  // ---------------------------------------------------------------- registers nobody reads again

  predicate VerbDead(k: Core) {
    k.line.ty.Request? && k.node.L? && (k.node.line.Start? || k.node.line.OnMessageBegin? || k.node.line.LoadType?
        || k.node.line.Method?)
  }

  predicate MajorDead(n: Node) {
    match n
    case L(l) =>
      || l.Start? || l.OnMessageBegin? || l.LoadType? || l.Method? || l.ReqFirstSpace? || l.ReqSpaces?
      || l.ReqHttpStart?
      || l.ReqHttpStart1? || l.ReqHttpStart2? || l.ReqHttpStart3? || l.LoadMethodHttp? || l.LoadMethodIce?
      || l.LoadMethodRtsp? || l.ReqMajor? || l.StartRes? || l.ResMajor?
    case U(u) => !u.OnUrlComplete09?
    case _ => false
  }

  predicate MinorDead(n: Node) {
    MajorDead(n) || n == L(ReqDot) || n == L(ReqMinor) || n == L(ResDot) || n == L(ResMinor)
  }

  predicate StatusDead(k: Core) {
    k.line.ty.Request? ||
    (k.node.L? && (k.node.line.Start? || k.node.line.OnMessageBegin? || k.node.line.LoadType? || k.node.line.StartRes?
                   || k.node.line.ResMajor? || k.node.line.ResDot? || k.node.line.ResMinor? || k.node.line.ResHttpEnd?))
  }

  predicate UpgradeDead(k: Core) {
    !k.flags.trailing && (k.node.L? || k.node.U? || k.node.N? || k.node.V? || k.node == B(HeadersAlmostDone)
        || k.node == B(TestFlags))
  }

  predicate HeaderStateDead(n: Node) {
    n.L? || n.U? || n.B? || (n.N? && !n.name.FieldColon? && !n.name.FieldGeneral? && !n.name.FieldGeneralOtherwise?
        && !n.name.OnFieldComplete?)
  }

  /** The same state, up to registers that will be written before they are read. */
  predicate Alike(k: Core, m: Core) {
    && k.node == m.node && k.index == m.index && k.length == m.length && k.flags == m.flags
    && k.line.ty == m.line.ty && k.line.finish == m.line.finish && k.line.lenient == m.line.lenient
    && (HeaderStateDead(k.node) || k.hs == m.hs)
    && (VerbDead(k) || k.line.verb == m.line.verb)
    && (MajorDead(k.node) || k.line.major == m.line.major)
    && (MinorDead(k.node) || k.line.minor == m.line.minor)
    && (StatusDead(k) || k.line.status == m.line.status)
    && (UpgradeDead(k) || k.line.upgrade == m.line.upgrade)
  }

  /** Two transitions that look the same from outside and lead to the same state. */
  predicate SameAct(a: Act, b: Act) {
    if a.Wait? || b.Wait? then a == b
    else
      && b == a.(next := b.next)
      && (if a.Fail? then a.next.node == b.next.node else Alike(a.next, b.next))
      && (a.AskHeaders? ==> a.next.node == B(AfterHeadersComplete))
  }

  /** The start-line states in use once the message type is fixed. */
  predicate Typed(k: Core) {
    && !k.line.ty.Both?
    && (k.node.L? ==>
          var n := k.node.line;
          && !n.StartReqOrRes? && !n.ReqOrResMethod? && !n.ReqOrResMethod1? && !n.ReqOrResMethod2?
          && !n.ReqOrResMethod3?
          && ((n.StartRes? || n.ResMajor? || n.ResDot? || n.ResMinor? || n.ResHttpEnd? || n.ResStatusCode?
              || n.ResStatusCodeOtherwise? || n.ResStatusStart? || n.SpanStartStatus? || n.ResStatus?
              || n.ResLineAlmostDone? || n.OnStatusComplete? || n.ResStatusOverflow?) ==> k.line.ty.Response?))
  }

  lemma LiveStatusLine(k: Core, m: Core, n: LineNode, b: byte)
    requires k.node == L(n) && Typed(k) && Alike(k, m) && (InStatusLine(n) || n.ResStatus?)
    ensures SameAct(LineByte(k, n, b), LineByte(m, n, b))
  {
    hide MatcherOf, Machine.Apply, MulAddStatus, IsDigit, DigitVal;
  }

  lemma LiveRequestLine(k: Core, m: Core, n: LineNode, b: byte)
    requires k.node == L(n) && Typed(k) && Alike(k, m) && LineReads(n) && !InStatusLine(n) && !n.ResStatus?
    ensures SameAct(LineByte(k, n, b), LineByte(m, n, b))
  {
    hide MatcherOf, Machine.Apply, MethodCode, IsMethodPrefix, IsDigit, DigitVal;
  }

  lemma LiveLine(k: Core, m: Core, n: LineNode, c: Option<byte>)
    requires k.node == L(n) && Typed(k) && Alike(k, m)
    ensures SameAct(LineStep(k, n, c), LineStep(m, n, c))
  {
    hide LineByte;
    if c.Some? && LineReads(n) {
      if InStatusLine(n) || n.ResStatus? {
        LiveStatusLine(k, m, n, c.value);
      } else {
        LiveRequestLine(k, m, n, c.value);
      }
    }
  }

  /** The states after the last byte of the URL. */
  predicate AfterUrl(n: UrlNode) {
    n.UrlSkipToHttp09? || n.UrlSkipLfToHttp09? || n.OnUrlComplete09? || n.UrlSkipToHttp? || n.OnUrlComplete?
        || n.UrlBad?
  }

  lemma LiveUrlEnd(k: Core, m: Core, n: UrlNode, c: Option<byte>)
    requires k.node == U(n) && Alike(k, m) && AfterUrl(n)
    ensures SameAct(UrlStep(k, n, c), UrlStep(m, n, c))
  {
    hide MatcherOf, Machine.Apply;
  }

  lemma LiveUrlByte(k: Core, m: Core, n: UrlNode, b: byte)
    requires k.node == U(n) && Alike(k, m) && !AfterUrl(n)
    ensures SameAct(UrlByte(k, n, b), UrlByte(m, n, b))
  {
    hide MatcherOf, Machine.Apply, IsAlpha, IsUrlPathByte, IsUrlQueryByte, IsUrlFragmentByte, IsUrlServerByte;
  }

  lemma LiveUrl(k: Core, m: Core, n: UrlNode, c: Option<byte>)
    requires k.node == U(n) && Alike(k, m)
    ensures SameAct(UrlStep(k, n, c), UrlStep(m, n, c))
  {
    if AfterUrl(n) { LiveUrlEnd(k, m, n, c); } else if c.Some? { LiveUrlByte(k, m, n, c.value); }
    hide UrlByte, Alike;
  }

  lemma LiveSequence(strict: bool, k: Core, m: Core, n: NameNode, b: byte)
    requires k.node == N(n) && Alike(k, m) && (n.Field1? || n.Field3? || n.Field4?)
    ensures SameAct(NameByte(strict, k, n, b), NameByte(strict, m, n, b))
  {
    hide MatcherOf, Machine.Apply, Lower;
  }

  lemma LiveOtherSequence(strict: bool, k: Core, m: Core, n: NameNode, b: byte)
    requires k.node == N(n) && Alike(k, m) && (n.Field5? || n.Field6? || n.Field7?)
    ensures SameAct(NameByte(strict, k, n, b), NameByte(strict, m, n, b))
  {
    hide MatcherOf, Machine.Apply, Lower;
  }

  lemma LiveNameByte(strict: bool, k: Core, m: Core, n: NameNode, b: byte)
    requires k.node == N(n) && Alike(k, m)
    requires !(n.Field1? || n.Field3? || n.Field4? || n.Field5? || n.Field6? || n.Field7?)
    ensures SameAct(NameByte(strict, k, n, b), NameByte(strict, m, n, b))
  {
    hide Machine.Apply, IsFieldByte, Lower;
  }

  lemma LiveName(strict: bool, k: Core, m: Core, n: NameNode, c: Option<byte>)
    requires k.node == N(n) && Alike(k, m)
    ensures SameAct(NameStep(strict, k, n, c), NameStep(strict, m, n, c))
  {
    if c.Some? {
      if n.Field1? || n.Field3? || n.Field4? {
        LiveSequence(strict, k, m, n, c.value);
      } else if n.Field5? || n.Field6? || n.Field7? {
        LiveOtherSequence(strict, k, m, n, c.value);
      } else {
        LiveNameByte(strict, k, m, n, c.value);
      }
    }
    hide NameByte, MatcherOf;
  }

  /** Nothing in a value looks at the message registers, save for the lenient flag, or changes them. */
  predicate IgnoresLine(k: Core, line: Line, a: Act, b: Act) {
    if a.Wait? then b.Wait?
    else
      && b == a.(next := a.next.(line := line))
      && a.next.line == k.line && a.next.flags.trailing == k.flags.trailing
      && (a.next.node.V? || a.next.node == N(FieldStart) || a.next.node.Error?)
      && (a.Fail? <==> a.next.node.Error?) && !a.AskHeaders?
  }

  lemma SettleIgnoresLine(k: Core, line: Line)
    ensures Settle(k.(line := line)) == Settle(k).(line := line)
    ensures Settle(k).line == k.line && Settle(k).flags.trailing == k.flags.trailing
  {
    SettleKeeps(k);
    match k.hs {
      case ConnKeepAlive =>
      case ConnClose =>
      case ConnUpgrade =>
      case TeChunked =>
      case _ =>
    }
  }

  lemma ListIgnoresLine(k: Core, line: Line, n: ValueNode, b: byte)
    requires k.node == V(n) && IsListNode(n)
    ensures IgnoresLine(k, line, ListByte(k, n, b), ListByte(k.(line := line), n, b))
  {
    SettleIgnoresLine(k, line);
    hide MatcherOf, Machine.Apply, MulAdd, IsValueByte, IsDigit, DigitVal, Lower, OrBit5, Settle;
  }

  lemma ValueByteIgnoresLine(strict: bool, k: Core, line: Line, n: ValueNode, b: byte)
    requires k.node == V(n) && ValueReads(n) && line.lenient == k.line.lenient
    ensures IgnoresLine(k, line, ValueByte(strict, k, n, b), ValueByte(strict, k.(line := line), n, b))
  {
    if n.ValueLws? || n.DiscardLws? { SettleIgnoresLine(k, line); }
    if IsListNode(n) { ListIgnoresLine(k, line, n, b); }
    hide MatcherOf, Machine.Apply, MulAdd, IsValueByte, IsDigit, DigitVal, Lower, OrBit5, Settle, ListByte;
  }

  lemma BlindIgnoresLine(strict: bool, k: Core, line: Line, n: ValueNode, c: Option<byte>)
    requires k.node == V(n) && !(c.Some? && ValueReads(n))
    ensures IgnoresLine(k, line, ValueStep(strict, k, n, c), ValueStep(strict, k.(line := line), n, c))
  {
    hide ValueByte, ValueAutomaton;
    if n.LoadHeaderState? { AutomatonIgnoresLine(k, line); }
  }

  lemma AutomatonIgnoresLine(k: Core, line: Line)
    ensures IgnoresLine(k, line, ValueAutomaton(k), ValueAutomaton(k.(line := line)))
  {
    match k.hs {
      case TransferEncoding =>
      case Upgrade =>
      case _ =>
    }
  }

  lemma ValueIgnoresLine(strict: bool, k: Core, line: Line, n: ValueNode, c: Option<byte>)
    requires k.node == V(n) && line.lenient == k.line.lenient
    ensures IgnoresLine(k, line, ValueStep(strict, k, n, c), ValueStep(strict, k.(line := line), n, c))
  {
    if c.Some? && ValueReads(n) {
      ValueByteIgnoresLine(strict, k, line, n, c.value);
    } else {
      BlindIgnoresLine(strict, k, line, n, c);
    }
    hide ValueByte, IgnoresLine;
  }

  lemma LiveValue(strict: bool, k: Core, m: Core, n: ValueNode, c: Option<byte>)
    requires k.node == V(n) && Alike(k, m)
    ensures SameAct(ValueStep(strict, k, n, c), ValueStep(strict, m, n, c))
  {
    hide ValueStep, Alike, SameAct, IgnoresLine;
    AlikeInValue(k, m);
    ValueIgnoresLine(strict, k, m.line, n, c);
    SameButLine(k, m, ValueStep(strict, k, n, c), ValueStep(strict, m, n, c));
  }

  lemma SameButLine(k: Core, m: Core, a: Act, b: Act)
    requires k.node.V? && Alike(k, m) && IgnoresLine(k, m.line, a, b)
    ensures SameAct(a, b)
  {
    hide Alike;
    if !a.Wait? && !a.Fail? { AlikeAfterValue(k, m, a.next); }
  }

  lemma AlikeInValue(k: Core, m: Core)
    requires k.node.V? && Alike(k, m)
    ensures m == k.(line := m.line) && m.line.lenient == k.line.lenient
  {
  }

  lemma AlikeAfterValue(k: Core, m: Core, next: Core)
    requires k.node.V? && Alike(k, m) && (next.node.V? || next.node == N(FieldStart))
    requires next.line == k.line && next.flags.trailing == k.flags.trailing
    ensures Alike(next, next.(line := m.line))
  {
  }

  lemma LiveBodyByte(strict: bool, k: Core, m: Core, n: BodyNode, b: byte)
    requires k.node == B(n) && Alike(k, m) && BodyReads(n)
    ensures SameAct(BodyByte(strict, k, n, b), BodyByte(strict, m, n, b))
  {
    hide MatcherOf, Machine.Apply, MulAdd, IsHex, HexVal;
  }

  lemma LiveFraming(strict: bool, k: Core, m: Core, n: BodyNode, c: Option<byte>)
    requires k.node == B(n) && Alike(k, m)
    requires n.TestFlags? || n.OnHeadersComplete? || n.AfterHeadersComplete? || n.AfterMessageComplete?
    ensures SameAct(BodyStep(strict, k, n, c), BodyStep(strict, m, n, c))
  {
    hide BodyByte, Consume;
  }

  lemma LiveBodyBlind(strict: bool, k: Core, m: Core, n: BodyNode, c: Option<byte>)
    requires k.node == B(n) && Alike(k, m) && !(c.Some? && BodyReads(n))
    requires !n.TestFlags? && !n.OnHeadersComplete? && !n.AfterHeadersComplete? && !n.AfterMessageComplete?
    ensures SameAct(BodyStep(strict, k, n, c), BodyStep(strict, m, n, c))
  {
    hide BodyByte, AfterHeaders, UpgradeFlag, Restart;
  }

  lemma LiveBody(strict: bool, k: Core, m: Core, n: BodyNode, c: Option<byte>)
    requires k.node == B(n) && Alike(k, m)
    ensures SameAct(BodyStep(strict, k, n, c), BodyStep(strict, m, n, c))
  {
    if n.TestFlags? || n.OnHeadersComplete? || n.AfterHeadersComplete? || n.AfterMessageComplete? {
      LiveFraming(strict, k, m, n, c);
      hide BodyStep;
    } else if c.Some? && BodyReads(n) {
      LiveBodyByte(strict, k, m, n, c.value);
      hide BodyByte, Alike, SameAct;
    } else {
      LiveBodyBlind(strict, k, m, n, c);
      hide BodyStep;
    }
  }

  lemma LiveStep(strict: bool, k: Core, m: Core, c: Option<byte>)
    requires Typed(k) && Alike(k, m)
    ensures SameAct(Step(strict, k, c), Step(strict, m, c))
  {
    match k.node
    case L(n) => LiveLine(k, m, n, c);
    case U(n) => LiveUrl(k, m, n, c);
    case N(n) => LiveName(strict, k, m, n, c);
    case V(n) => LiveValue(strict, k, m, n, c);
    case B(n) => LiveBody(strict, k, m, n, c);
    case Error =>
  }

  // ---------------------------------------------------------------- what never changes

  /** The type is fixed; a response parser has no method, so none can make it leave HTTP. */
  predicate Fixed(k: Core, ty: MsgType, lenient: Lenient) {
    Typed(k) && k.line.ty == ty && k.line.lenient == lenient
        && (ty.Response? ==> k.line.verb == 0 && (k.node.L? ==> !k.node.line.Method?))
  }

  lemma LineFixed(k: Core, n: LineNode, c: Option<byte>, ty: MsgType, lenient: Lenient)
    requires k.node == L(n) && Fixed(k, ty, lenient)
    ensures var a := LineStep(k, n, c); !a.Wait? ==> Fixed(a.next, ty, lenient)
  {
    hide MatcherOf, Machine.Apply, MulAddStatus, MethodCode, IsMethodPrefix;
  }

  lemma UrlFixed(k: Core, n: UrlNode, c: Option<byte>, ty: MsgType, lenient: Lenient)
    requires k.node == U(n) && Fixed(k, ty, lenient)
    ensures var a := UrlStep(k, n, c); !a.Wait? ==> Fixed(a.next, ty, lenient)
  {
    hide MatcherOf, Machine.Apply;
  }

  lemma NameFixed(strict: bool, k: Core, n: NameNode, c: Option<byte>, ty: MsgType, lenient: Lenient)
    requires k.node == N(n) && Fixed(k, ty, lenient)
    ensures var a := NameStep(strict, k, n, c); !a.Wait? ==> Fixed(a.next, ty, lenient)
  {
    hide MatcherOf, Machine.Apply, Lower;
  }

  lemma ListFixed(k: Core, n: ValueNode, b: byte, ty: MsgType, lenient: Lenient)
    requires k.node == V(n) && Fixed(k, ty, lenient) && IsListNode(n)
    ensures var a := ListByte(k, n, b); !a.Wait? ==> Fixed(a.next, ty, lenient)
  {
    hide MatcherOf, Machine.Apply, Lower;
  }

  lemma ValueFixed(strict: bool, k: Core, n: ValueNode, c: Option<byte>, ty: MsgType, lenient: Lenient)
    requires k.node == V(n) && Fixed(k, ty, lenient)
    ensures var a := ValueStep(strict, k, n, c); !a.Wait? ==> Fixed(a.next, ty, lenient)
  {
    hide MulAdd, ListByte;
    if c.Some? && IsListNode(n) { ListFixed(k, n, c.value, ty, lenient); }
  }

  lemma BodyFixed(strict: bool, k: Core, n: BodyNode, c: Option<byte>, ty: MsgType, lenient: Lenient)
    requires k.node == B(n) && Fixed(k, ty, lenient)
    ensures var a := BodyStep(strict, k, n, c); !a.Wait? ==> Fixed(a.next, ty, lenient)
  {
    hide MulAdd, AfterHeaders, ShouldKeepAlive, UpgradeFlag;
  }

  lemma StepFixed(strict: bool, k: Core, c: Option<byte>, ty: MsgType, lenient: Lenient)
    requires Fixed(k, ty, lenient)
    ensures var a := Step(strict, k, c); !a.Wait? ==> Fixed(a.next, ty, lenient)
  {
    hide LineStep, UrlStep, NameStep, ValueStep, BodyStep;
    match k.node
    case L(n) => LineFixed(k, n, c, ty, lenient);
    case U(n) => UrlFixed(k, n, c, ty, lenient);
    case N(n) => NameFixed(strict, k, n, c, ty, lenient);
    case V(n) => ValueFixed(strict, k, n, c, ty, lenient);
    case B(n) => BodyFixed(strict, k, n, c, ty, lenient);
    case Error =>
  }

  // ---------------------------------------------------------------- two runs side by side

  /** The application's answers depend only on what it heard since the last complete message. */
  ghost predicate Forgetful(answer: seq<Event> -> HeadersAnswer) {
    forall before: seq<Event>, now: seq<Event> :: Scan(before) == Some(Idle) ==> answer(before + now) == answer(now)
  }

  lemma AnsweredAlike(k: Core, m: Core, answer: HeadersAnswer)
    requires Alike(k, m) && k.node == B(AfterHeadersComplete)
    ensures Alike(Answered(k, answer), Answered(m, answer))
  {
  }

  /** `k` is `m` with events `before` heard and `offset` bytes read earlier. */
  predicate Shadows(k: Config, m: Config, before: seq<Event>, offset: nat) {
    && Alike(k.core, m.core) && k.span == m.span && k.stop == m.stop
    && k.trace == before + m.trace && k.pos == offset + m.pos
  }

  lemma AdvanceShadows(env: Env, k: Config, m: Config, before: seq<Event>, offset: nat, c: Option<byte>)
    requires Forgetful(env.answer) && Scan(before) == Some(Idle)
    requires Typed(k.core) && Shadows(k, m, before, offset)
    ensures var a, b := Step(env.strict, k.core, c), Step(env.strict, m.core, c);
            && a.Wait? == b.Wait? && a.Fail? == b.Fail? && Takes(a) == Takes(b) && (Takes(a) ==> c.Some?)
            && (!a.Fail? ==> Shadows(Advance(env, k, a, c), Advance(env, m, b, c), before, offset))
            && (a.Fail? ==>
                  var r, s := Advance(env, k, a, c), Advance(env, m, b, c);
                  r.stop == s.stop && r.trace == before + s.trace && r.pos == offset + s.pos && r.span == s.span)
  {
    LiveStep(env.strict, k.core, m.core, c);
    StepShape(env.strict, k.core, c);
    var a, b := Step(env.strict, k.core, c), Step(env.strict, m.core, c);
    hide Step, Rank, Alike, Typed, Scan;
    match (a, b) {
      case (Close(_, _), Close(_, _)) =>
        if k.span.Some? {
          var e := Span(k.span.value.kind, k.span.value.data);
          assert before + m.trace + [e] == before + (m.trace + [e]);
        }
      case (Notify(e, _, _), Notify(_, _, _)) => assert before + m.trace + [e] == before + (m.trace + [e]);
      case (AskHeaders(n), AskHeaders(o)) =>
        AnsweredAlike(n, o, env.answer(m.trace));
        assert before + m.trace + [HeadersComplete] == before + (m.trace + [HeadersComplete]);
      case _ =>
    }
  }

  /** The two runs report the same events, stop alike, and end in the same state. */
  lemma {:induction false} RunShadows(env: Env, k: Config, m: Config, before: seq<Event>, offset: nat, buf: seq<byte>,
                                      ty: MsgType, lenient: Lenient)
    requires Forgetful(env.answer) && Scan(before) == Some(Idle)
    requires Fixed(k.core, ty, lenient) && Shadows(k, m, before, offset) && k.stop == 0
    ensures var r, s := Run(env, k, buf), Run(env, m, buf);
            && r.stop == s.stop && r.trace == before + s.trace && r.pos == offset + s.pos && r.span == s.span
            && (r.stop == 0 ==> Shadows(r, s, before, offset) && Fixed(r.core, ty, lenient))
    decreases |buf|, Rank(k.core.node)
  {
    var c := Head(buf);
    var a := Step(env.strict, k.core, c);
    StepShape(env.strict, k.core, c);
    StepFixed(env.strict, k.core, c, ty, lenient);
    AdvanceShadows(env, k, m, before, offset, c);
    hide Step, Rank, Alike, Typed, Scan, Forgetful;
    if !a.Wait? && !a.Fail? {
      AnsweredFixed(a, env.answer(k.trace), ty, lenient);
      RunShadows(env, Advance(env, k, a, c), Advance(env, m, Step(env.strict, m.core, c), c), before, offset,
                 if Takes(a) then buf[1..] else buf, ty, lenient);
    }
  }

  lemma AnsweredFixed(a: Act, answer: HeadersAnswer, ty: MsgType, lenient: Lenient)
    ensures a.AskHeaders? && Fixed(a.next, ty, lenient) ==> Fixed(Answered(a.next, answer), ty, lenient)
  {
  }

  // ---------------------------------------------------------------- pipelines

  /** Read from a new parser, `m` is one or more whole keep-alive messages that leave no count behind. */
  predicate Whole(env: Env, ty: MsgType, lenient: Lenient, m: seq<byte>) {
    var r := Run(env, Initial(ty, lenient), m);
    r.stop == 0 && r.core.node == L(Start) && r.core.length == 0
  }

  function Concat(messages: seq<seq<byte>>): seq<byte> {
    if messages == [] then [] else Concat(messages[..|messages| - 1]) + messages[|messages| - 1]
  }

  /** The events of each message read by a new parser, one after the other. */
  function EventsOneByOne(env: Env, ty: MsgType, lenient: Lenient, messages: seq<seq<byte>>): seq<Event> {
    if messages == [] then [] else
    EventsOneByOne(env, ty, lenient, messages[..|messages| - 1])
      + Run(env, Initial(ty, lenient), messages[|messages| - 1]).trace
  }

  /**
    Whenever the parser is at the start state, after any input at all, the message registers are clean:
    no flag is set, `finish` is SAFE, no match is under way, no span is open, and every message begun has
    been reported complete.
  */
  lemma StartIsClean(env: Env, ty: MsgType, lenient: Lenient, buf: seq<byte>)
    ensures var r := Run(env, Initial(ty, lenient), buf);
            r.core.node == L(Start) ==>
              && r.core.flags == NoFlags && r.core.line.finish.Safe? && r.core.index == 0 && r.span == None
              && Scan(r.trace) == Some(Idle)
  {
    InitialGrammatical(env.strict, ty, lenient);
    RunGrammar(env, Initial(ty, lenient), buf);
    hide Run;
  }

  /** At Start everything a message has left behind is dead, except content_length. */
  lemma StartIsFresh(strict: bool, k: Config, ty: MsgType, lenient: Lenient)
    requires Grammatical(strict, k) && Fixed(k.core, ty, lenient) && k.stop == 0
    requires k.core.node == L(Start) && k.core.length == 0
    ensures Scan(k.trace) == Some(Idle) && Shadows(k, Initial(ty, lenient), k.trace, k.pos)
  {
    assert k.trace + [] == k.trace;
  }

  /**
    A pipeline of whole messages is read as the messages one by one, each by a new parser: the events
    are the concatenation, nothing stops, and the parser is ready for the next message.
  */
  lemma {:induction false} ReadPipeline(env: Env, ty: MsgType, lenient: Lenient, messages: seq<seq<byte>>)
    requires !ty.Both? && Forgetful(env.answer)
    requires forall i :: 0 <= i < |messages| ==> Whole(env, ty, lenient, messages[i])
    ensures Run(env, Initial(ty, lenient), Concat(messages)).trace == EventsOneByOne(env, ty, lenient, messages)
    ensures Whole(env, ty, lenient, Concat(messages))
  {
    var k0 := Initial(ty, lenient);
    InitialGrammatical(env.strict, ty, lenient);
    if messages == [] {
      RunWaits(env, k0, []);
    } else {
      var front, m := messages[..|messages| - 1], messages[|messages| - 1];
      forall i | 0 <= i < |front| ensures Whole(env, ty, lenient, front[i]) { assert front[i] == messages[i]; }
      ReadPipeline(env, ty, lenient, front);
      assert Whole(env, ty, lenient, m);
      hide Step, Grammatical, Scan, Forgetful, Alike, Fixed;
      var k := Run(env, k0, Concat(front));
      RunGrammar(env, k0, Concat(front));
      InitialFixed(ty, lenient);
      InitialShadows(ty, lenient);
      RunShadows(env, k0, k0, [], 0, Concat(front), ty, lenient);
      StartIsFresh(env.strict, k, ty, lenient);
      RunShadows(env, k, k0, k.trace, k.pos, m, ty, lenient);
      RunSplit(env, k0, Concat(front), m);
      AlikeSame(Run(env, k, m).core, Run(env, k0, m).core);
    }
  }

  lemma InitialFixed(ty: MsgType, lenient: Lenient)
    requires !ty.Both?
    ensures Fixed(InitialCore(ty, lenient), ty, lenient)
  {
  }

  lemma InitialShadows(ty: MsgType, lenient: Lenient)
    ensures Shadows(Initial(ty, lenient), Initial(ty, lenient), [], 0) && Scan([]) == Some(Idle)
  {
  }

  lemma AlikeSame(k: Core, m: Core)
    ensures Alike(k, m) ==> k.node == m.node && k.length == m.length
  {
  }

  // ---------------------------------------------------------------- the count left behind

  /**
    When no message has left a count behind: content_length is 0 outside a body, unless this message's
    own Content-Length has set it.
  */
  predicate Tidy(k: Core) {
    match k.node
    case L(_) => k.length == 0
    case U(_) => k.length == 0
    case N(_) => k.length > 0 ==> k.flags.contentLength
    case V(n) =>
      n.Length? || n.LengthWs? || n.LengthOverflow? || n.LengthOverflowError? || n.LengthCharError? ||
      (k.length > 0 ==> k.flags.contentLength)
    case B(n) => (
      match n
      case HeadersAlmostDone => k.length > 0 ==> k.flags.contentLength
      case TestFlags => k.length > 0 ==> k.flags.contentLength
      case OnHeadersComplete => k.length > 0 ==> k.flags.contentLength
      case AfterHeadersComplete => k.length > 0 ==> k.flags.contentLength
      case OnMessageComplete => k.length > 0 ==> k.flags.skipBody
      case OnMessageComplete1 => k.line.upgrade
      case OnLastChunkComplete => k.length > 0 ==> LeavesCount(k)
      case OnMessageComplete2 => k.length > 0 ==> LeavesCount(k)
      case IsEqualUpgrade => k.length > 0 ==> LeavesCount(k)
      case PauseUpgrade => k.length > 0 ==> LeavesCount(k)
      case AfterMessageComplete => k.length > 0 ==> LeavesCount(k)
      case _ => true)
    case Error => true
  }

  /** The three ways a message leaves its count behind. */
  predicate LeavesCount(k: Core) {
    k.flags.skipBody || k.line.upgrade || (k.flags.trailing && k.flags.contentLength)
  }

  lemma TidyHead(strict: bool, k: Core, c: Option<byte>)
    requires Tidy(k) && (k.node.L? || k.node.U? || k.node.N?)
    ensures var a := Step(strict, k, c); !a.Wait? ==> Tidy(a.next)
  {
    hide MatcherOf, Machine.Apply, MulAddStatus, MethodCode, IsMethodPrefix, ValueStep, BodyStep, Lower;
  }

  lemma TidyList(k: Core, n: ValueNode, b: byte)
    requires Tidy(k) && k.node == V(n) && IsListNode(n)
    ensures var a := ListByte(k, n, b); !a.Wait? ==> Tidy(a.next)
  {
    hide MatcherOf, Machine.Apply, Lower;
  }

  lemma TidyAutomaton(k: Core)
    requires Tidy(k) && k.node == V(LoadHeaderState)
    ensures Tidy(ValueAutomaton(k).next)
  {
    match k.hs {
      case TransferEncoding =>
      case _ =>
    }
  }

  lemma TidyValue(strict: bool, k: Core, n: ValueNode, c: Option<byte>)
    requires Tidy(k) && k.node == V(n)
    ensures var a := ValueStep(strict, k, n, c); !a.Wait? ==> Tidy(a.next)
  {
    if c.Some? && IsListNode(n) { TidyList(k, n, c.value); }
    if n.LoadHeaderState? { TidyAutomaton(k); }
    SettleKeeps(k);
    hide Settle, MulAdd, ListByte, IsValueByte, IsDigit, DigitVal, ValueAutomaton;
  }

  lemma TidyBody(strict: bool, k: Core, n: BodyNode, c: Option<byte>)
    requires Tidy(k) && k.node == B(n)
    requires n.AfterMessageComplete? ==> !LeavesCount(k)
    ensures var a := BodyStep(strict, k, n, c); !a.Wait? ==> Tidy(a.next)
  {
    hide MulAdd, NeedsEof, UpgradeFlag, ShouldKeepAlive;
  }

  lemma TidyStep(strict: bool, k: Core, c: Option<byte>)
    requires Tidy(k) && (k.node == B(AfterMessageComplete) ==> !LeavesCount(k))
    ensures var a := Step(strict, k, c); !a.Wait? ==> Tidy(a.next)
  {
    hide LineStep, UrlStep, NameStep, ValueStep, BodyStep;
    match k.node
    case V(n) => TidyValue(strict, k, n, c);
    case B(n) => TidyBody(strict, k, n, c);
    case Error =>
    case _ => TidyHead(strict, k, c);
  }

  /** No message of this run is upgraded, skips its body, or has Content-Length among its trailers. */
  predicate LeavesNothing(env: Env, k: Config, buf: seq<byte>)
    decreases |buf|, Rank(k.core.node)
  {
    var a := Step(env.strict, k.core, Head(buf));
    StepShape(env.strict, k.core, Head(buf));
    && (k.core.node == B(AfterMessageComplete) ==> !LeavesCount(k.core))
    && (k.stop == 0 && !a.Wait? && !a.Fail? ==>
          LeavesNothing(env, Advance(env, k, a, Head(buf)), if Takes(a) then buf[1..] else buf))
  }

  /** Then whenever the parser is back at Start, content_length is 0. */
  lemma {:induction false} RunTidy(env: Env, k: Config, buf: seq<byte>)
    requires Tidy(k.core) && LeavesNothing(env, k, buf)
    ensures var r := Run(env, k, buf); Tidy(r.core) && (r.core.node == L(Start) ==> r.core.length == 0)
    decreases |buf|, Rank(k.core.node)
  {
    var a := Step(env.strict, k.core, Head(buf));
    StepShape(env.strict, k.core, Head(buf));
    TidyStep(env.strict, k.core, Head(buf));
    if k.stop == 0 && !a.Wait? && !a.Fail? {
      AnsweredTidy(a, env.answer(k.trace));
      hide Step, Rank, Tidy;
      RunTidy(env, Advance(env, k, a, Head(buf)), if Takes(a) then buf[1..] else buf);
    }
  }

  lemma AnsweredTidy(a: Act, answer: HeadersAnswer)
    ensures a.AskHeaders? && Tidy(a.next) && a.next.node == B(AfterHeadersComplete) ==> Tidy(Answered(a.next, answer))
  {
  }
}
