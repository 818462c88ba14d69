/**
  Connections: whole written messages, start line and all, one after the other.
*/
module Connections {
  import opened Http
  import opened Machine
  import opened Numbers
  import opened Automaton
  import opened Semantics
  import opened Invariants
  import opened Lengths
  import opened Bodies
  import opened Fields
  import opened Lists
  import opened Methods
  import opened Printer
  import opened Headers
  import opened Targets
  import opened StartLines
  import opened Messages
  import opened Pipeline

  datatype StartLine =
    | RequestStart(verb: HttpMethod, target: Target, protocol: Protocol, major: byte, minor: byte)
    | StatusStart(major: byte, minor: byte, digits: seq<byte>, reason: seq<byte>)

  predicate IsStart(s: StartLine, ty: MsgType) {
    && IsDigit(s.major) && IsDigit(s.minor)
    && match s
       case RequestStart(verb, target, protocol, _, _) =>
         ty.Request? && verb != PRI && Speaks(protocol, verb) && IsTarget(target, verb == CONNECT)
       case StatusStart(_, _, digits, reason) =>
         ty.Response? && AllDigits(digits) && Denotes(10, DigitVals(digits)) <= 999 && IsReason(reason)
  }

  function StartText(s: StartLine, ty: MsgType): seq<byte>
    requires IsStart(s, ty)
  {
    match s
    case RequestStart(verb, target, protocol, major, minor) => RequestLine(verb, target, protocol, major, minor)
    case StatusStart(major, minor, digits, reason) => StatusLine(major, minor, digits, reason)
  }

  function StartEvents(s: StartLine): seq<Event> {
    match s
    case RequestStart(_, target, _, _, _) => RequestEvents(target)
    case StatusStart(_, _, _, reason) => [MessageBegin] + ReasonEvents(reason)
  }

  /** The message registers after the start line. */
  function Started(k: Core, s: StartLine, ty: MsgType): Core
    requires IsStart(s, ty)
  {
    match s
    case RequestStart(verb, _, _, major, minor) => AfterRequestLine(k, Number(verb), DigitVal(major), DigitVal(minor))
    case StatusStart(major, minor, digits, _) =>
      AfterStatusLine(k, DigitVal(major), DigitVal(minor), Denotes(10, DigitVals(digits)))
  }

  lemma ReadStartLine(env: Env, k: Config, s: StartLine, rest: seq<byte>)
    requires Ready(k) && k.core.node == L(Start) && k.core.index == 0 && IsStart(s, k.core.line.ty)
    ensures var text := StartText(s, k.core.line.ty);
            var core := Started(k.core, s, k.core.line.ty);
            Run(env, k, text + rest) == Run(env, Emitted(k, core, StartEvents(s), |text|), rest)
  {
    hide Run, RequestLine, RequestEvents, StatusLine, ReasonEvents, IsTarget, IsReason, Denotes, DigitVals;
    match s
    case RequestStart(verb, target, protocol, major, minor) =>
      ReadRequestLine(env, k, verb, target, protocol, major, minor, rest);
    case StatusStart(major, minor, digits, reason) => ReadStatusLine(env, k, major, minor, digits, reason, rest);
  }

  /** A message as it is written. */
  datatype Message = Message(start: StartLine, headers: seq<Header>, body: BodyText)

  /** What a new parser's registers say after the start line. */
  function FirstLine(m: Message, ty: MsgType, lenient: Lenient): Line
    requires IsStart(m.start, ty)
  {
    Started(InitialCore(ty, lenient), m.start, ty).line
  }

  function AnswerTo(env: Env, m: Message): HeadersAnswer
    requires AreHeaders(m.headers)
  {
    env.answer(StartEvents(m.start) + SectionEvents(m.headers))
  }

  /** A start line, header lines that can be read, and the body they announce. */
  predicate IsMessage(env: Env, m: Message, ty: MsgType, lenient: Lenient) {
    && IsStart(m.start, ty) && !lenient.chunkedLength && Readable(Clean, m.headers)
    && Framed(FirstLine(m, ty, lenient), 0, m.headers, AnswerTo(env, m), m.body)
  }

  function MessageText(m: Message, ty: MsgType): seq<byte>
    requires IsStart(m.start, ty) && AreHeaders(m.headers) && IsBody(m.body)
  {
    StartText(m.start, ty) + Text(m.headers, m.body)
  }

  function MessageEvents(m: Message): seq<Event>
    requires AreHeaders(m.headers) && IsBody(m.body)
  {
    StartEvents(m.start) + Told(m.headers, m.body)
  }

  /** The connection goes on after the message, in this protocol, and no count is left over. */
  predicate GoesOn(env: Env, m: Message, ty: MsgType, lenient: Lenient)
    requires IsStart(m.start, ty) && AreHeaders(m.headers) && IsBody(m.body) && AreHeaders(m.headers + Trailers(m.body))
  {
    var line, answer := FirstLine(m, ty, lenient), AnswerTo(env, m);
    && !HandsOver(line, m.headers, answer, m.body) && Persists(line, m.headers + Trailers(m.body), answer)
    && LeftBehind(0, m.headers, m.body) == 0
  }

  lemma MessageIsWritten(env: Env, m: Message, ty: MsgType, lenient: Lenient)
    requires IsMessage(env, m, ty, lenient)
    ensures AreHeaders(m.headers) && IsBody(m.body) && AreHeaders(m.headers + Trailers(m.body))
  {
    FramedIsBody(FirstLine(m, ty, lenient), 0, m.headers, AnswerTo(env, m), m.body);
    hide IsHeader, Framed;
  }

  lemma StartedAtMessage(strict: bool, m: Message, ty: MsgType, lenient: Lenient, k: Config)
    requires IsStart(m.start, ty) && !lenient.chunkedLength && Ready(k)
    requires k.core == Started(InitialCore(ty, lenient), m.start, ty)
    ensures AtMessage(strict, k) && k.core.length == 0 && SeenAt(k.core) == Clean
    ensures k.core.line == FirstLine(m, ty, lenient)
  {
    hide Denotes, DigitVals, IsTarget, IsReason;
  }

  /** A written message, read by a new parser. */
  lemma ReadMessage(env: Env, m: Message, ty: MsgType, lenient: Lenient, rest: seq<byte>) returns (r: Config)
    requires IsMessage(env, m, ty, lenient)
    ensures AreHeaders(m.headers) && IsBody(m.body) && AreHeaders(m.headers + Trailers(m.body))
    ensures Run(env, Initial(ty, lenient), MessageText(m, ty) + rest) == Run(env, r, rest)
    ensures r.trace == MessageEvents(m)
    ensures Concluded(r, FirstLine(m, ty, lenient), 0, m.headers, AnswerTo(env, m), m.body)
  {
    MessageIsWritten(env, m, ty, lenient);
    var k0, hs, body := Initial(ty, lenient), m.headers, m.body;
    var text, core := StartText(m.start, ty), Started(k0.core, m.start, ty);
    var k1 := Emitted(k0, core, StartEvents(m.start), |text|);
    StartedAtMessage(env.strict, m, ty, lenient, k1);
    EventsToo([], m);
    assert k1.trace == StartEvents(m.start) by { assert [] + StartEvents(m.start) == StartEvents(m.start); }
    assert Ready(k0) && k0.core.node == L(Start) && k0.core.index == 0 && IsStart(m.start, k0.core.line.ty);
    hide Run, Step, IsStart, IsHeader, StartText, StartEvents, Started, Text, Told, Readable, Framed, Persists,
         HandsOver, LeftBehind, SectionEvents, AtMessage, Concluded, Emitted, Trailers, IsBody, MessageEvents;
    assert MessageText(m, ty) + rest == text + (Text(hs, body) + rest);
    ReadStartLine(env, k0, m.start, Text(hs, body) + rest);
    r := MessageFramed(env, k1, hs, body, rest);
    assert [] + StartEvents(m.start) + Told(hs, body) == StartEvents(m.start) + Told(hs, body);
    assert [] + MessageEvents(m) == MessageEvents(m);
  }

  /**
    A written message, read by a new parser, gives its events; and it is whole, fit to be followed by another
    message, if and only if the connection goes on.
  */
  lemma WholeMessage(env: Env, m: Message, ty: MsgType, lenient: Lenient)
    requires IsMessage(env, m, ty, lenient)
    ensures AreHeaders(m.headers) && IsBody(m.body) && AreHeaders(m.headers + Trailers(m.body))
    ensures Run(env, Initial(ty, lenient), MessageText(m, ty)).trace == MessageEvents(m)
    ensures Whole(env, ty, lenient, MessageText(m, ty)) <==> GoesOn(env, m, ty, lenient)
  {
    assert IsStart(m.start, ty);
    hide Run, Step, IsMessage, IsHeader, MessageText, MessageEvents, FirstLine, Persists, HandsOver, LeftBehind,
         AnswerTo, IsStart;
    var r := ReadMessage(env, m, ty, lenient, []);
    assert MessageText(m, ty) + [] == MessageText(m, ty);
    if r.stop == 0 { BetweenWaits(env, r); } else { RunStopped(env, r, []); }
  }

  // ---------------------------------------------------------------- a pipeline of written messages

  predicate Continues(env: Env, m: Message, ty: MsgType, lenient: Lenient) {
    IsMessage(env, m, ty, lenient) && (MessageIsWritten(env, m, ty, lenient); GoesOn(env, m, ty, lenient))
  }

  ghost predicate AllContinue(env: Env, ms: seq<Message>, ty: MsgType, lenient: Lenient) {
    forall i :: 0 <= i < |ms| ==> Continues(env, ms[i], ty, lenient)
  }

  ghost function Texts(env: Env, ms: seq<Message>, ty: MsgType, lenient: Lenient): (r: seq<seq<byte>>)
    requires AllContinue(env, ms, ty, lenient)
    ensures |r| == |ms|
  {
    if ms == [] then [] else
    var m := ms[|ms| - 1];
    MessageIsWritten(env, m, ty, lenient);
    Texts(env, ms[..|ms| - 1], ty, lenient) + [MessageText(m, ty)]
  }

  ghost function AllEvents(env: Env, ms: seq<Message>, ty: MsgType, lenient: Lenient): seq<Event>
    requires AllContinue(env, ms, ty, lenient)
  {
    if ms == [] then [] else
    var m := ms[|ms| - 1];
    MessageIsWritten(env, m, ty, lenient);
    AllEvents(env, ms[..|ms| - 1], ty, lenient) + MessageEvents(m)
  }

  lemma {:induction false} TextsAreWhole(env: Env, ms: seq<Message>, ty: MsgType, lenient: Lenient)
    requires AllContinue(env, ms, ty, lenient)
    ensures var texts := Texts(env, ms, ty, lenient);
            && (forall i :: 0 <= i < |texts| ==> Whole(env, ty, lenient, texts[i]))
            && EventsOneByOne(env, ty, lenient, texts) == AllEvents(env, ms, ty, lenient)
    decreases |ms|
  {
    hide Whole, Framed, Readable, GoesOn, MessageText, MessageEvents, Run, IsStart, IsHeader;
    if ms != [] {
      var front, m := ms[..|ms| - 1], ms[|ms| - 1];
      TextsAreWhole(env, front, ty, lenient);
      assert Continues(env, m, ty, lenient);
      WholeMessage(env, m, ty, lenient);
      var texts, before := Texts(env, ms, ty, lenient), Texts(env, front, ty, lenient);
      assert texts[..|texts| - 1] == before && texts[|texts| - 1] == MessageText(m, ty);
      forall i | 0 <= i < |texts| ensures Whole(env, ty, lenient, texts[i]) {
        if i < |before| { assert texts[i] == before[i]; }
      }
    }
  }

  /**
    Any list of written messages after each of which the connection goes on, sent one after the other on one
    connection, tells the application of exactly these messages, in order.
  */
  lemma PipelinedMessages(env: Env, ms: seq<Message>, ty: MsgType, lenient: Lenient)
    requires !ty.Both? && Forgetful(env.answer) && AllContinue(env, ms, ty, lenient)
    ensures var r := Run(env, Initial(ty, lenient), Concat(Texts(env, ms, ty, lenient)));
            r.stop == 0 && r.core.node == L(Start) && r.trace == AllEvents(env, ms, ty, lenient)
  {
    TextsAreWhole(env, ms, ty, lenient);
    ReadPipeline(env, ty, lenient, Texts(env, ms, ty, lenient));
    hide Run, Concat, EventsOneByOne, Texts, AllEvents, Forgetful;
  }

  // ---------------------------------------------------------------- the count from message to message

  /** Between two messages: the registers are clean, but for a count. */
  predicate Between(strict: bool, k: Config) {
    && Ready(k) && k.core.node == L(Start) && k.core.index == 0 && Coherent(strict, k.core) && k.core.flags == NoFlags
    && KnownType(k.core.line)
  }

  lemma BetweenStarts(strict: bool, k: Config, s: StartLine, r: Config)
    requires Between(strict, k) && IsStart(s, k.core.line.ty) && Ready(r)
    requires r.core == Started(k.core, s, k.core.line.ty)
    ensures AtMessage(strict, r) && SeenAt(r.core) == Seen(NoFlags, k.core.length)
  {
    hide Denotes, DigitVals, IsTarget, IsReason;
  }

  lemma BetweenReady(strict: bool, k: Config)
    requires Between(strict, k)
    ensures Ready(k) && k.core.node == L(Start) && k.core.index == 0
  {
  }

  function LineOf(line: Line, s: StartLine, ty: MsgType): Line
    requires IsStart(s, ty)
  {
    Started(InitialCore(ty, line.lenient).(line := line), s, ty).line
  }

  /**
    The message at the front can be read after `trace`, with `line` and `v` left over, and leads on to another
    message.
  */
  predicate LeadsOn(env: Env, line: Line, v: nat, trace: seq<Event>, m: Message) {
    && IsStart(m.start, line.ty) && Readable(Seen(NoFlags, v), m.headers)
    && var now, answer := LineOf(line, m.start, line.ty),
         env.answer(trace + StartEvents(m.start) + SectionEvents(m.headers));
       && Framed(now, v, m.headers, answer, m.body) && IsBody(m.body) && AreHeaders(m.headers + Trailers(m.body))
       && !HandsOver(now, m.headers, answer, m.body) && Persists(now, m.headers + Trailers(m.body), answer)
  }

  /** What is left in the line registers. */
  function LineAfter(env: Env, line: Line, trace: seq<Event>, m: Message): Line
    requires IsStart(m.start, line.ty) && AreHeaders(m.headers)
  {
    var now, answer := LineOf(line, m.start, line.ty),
        env.answer(trace + StartEvents(m.start) + SectionEvents(m.headers));
    now.(upgrade := Upgraded(now, m.headers, answer), finish := Safe)
  }

  /** Each message can be read with what the one before it leaves over. */
  predicate Chained(env: Env, line: Line, v: nat, trace: seq<Event>, ms: seq<Message>)
    decreases |ms|
  {
    ms == [] ||
    (LeadsOn(env, line, v, trace, ms[0])
     && Chained(env, LineAfter(env, line, trace, ms[0]), LeftBehind(v, ms[0].headers, ms[0].body),
                trace + MessageEvents(ms[0]), ms[1..]))
  }

  /** The count after all the messages. */
  function CountAfter(env: Env, line: Line, v: nat, trace: seq<Event>, ms: seq<Message>): nat
    requires Chained(env, line, v, trace, ms)
    decreases |ms|
  {
    if ms == [] then v else
    CountAfter(env, LineAfter(env, line, trace, ms[0]), LeftBehind(v, ms[0].headers, ms[0].body),
               trace + MessageEvents(ms[0]), ms[1..])
  }

  function ChainText(env: Env, line: Line, v: nat, trace: seq<Event>, ms: seq<Message>): seq<byte>
    requires Chained(env, line, v, trace, ms)
    decreases |ms|
  {
    if ms == [] then [] else
    MessageText(ms[0], line.ty)
      + ChainText(env, LineAfter(env, line, trace, ms[0]), LeftBehind(v, ms[0].headers, ms[0].body),
                  trace + MessageEvents(ms[0]), ms[1..])
  }

  function ChainTrace(env: Env, line: Line, v: nat, trace: seq<Event>, ms: seq<Message>): seq<Event>
    requires Chained(env, line, v, trace, ms)
    decreases |ms|
  {
    if ms == [] then trace else
    ChainTrace(env, LineAfter(env, line, trace, ms[0]), LeftBehind(v, ms[0].headers, ms[0].body),
               trace + MessageEvents(ms[0]), ms[1..])
  }

  /** A run that comes back to the start state, cleanly, is between messages again. */
  lemma BetweenAgain(env: Env, k: Config, buf: seq<byte>)
    requires Between(env.strict, k)
    ensures var r := Run(env, k, buf);
            && r.stop == 0 && r.span == None && r.core.node == L(Start) && r.core.flags == NoFlags
            && KnownType(r.core.line) ==>
              Between(env.strict, r)
  {
    RunKeeps(env, k, buf);
    hide Run;
  }

  lemma StillKnown(line: Line, s: StartLine, upgrade: bool)
    requires KnownType(line) && IsStart(s, line.ty)
    ensures KnownType(LineOf(line, s, line.ty).(upgrade := upgrade, finish := Safe))
  {
    hide Denotes, DigitVals, IsTarget, IsReason;
  }

  lemma LeadsOnWritten(env: Env, line: Line, v: nat, trace: seq<Event>, m: Message)
    requires LeadsOn(env, line, v, trace, m)
    ensures IsStart(m.start, line.ty) && AreHeaders(m.headers) && IsBody(m.body)
    ensures AreHeaders(m.headers + Trailers(m.body))
  {
    hide IsHeader;
  }

  /** One message, from its start line on. */
  lemma ReadFromStart(env: Env, k: Config, m: Message) returns (r: Config)
    requires Between(env.strict, k) && LeadsOn(env, k.core.line, k.core.length, k.trace, m)
    ensures IsStart(m.start, k.core.line.ty) && AreHeaders(m.headers) && IsBody(m.body)
    ensures AreHeaders(m.headers + Trailers(m.body))
    ensures Run(env, k, MessageText(m, k.core.line.ty)) == Run(env, r, []) && r.trace == k.trace + MessageEvents(m)
    ensures var answer := env.answer(k.trace + StartEvents(m.start) + SectionEvents(m.headers));
            Concluded(r, LineOf(k.core.line, m.start, k.core.line.ty), k.core.length, m.headers, answer, m.body)
  {
    LeadsOnWritten(env, k.core.line, k.core.length, k.trace, m);
    var s, hs, body, ty := m.start, m.headers, m.body, k.core.line.ty;
    var text, core := StartText(s, ty), Started(k.core, s, ty);
    var k1 := Emitted(k, core, StartEvents(s), |text|);
    BetweenReady(env.strict, k);
    BetweenStarts(env.strict, k, s, k1);
    EventsToo(k.trace, m);
    assert k1.trace == k.trace + StartEvents(s) && k1.core == core && core.length == k.core.length;
    assert core.line == LineOf(k.core.line, s, ty);
    hide Run, Step, IsStart, IsHeader, StartText, StartEvents, Started, Text, Told, Readable, Framed, Persists,
         HandsOver, LeftBehind, SectionEvents, AtMessage, Between, LineOf, Concluded, Trailers, Emitted,
         MessageEvents, IsBody;
    ReadStartLine(env, k, s, Text(hs, body));
    r := MessageFramed(env, k1, hs, body, []);
    assert Text(hs, body) + [] == Text(hs, body);
  }

  lemma EventsToo(trace: seq<Event>, m: Message)
    requires AreHeaders(m.headers) && IsBody(m.body)
    ensures trace + StartEvents(m.start) + Told(m.headers, m.body) == trace + MessageEvents(m)
  {
    hide IsHeader, StartEvents, Told;
  }

  /** One message, from one start state to the next. */
  lemma ReadNext(env: Env, k: Config, m: Message)
    requires Between(env.strict, k) && LeadsOn(env, k.core.line, k.core.length, k.trace, m)
    ensures IsStart(m.start, k.core.line.ty) && AreHeaders(m.headers) && IsBody(m.body)
    ensures var r := Run(env, k, MessageText(m, k.core.line.ty));
            && Between(env.strict, r) && r.trace == k.trace + MessageEvents(m)
            && r.core.line == LineAfter(env, k.core.line, k.trace, m)
            && r.core.length == LeftBehind(k.core.length, m.headers, m.body)
  {
    var ty := k.core.line.ty;
    assert KnownType(k.core.line);
    LeadsOnWritten(env, k.core.line, k.core.length, k.trace, m);
    var now, answer := LineOf(k.core.line, m.start, ty),
        env.answer(k.trace + StartEvents(m.start) + SectionEvents(m.headers));
    hide Run, Step, IsStart, IsHeader, StartEvents, Framed, Readable, Persists, HandsOver, LeftBehind,
         SectionEvents, Between, Upgraded, LineOf, KnownType, MessageText, MessageEvents, Trailers;
    var r := ReadFromStart(env, k, m);
    BetweenWaits(env, r);
    StillKnown(k.core.line, m.start, Upgraded(now, m.headers, answer));
    BetweenAgain(env, k, MessageText(m, ty));
  }

  /**
    Any list of written messages, each of which can be read with the count the one before it leaves over, is
    read as these messages, in order; and content_length is then exactly CountAfter.
  */
  lemma {:induction false} ChainedMessages(env: Env, k: Config, ms: seq<Message>)
    requires Between(env.strict, k) && Chained(env, k.core.line, k.core.length, k.trace, ms)
    ensures var r := Run(env, k, ChainText(env, k.core.line, k.core.length, k.trace, ms));
            && Between(env.strict, r) && r.trace == ChainTrace(env, k.core.line, k.core.length, k.trace, ms)
            && r.core.length == CountAfter(env, k.core.line, k.core.length, k.trace, ms)
    decreases |ms|
  {
    hide Run, Step, LeadsOn, MessageText, MessageEvents, LineAfter, LeftBehind, IsStart, IsHeader, Between;
    if ms == [] {
      StartWaits(env, k);
    } else {
      ReadNext(env, k, ms[0]);
      var text := MessageText(ms[0], k.core.line.ty);
      var r := Run(env, k, text);
      ChainedMessages(env, r, ms[1..]);
      RunSplit(env, k, text, ChainText(env, r.core.line, r.core.length, r.trace, ms[1..]));
    }
  }

  lemma StartWaits(env: Env, k: Config)
    requires Between(env.strict, k)
    ensures Run(env, k, []) == k
  {
    hide Run, Step;
    BetweenWaits(env, k);
  }

  // ---------------------------------------------------------------- a count that survives

  const PutLine: StartLine := RequestStart(PUT, Origin(['/'], Tail(None, None)), HTTP, '1', '1')
  const CodedHeaders: seq<Header> := [Coded(TRANSFER_ENCODING, [Element([], CHUNKED, [])])]

  function CountedHeader(digit: byte): seq<Header> { [Counted(CONTENT_LENGTH, [digit])] }

  lemma AlreadyLower(s: seq<byte>)
    requires forall i :: 0 <= i < |s| ==> 'a' <= s[i] <= 'z' || s[i] == '-'
    ensures LowerAll(s) == s && IsToken(s)
  {
  }

  lemma NamesSpelled()
    ensures LowerAll(TRANSFER_ENCODING) == TRANSFER_ENCODING && IsToken(TRANSFER_ENCODING)
    ensures LowerAll(CONTENT_LENGTH) == CONTENT_LENGTH && IsToken(CONTENT_LENGTH)
    ensures LowerAll(CHUNKED) == CHUNKED && CHUNKED != [] && IsToken(CHUNKED) && IsChunkedToken(CHUNKED)
  {
    hide LowerAll;
    AlreadyLower(TRANSFER_ENCODING);
    AlreadyLower(CONTENT_LENGTH);
    AlreadyLower(CHUNKED);
  }

  lemma OneLine(h: Header)
    requires IsHeader(h) && Fresh(Clean, h)
    ensures Readable(Clean, [h]) && AreHeaders([h])
    ensures LengthDigits([h]) == if h.Counted? then Some(DigitVals(h.digits)) else None
    ensures FinalCoding([h]) == if h.Coded? then Some(LastToken(h.codings)) else None
    ensures !Asks([h], CLOSE) <== !h.Optional?
    ensures !Asks([h], UPGRADE) <== !h.Optional?
    ensures Section([h]) == h.name + [':', ' '] + ValueText(h) + CRLF + CRLF
  {
    var hs := [h];
    assert hs[..0] == [] && hs[0] == h;
    assert Readable(Clean, []) && SeeAll(Clean, []) == Clean;
    assert Printed([]) + Printer.Line(AsKeyValue(h)) == Printer.Line(AsKeyValue(h));
    hide IsHeader, Fresh, LastToken, DigitVals, ValueText, CLOSE, UPGRADE, HasOption, Printer.Line;
  }

  const Put: seq<byte> := "PUT / HTTP/1.1"
  const Strictly: Lenient := Lenient(false, false, false)

  /** A chunked message without data whose trailers hold a Content-Length. */
  const First: seq<byte> :=
    Put + CRLF + (TRANSFER_ENCODING + [':', ' '] + CHUNKED + CRLF + CRLF
                  + (['0'] + CRLF + (CONTENT_LENGTH + [':', ' '] + ['5'] + CRLF + CRLF)))

  const ABC: seq<byte> := "abc"

  /** A message of three bytes. */
  const Second: seq<byte> := Put + CRLF + (CONTENT_LENGTH + [':', ' '] + ['3'] + CRLF + CRLF + ABC)

  lemma OneDigit(base: nat, v: nat, digit: nat)
    ensures Power(base, 1) == base && Denotes(base, [digit]) == digit && Extended(base, v, [digit]) == v * base + digit
  {
    assert Power(base, 0) == 1;
    var digits: seq<nat> := [digit];
    assert digits[1..] == [];
  }

  lemma DigitAlone(digit: byte)
    requires IsDigit(digit)
    ensures AllDigits([digit]) && DigitVals([digit]) == [DigitVal(digit)] && DigitVal(digit) <= 9
  {
    assert [digit][1..] == [];
  }

  lemma IsCountedHeader(digit: byte)
    requires IsDigit(digit)
    ensures IsHeader(Counted(CONTENT_LENGTH, [digit]))
  {
    NamesSpelled();
    DigitAlone(digit);
    hide LowerAll, IsToken, CONTENT_LENGTH, ClassOf, IsList, IsTrimmed, CHUNKED, TRANSFER_ENCODING, IsChunkedToken,
         DigitVal, DigitVals, IsDigit, AllDigits;
  }

  lemma CountedHeaderReads(digit: byte)
    requires IsDigit(digit)
    ensures var h := Counted(CONTENT_LENGTH, [digit]);
            IsHeader(h) && Fresh(Clean, h) && DigitVals(h.digits) == [DigitVal(digit)]
  {
    IsCountedHeader(digit);
    DigitAlone(digit);
    OneDigit(10, 0, DigitVal(digit));
    hide IsHeader, DigitVals, Extended, Denotes, DigitVal, Power, CONTENT_LENGTH;
  }

  lemma CountedLine(digit: byte)
    requires IsDigit(digit)
    ensures var hs := CountedHeader(digit);
            && Readable(Clean, hs) && LengthDigits(hs) == Some([DigitVal(digit)]) && FinalCoding(hs) == None
            && !Asks(hs, CLOSE) && !Asks(hs, UPGRADE) && Announced(hs) == DigitVal(digit)
            && Section(hs) == CONTENT_LENGTH + [':', ' '] + [digit] + CRLF + CRLF
  {
    CountedHeaderReads(digit);
    OneDigit(10, 0, DigitVal(digit));
    hide LowerAll, CONTENT_LENGTH, DigitVals, Readable, LengthDigits, Asks, FinalCoding, Section, Extended, Denotes,
         IsHeader, Fresh, DigitVal, CLOSE, UPGRADE;
    OneLine(Counted(CONTENT_LENGTH, [digit]));
  }

  lemma CodedLine()
    ensures Readable(Clean, CodedHeaders) && LengthDigits(CodedHeaders) == None
    ensures FinalCoding(CodedHeaders) == Some(CHUNKED)
    ensures EndsInChunked(CodedHeaders) && !Asks(CodedHeaders, CLOSE) && !Asks(CodedHeaders, UPGRADE)
    ensures Section(CodedHeaders) == TRANSFER_ENCODING + [':', ' '] + CHUNKED + CRLF + CRLF
  {
    NamesSpelled();
    hide LowerAll, IsChunkedToken, TRANSFER_ENCODING, CHUNKED, Readable, LengthDigits, Asks, FinalCoding, Section;
    var e := Element([], CHUNKED, []);
    assert IsElement(e) && IsList([e]) && LastToken([e]) == CHUNKED && Written([e]) == CHUNKED by {
      assert [] + CHUNKED + [] == CHUNKED;
    }
    hide IsToken;
    OneLine(Coded(TRANSFER_ENCODING, [e]));
  }

  /** The application wants every body. */
  ghost predicate Proceeds(env: Env) { forall trace: seq<Event> :: env.answer(trace) == Proceed }

  lemma PutStart()
    ensures IsStart(PutLine, Request) && StartText(PutLine, Request) == Put + CRLF
    ensures Number(PUT) == 4 && DigitVal('1') == 1
  {
    assert VersionText(HTTP, '1', '1') == "HTTP/1.1";
    assert TargetText(PutLine.target) == ['/'];
    assert "PUT" + [SP] + (['/'] + ([SP] + ("HTTP/1.1" + CRLF))) == Put + CRLF;
  }

  lemma DigitZero()
    ensures IsSize(['0'], 0)
  {
    assert ['0'][1..] == [] && HexVals(['0']) == [0];
    OneDigit(16, 0, 0);
  }

  /** A chunked body without data. */
  function NoData(trailers: seq<Header>): BodyText { Chunks([], ['0'], [], trailers) }

  lemma NoDataCoded(trailers: seq<Header>)
    requires Readable(Clean, trailers)
    ensures AreHeaders(trailers) && IsCoded(NoData(trailers))
    ensures Sent(NoData(trailers)) == ['0'] + CRLF + Section(trailers)
  {
    DigitZero();
    assert AreHeaders(trailers);
    assert Encode([]) == [];
    assert [] + (['0'] + [] + CRLF) + Section(trailers) == ['0'] + CRLF + Section(trailers);
    hide Readable, Section, IsHeader, IsSize;
  }

  /** What a Content-Length among the trailers of a request that stays open leaves behind. */
  lemma NoDataFramed(line: Line, hs: seq<Header>, trailers: seq<Header>)
    requires line.ty.Request? && line.verb != METHOD_CONNECT && line.major > 0 && line.minor > 0
    requires Readable(Clean, hs) && EndsInChunked(hs) && LengthDigits(hs).None? && !Asks(hs, CLOSE)
    requires !Asks(hs, UPGRADE)
    requires Readable(Clean, trailers) && !Asks(trailers, CLOSE)
    ensures AreHeaders(hs) && IsBody(NoData(trailers)) && AreHeaders(hs + trailers)
    ensures Framed(line, 0, hs, Proceed, NoData(trailers)) && !HandsOver(line, hs, Proceed, NoData(trailers))
    ensures Persists(line, hs + trailers, Proceed) && LeftBehind(0, hs, NoData(trailers)) == Announced(trailers)
  {
    assert AreHeaders(hs) && AreHeaders(trailers);
    NoDataCoded(trailers);
    LinesJoined(hs, trailers);
    AsksJoined(hs, trailers, CLOSE);
    hide Asks, IsHeader, Readable, FinalCoding, LengthDigits, IsCoded, Announced, EndsInChunked, CLOSE, UPGRADE;
  }

  function FirstMessage(): Message { Message(PutLine, CodedHeaders, NoData(CountedHeader('5'))) }

  lemma PutRegisters()
    ensures IsStart(PutLine, Request)
    ensures var line := Started(InitialCore(Request, Strictly), PutLine, Request).line;
            line.ty.Request? && line.verb == 4 && line.major == 1 && line.minor == 1 && line.lenient == Strictly
  {
    PutStart();
    hide DigitVal, IsStart;
  }

  /** What the headers and trailers of the first message say. */
  lemma FirstSays(line: Line)
    requires line.ty.Request? && line.verb == 4 && line.major == 1 && line.minor == 1
    ensures var body := NoData(CountedHeader('5'));
            && Readable(Clean, CodedHeaders) && AreHeaders(CodedHeaders) && IsBody(body)
            && AreHeaders(CodedHeaders + Trailers(body)) && Framed(line, 0, CodedHeaders, Proceed, body)
            && !HandsOver(line, CodedHeaders, Proceed, body) && Persists(line, CodedHeaders + Trailers(body), Proceed)
            && LeftBehind(0, CodedHeaders, body) == 5
  {
    hide IsHeader, Readable, FinalCoding, LengthDigits, EndsInChunked, Asks, Framed, CodedHeaders, CountedHeader,
         Persists, LeftBehind, HandsOver, Announced, IsChunkedToken;
    CodedLine();
    CountedLine('5');
    NoDataFramed(line, CodedHeaders, CountedHeader('5'));
    assert DigitVal('5') == 5;
  }

  lemma FirstIsMessage(env: Env)
    requires Proceeds(env)
    ensures IsMessage(env, FirstMessage(), Request, Strictly)
  {
    hide IsHeader, Readable, Framed, NoData, CodedHeaders, CountedHeader, Persists, LeftBehind, HandsOver, Started,
         IsStart, SectionEvents, StartEvents, Trailers, PutLine, InitialCore;
    PutRegisters();
    var line := Started(InitialCore(Request, Strictly), PutLine, Request).line;
    FirstSays(line);
    var m := FirstMessage();
    assert FirstLine(m, Request, Strictly) == line;
  }

  /** The first message is read to its end, and its trailer's count stays in the register. */
  lemma ReadFirst(env: Env, rest: seq<byte>) returns (r: Config)
    requires Proceeds(env)
    ensures Run(env, Initial(Request, Strictly), First + rest) == Run(env, r, rest)
    ensures Ready(r) && r.core.node == L(Start) && r.core.flags == NoFlags && r.core.length == 5
    ensures r.core.line.ty.Request? && r.core.line.lenient == Strictly
    ensures r.trace == FirstTold()
  {
    PutStart();
    PutRegisters();
    FirstText();
    FirstIsMessage(env);
    var m := FirstMessage();
    var line := FirstLine(m, Request, Strictly);
    FirstSays(line);
    assert MessageText(m, Request) == First && AnswerTo(env, m) == Proceed && m.headers == CodedHeaders;
    hide Run, Step, IsMessage, IsHeader, MessageText, MessageEvents, Persists, HandsOver, LeftBehind, AnswerTo,
         FirstLine, Started, Framed, Readable, NoData, CodedHeaders, CountedHeader, Put, First, Text, Section,
         IsStart, StartText;
    r := ReadMessage(env, m, Request, Strictly, rest);
  }

  lemma FirstText()
    ensures AreHeaders(CodedHeaders) && IsBody(NoData(CountedHeader('5')))
    ensures First == Put + CRLF + Text(CodedHeaders, NoData(CountedHeader('5')))
  {
    CodedLine();
    CountedLine('5');
    NoDataCoded(CountedHeader('5'));
    hide Readable, Section, IsHeader, TRANSFER_ENCODING, CONTENT_LENGTH, CHUNKED, Put, CodedHeaders, CountedHeader,
         Sent;
  }

  lemma CountedFrom(v: nat, digit: byte)
    requires IsDigit(digit) && v * 10 + DigitVal(digit) <= MAX_U64
    ensures Readable(Seen(NoFlags, v), CountedHeader(digit))
  {
    hide IsHeader, DigitVals, Extended, Denotes, DigitVal, Power, CONTENT_LENGTH;
    CountedHeaderReads(digit);
    OneDigit(10, v, DigitVal(digit));
    var s, hs := Seen(NoFlags, v), CountedHeader(digit);
    assert hs[..0] == [] && Readable(s, []) && SeeAll(s, []) == s;
  }

  /** The second message is framed by its Content-Length, whatever was left over. */
  lemma SecondCounted(line: Line)
    requires line.ty.Request? && line.verb == 4
    ensures var hs := CountedHeader('3');
            && Readable(Clean, hs) && Readable(Seen(NoFlags, 5), hs) && OnlyCounted(line, hs, Proceed)
            && Announced(hs) == 3 && |LengthDigits(hs).value| == 1
  {
    hide IsHeader, Readable, FinalCoding, LengthDigits, Asks, CountedHeader, Section, Announced, UPGRADE,
         CONTENT_LENGTH;
    CountedLine('3');
    CountedFrom(5, '3');
  }

  /** The start line of a message after any other. */
  function AfterStart(k: Config, s: StartLine): Config
    requires IsStart(s, k.core.line.ty)
  {
    var ty := k.core.line.ty;
    Emitted(k, Started(k.core, s, ty), StartEvents(s), |StartText(s, ty)|)
  }

  lemma ReadNextStart(env: Env, k: Config, s: StartLine, buf: seq<byte>)
    requires Between(env.strict, k) && IsStart(s, k.core.line.ty)
    ensures Run(env, k, StartText(s, k.core.line.ty) + buf) == Run(env, AfterStart(k, s), buf)
    ensures var r := AfterStart(k, s);
            && AtMessage(env.strict, r) && SeenAt(r.core) == Seen(NoFlags, k.core.length)
            && r.core == Started(k.core, s, k.core.line.ty) && r.core.length == k.core.length
            && r.trace == k.trace + StartEvents(s)
  {
    var core, text := Started(k.core, s, k.core.line.ty), StartText(s, k.core.line.ty);
    hide Run, Step, IsStart, StartText, StartEvents, Started, AtMessage, Between, Emitted, Ready;
    BetweenReady(env.strict, k);
    EmittedReady(k, core, StartEvents(s), |text|);
    BetweenStarts(env.strict, k, s, AfterStart(k, s));
    ReadStartLine(env, k, s, buf);
  }

  /** A message framed by Content-Length, from its start line on, after any message. */
  lemma CountedNext(env: Env, k: Config, s: StartLine, hs: seq<Header>, data: seq<byte>)
    requires Between(env.strict, k) && IsStart(s, k.core.line.ty) && Readable(Clean, hs) && |data| == Announced(hs)
    requires OnlyCounted(Started(k.core, s, k.core.line.ty).line, hs,
               env.answer(k.trace + StartEvents(s) + SectionEvents(hs)))
    ensures var r := Run(env, k, StartText(s, k.core.line.ty) + (Section(hs) + data));
            && (k.core.length == 0 ==> r.stop == 0 && r.trace == k.trace + StartEvents(s) + Told(hs, Exactly(data)))
            && (k.core.length > 0 && Readable(Seen(NoFlags, k.core.length), hs) ==>
                  && r.stop == 0 && r.trace == k.trace + StartEvents(s) + SectionEvents(hs) + [HeadersComplete]
                  && r.span == (if data == [] then None else Some(OpenSpan(Http.Body, data)))
                  && r.core.length == k.core.length * Power(10, |LengthDigits(hs).value|))
  {
    assert AreHeaders(hs);
    assert Text(hs, Exactly(data)) == Section(hs) + data;
    hide Run, Step, IsStart, IsHeader, StartText, StartEvents, Started, Readable, SectionEvents, AtMessage, Section,
         Between, Text, Told, OnlyCounted, Announced, LengthDigits, Power, AfterStart;
    ReadNextStart(env, k, s, Section(hs) + data);
    if k.core.length == 0 {
      NoCountLeft(env, AfterStart(k, s), hs, data);
    } else if Readable(Seen(NoFlags, k.core.length), hs) {
      CountLeft(env, AfterStart(k, s), hs, data);
    }
  }

  lemma SecondText()
    ensures IsStart(PutLine, Request) && AreHeaders(CountedHeader('3'))
    ensures StartText(PutLine, Request) + (Section(CountedHeader('3')) + ABC) == Second
  {
    hide StartText, Section, IsStart, IsHeader, Put, CountedHeader, Readable, CONTENT_LENGTH, ABC;
    PutStart();
    CountedLine('3');
    ReadableHeaders(Clean, CountedHeader('3'));
  }

  /** What the application is told of the first message. */
  function FirstTold(): seq<Event> {
    FirstSays(Line(Request, 4, 1, 1, 0, false, Unsafe, Strictly));
    MessageEvents(FirstMessage())
  }

  /** What it is told of the second one up to its body. */
  function SecondBegun(): seq<Event> {
    CountedLine('3');
    StartEvents(PutLine) + SectionEvents(CountedHeader('3')) + [HeadersComplete]
  }

  /** What it is told of the second one in all. */
  function SecondTold(): seq<Event> { SecondBegun() + [Span(Http.Body, ABC), MessageComplete] }

  lemma ToldCounted(before: seq<Event>, hs: seq<Header>, data: seq<byte>)
    requires AreHeaders(hs) && data != []
    ensures before + SectionEvents(hs) + [HeadersComplete] + [Span(Http.Body, data), MessageComplete]
         == before + Told(hs, Exactly(data))
  {
    hide IsHeader, SectionEvents;
  }

  lemma SecondToldIs()
    ensures AreHeaders(CountedHeader('3'))
    ensures SecondTold() == StartEvents(PutLine) + Told(CountedHeader('3'), Exactly(ABC))
  {
    assert ABC != [];
    CountedLine('3');
    hide IsHeader, StartEvents, SectionEvents, CountedHeader, Told, ABC, Readable;
    ToldCounted(StartEvents(PutLine), CountedHeader('3'), ABC);
  }

  /** The second message, whatever count was left over. */
  lemma ReadSecond(env: Env, k: Config)
    requires Proceeds(env) && Between(env.strict, k) && k.core.line.ty.Request?
    requires k.core.length == 0 || k.core.length == 5
    ensures var r := Run(env, k, Second);
            && r.stop == 0
            && (k.core.length == 0 ==> r.trace == k.trace + SecondTold())
            && (k.core.length == 5 ==>
                  r.trace == k.trace + SecondBegun() && r.span == Some(OpenSpan(Http.Body, ABC)) && r.core.length == 50)
  {
    hide Run, Step, IsStart, IsHeader, StartText, StartEvents, Readable, SectionEvents, Section, Between, Told,
         OnlyCounted, Announced, LengthDigits, CountedHeader, Second, SecondTold;
    SecondText();
    SecondToldIs();
    SecondCounted(Started(k.core, PutLine, Request).line);
    OneDigit(10, 0, 0);
    CountedNext(env, k, PutLine, CountedHeader('3'), ABC);
    var hs := CountedHeader('3');
    assert k.trace + StartEvents(PutLine) + SectionEvents(hs) + [HeadersComplete] == k.trace + SecondBegun();
    assert k.trace + StartEvents(PutLine) + Told(hs, Exactly(ABC)) == k.trace + SecondTold();
  }

  lemma AfterFirst(env: Env, k: Config)
    requires Run(env, Initial(Request, Strictly), First) == k && Ready(k) && k.core.node == L(Start)
    requires k.core.flags == NoFlags && k.core.line.ty.Request? && k.core.line.lenient == Strictly
    ensures Between(env.strict, k)
  {
    hide Run, First;
    StartIsClean(env, Request, Strictly, First);
    InitialSound(env, First);
  }

  lemma InitialSound(env: Env, buf: seq<byte>)
    ensures Coherent(env.strict, Run(env, Initial(Request, Strictly), buf).core)
  {
    RunKeeps(env, Initial(Request, Strictly), buf);
    hide Run;
  }

  /**
    Two requests the application wants in full. The trailer's 5 stays in the register, the second request's 3
    is read on after it, and of a body of 53 bytes the parser has 3 and waits for 50 more. Read by a new
    parser, the second request is complete.
  */
  lemma CountSurvives(env: Env)
    requires Proceeds(env)
    ensures var r := Run(env, Initial(Request, Strictly), First + Second);
            && r.stop == 0 && r.trace == FirstTold() + SecondBegun()
            && r.span == Some(OpenSpan(Http.Body, ABC)) && r.core.length == 50
    ensures var alone := Run(env, Initial(Request, Strictly), Second); alone.stop == 0 && alone.trace == SecondTold()
  {
    hide Run, Step, First, Second, Between, FirstTold, SecondBegun, SecondTold;
    var k0 := Initial(Request, Strictly);
    InitialBetween(env.strict);
    ReadSecond(env, k0);
    assert [] + SecondTold() == SecondTold();
    var k := ReadFirst(env, []);
    assert First + [] == First;
    BetweenWaits(env, k);
    AfterFirst(env, k);
    ReadSecond(env, k);
    RunSplit(env, k0, First, Second);
  }

  lemma InitialBetween(strict: bool)
    ensures Between(strict, Initial(Request, Strictly))
  {
  }
}