/**
  Whole messages: from the header lines to the last body byte, by section 3.3.3 of RFC 7230, for requests
  and responses, and the count that each message leaves to the next one.
*/
module Messages {
  import opened Http
  import opened Machine
  import opened Framing
  import opened Numbers
  import opened Automaton
  import opened Semantics
  import opened Invariants
  import opened Lengths
  import opened Bodies
  import opened Fields
  import opened Lists
  import opened Printer
  import opened Headers

  // ---------------------------------------------------------------- what a message says

  const Clean: Seen := Seen(NoFlags, 0)

  predicate AreHeaders(hs: seq<Header>) { forall i :: 0 <= i < |hs| ==> IsHeader(hs[i]) }

  /** The type is fixed, a response has no method, and the lenient flag for lengths is off. */
  predicate KnownType(line: Line) {
    !line.ty.Both? && (line.ty.Response? ==> line.verb != METHOD_CONNECT) && !line.lenient.chunkedLength
  }

  /** Before the first header line; a count may be left over from an earlier message. */
  predicate AtMessage(strict: bool, k: Config) {
    AtField(strict, k) && k.core.flags == NoFlags && KnownType(k.core.line)
  }

  /** The count after the header lines, if it was `v` before them. */
  function Count(v: nat, hs: seq<Header>): nat
    requires AreHeaders(hs)
  {
    if LengthDigits(hs).Some? then Extended(10, v, LengthDigits(hs).value) else v
  }

  predicate Skips(answer: HeadersAnswer) { !answer.Proceed? }

  /** A request upgrades by CONNECT or by both headers, a response by both headers and status 101. */
  predicate Upgrades(line: Line, hs: seq<Header>) {
    var both := NamesProtocol(hs) && Asks(hs, UPGRADE);
    if line.ty.Request? then line.verb == METHOD_CONNECT || both else line.status == 101 && both
  }

  predicate Upgraded(line: Line, hs: seq<Header>, answer: HeadersAnswer) {
    Upgrades(line, hs) || answer.SkipBodyAndUpgrade?
  }

  /** The application skips the body, or there is none before the upgrade. */
  predicate LeavesUnread(line: Line, v: nat, hs: seq<Header>, answer: HeadersAnswer)
    requires AreHeaders(hs)
  {
    || Skips(answer)
    || (Upgrades(line, hs) && (line.verb == METHOD_CONNECT || (!EndsInChunked(hs) && Count(v, hs) == 0)))
  }

  datatype BodyText =
    | Unread
    | Chunks(chunks: seq<Chunk>, zero: seq<byte>, ext: seq<byte>, trailers: seq<Header>)
    | Exactly(data: seq<byte>)
    | Empty

  function Trailers(body: BodyText): seq<Header> { if body.Chunks? then body.trailers else [] }

  /** Chunks, a last chunk and trailers that can be read. */
  predicate IsCoded(body: BodyText) {
    && body.Chunks? && (forall i :: 0 <= i < |body.chunks| ==> IsChunk(body.chunks[i]))
    && IsSize(body.zero, 0) && IsExtension(body.ext) && Readable(Clean, body.trailers)
  }

  /** The body that the header lines announce. */
  predicate Framed(line: Line, v: nat, hs: seq<Header>, answer: HeadersAnswer, body: BodyText)
    requires AreHeaders(hs)
  {
    && !(FinalCoding(hs).Some? && LengthDigits(hs).Some?) && (body.Unread? <==> LeavesUnread(line, v, hs, answer))
    && match body
       case Unread => true
       case Chunks(_, _, _, _) => EndsInChunked(hs) && IsCoded(body)
       case Exactly(data) => FinalCoding(hs).None? && LengthDigits(hs).Some? && Count(v, hs) == |data|
       case Empty =>
         FinalCoding(hs).None? && LengthDigits(hs).None? && (line.ty.Request? || BodilessStatus(line.status))
  }

  /** A header or trailer section as it is sent, and what the application must be told of it. */
  function Section(hs: seq<Header>): seq<byte>
    requires AreHeaders(hs)
  {
    Printed(AsKeyValues(hs)) + CRLF
  }

  function SectionEvents(hs: seq<Header>): seq<Event>
    requires AreHeaders(hs)
  {
    FieldEvents(AsKeyValues(hs))
  }

  function Sent(body: BodyText): seq<byte>
    requires AreHeaders(Trailers(body))
  {
    match body
    case Chunks(chunks, zero, ext, trailers) =>
      Encode(chunks) + (zero + ext + CRLF) + Section(trailers)
    case Exactly(data) => data
    case _ => []
  }

  /** The callbacks at the end of a chunked body. */
  const LastEvents: seq<Event> := [ChunkComplete, MessageComplete]

  /** What the application must be told of the body. */
  function Delivered(body: BodyText): seq<Event>
    requires AreHeaders(Trailers(body))
  {
    match body
    case Chunks(chunks, _, _, trailers) =>
      ChunkEvents(chunks) + [ChunkHeader(0)] + SectionEvents(trailers) + LastEvents
    case Exactly(data) => if data == [] then [MessageComplete] else [Span(Http.Body, data), MessageComplete]
    case _ => [MessageComplete]
  }

  /** The parser stops after the message for another protocol to take over. */
  predicate HandsOver(line: Line, hs: seq<Header>, answer: HeadersAnswer, body: BodyText) {
    Upgraded(line, hs, answer) && !body.Empty?
  }

  /** By its header and trailer lines, a response that ends with its connection. */
  predicate EndsWithConnection(line: Line, lines: seq<Header>, answer: HeadersAnswer)
    requires AreHeaders(lines)
  {
    && line.ty.Response? && !BodilessStatus(line.status) && !Skips(answer)
    && if FinalCoding(lines).Some? then !EndsInChunked(lines) else LengthDigits(lines).None?
  }

  /** Whether the connection stays open after a message with these header and trailer lines. */
  predicate Persists(line: Line, lines: seq<Header>, answer: HeadersAnswer)
    requires AreHeaders(lines)
  {
    || line.lenient.keepAlive
    || ((if line.major > 0 && line.minor > 0 then !Asks(lines, CLOSE) else Asks(lines, KEEP_ALIVE))
        && !EndsWithConnection(line, lines, answer))
  }

  /** The count that is still in the register when the message is over. */
  function LeftBehind(v: nat, hs: seq<Header>, body: BodyText): nat
    requires AreHeaders(hs) && AreHeaders(Trailers(body))
  {
    match body
    case Unread => Count(v, hs)
    case Chunks(_, _, _, trailers) => Announced(trailers)
    case Exactly(_) => 0
    case Empty => v
  }

  // ---------------------------------------------------------------- lines and more lines

  lemma {:induction false} LinesJoined(hs: seq<Header>, more: seq<Header>)
    requires AreHeaders(hs) && AreHeaders(more)
    ensures AreHeaders(hs + more)
    ensures FinalCoding(hs + more) == if FinalCoding(more).Some? then FinalCoding(more) else FinalCoding(hs)
    ensures LengthDigits(hs + more).Some? <==> LengthDigits(hs).Some? || LengthDigits(more).Some?
    ensures NamesProtocol(hs + more) <==> NamesProtocol(hs) || NamesProtocol(more)
    decreases |more|
  {
    hide IsHeader, LastToken, DigitVals;
    if more == [] {
      assert hs + more == hs;
    } else {
      var front, h, all := more[..|more| - 1], more[|more| - 1], hs + more;
      assert all[..|all| - 1] == hs + front && all[|all| - 1] == h;
      LinesJoined(hs, front);
      NamesProtocolLast(more);
      NamesProtocolLast(all);
    }
  }

  lemma {:induction false} AsksJoined(hs: seq<Header>, more: seq<Header>, option: seq<byte>)
    ensures Asks(hs + more, option) <==> Asks(hs, option) || Asks(more, option)
    decreases |more|
  {
    if more == [] {
      assert hs + more == hs;
    } else {
      var front, all := more[..|more| - 1], hs + more;
      assert all[..|all| - 1] == hs + front && all[|all| - 1] == more[|more| - 1];
      AsksJoined(hs, front, option);
      AsksLast(more, option);
      AsksLast(all, option);
      hide Asks, HasOption;
    }
  }

  function Marked(f: Flags, skip: bool, trailing: bool): Flags { f.(skipBody := skip, trailing := trailing) }

  lemma MergedTwice(hs: seq<Header>, more: seq<Header>, skip: bool, trailing: bool)
    requires AreHeaders(hs) && AreHeaders(more)
    ensures AreHeaders(hs + more)
    ensures Merged(Marked(Merged(NoFlags, hs), skip, trailing), more)
              == Marked(Merged(NoFlags, hs + more), skip, trailing)
  {
    LinesJoined(hs, more);
    AsksJoined(hs, more, CLOSE);
    AsksJoined(hs, more, KEEP_ALIVE);
    AsksJoined(hs, more, UPGRADE);
    hide Asks, NamesProtocol, FinalCoding, LengthDigits, IsHeader, IsChunkedToken, CLOSE, KEEP_ALIVE, UPGRADE;
  }

  /** Whether lines can be read depends on what came before only through the Content-Length. */
  lemma {:induction false} ReadableFrom(s: Seen, hs: seq<Header>)
    requires Readable(Clean, hs) && s.length == 0 && !s.flags.contentLength
    ensures Readable(s, hs)
    decreases |hs|
  {
    hide IsHeader, DigitVals, Extended;
    if hs != [] {
      var front := hs[..|hs| - 1];
      ReadableFrom(s, front);
      SeenMeans(s, front);
      SeenMeans(Clean, front);
      hide SeeAll, Readable, Asks, NamesProtocol, FinalCoding, LengthDigits;
    }
  }

  /** The registers when the message is over, and the choice that follows. */
  lemma RestartExactly(k: Core, line: Line, lines: seq<Header>, answer: HeadersAnswer, trailing: bool)
    requires AreHeaders(lines) && k.flags == Marked(Merged(NoFlags, lines), Skips(answer), trailing)
    requires k.line == line.(upgrade := k.line.upgrade) && !line.ty.Both?
    ensures Restart(k).node == if Persists(line, lines, answer) then L(Start) else B(Closed)
  {
    hide Asks, NamesProtocol, FinalCoding, LengthDigits, IsHeader, IsChunkedToken, CLOSE, KEEP_ALIVE, UPGRADE;
  }

  // ---------------------------------------------------------------- the headers

  /** The registers once the application has answered the headers. */
  predicate Accepted(strict: bool, k: Config, line: Line, v: nat, hs: seq<Header>, answer: HeadersAnswer)
    requires AreHeaders(hs)
  {
    && Ready(k) && k.core.node == B(AfterHeadersComplete) && k.core.index == 0 && Coherent(strict, k.core)
    && k.core.line == line.(upgrade := Upgraded(line, hs, answer))
    && k.core.flags == Marked(Merged(NoFlags, hs), Skips(answer), false) && k.core.length == Count(v, hs)
  }

  /** The header section, up to the first decision about the body. */
  lemma ReadSection(env: Env, k: Config, hs: seq<Header>, rest: seq<byte>) returns (r: Config)
    requires AtMessage(env.strict, k) && Readable(SeenAt(k.core), hs)
    ensures var lines := AsKeyValues(hs);
            && Run(env, k, Printed(lines) + CRLF + rest) == Run(env, r, rest)
            && Ready(r) && r.trace == k.trace + FieldEvents(lines) && r.pos == k.pos + |Printed(lines)| + 2
    ensures r.core.node == B(TestFlags) && r.core.index == 0 && Coherent(env.strict, r.core)
    ensures r.core.line == k.core.line
    ensures r.core.flags == Merged(NoFlags, hs) && r.core.length == Count(k.core.length, hs)
  {
    SeenMeans(SeenAt(k.core), hs);
    hide Run, Rank, Step, Printed, FieldEvents, IsHeader, Readable, SeeAll, Merged;
    var lines, tail := AsKeyValues(hs), CRLF + rest;
    assert Printed(lines) + CRLF + rest == Printed(lines) + tail;
    var core := ReadHeaders(env, k, hs, tail);
    var m := Emitted(k, core, FieldEvents(lines), |Printed(lines)|);
    EmptyLine(env, m, rest);
    r := Past(m, To(core, B(TestFlags)), 2);
  }

  lemma UpgradeFlagMeans(k: Core, line: Line, hs: seq<Header>)
    requires AreHeaders(hs) && k.flags == Merged(NoFlags, hs) && k.line == line && !line.ty.Both?
    requires line.ty.Response? ==> line.verb != METHOD_CONNECT
    ensures UpgradeFlag(k) == Upgrades(line, hs)
  {
    hide Asks, NamesProtocol, FinalCoding, LengthDigits, IsHeader, IsChunkedToken;
  }

  lemma HeadersAccepted(env: Env, k: Config, rest: seq<byte>)
    requires Ready(k) && k.core.node == B(TestFlags) && !k.core.flags.trailing
    requires !(k.core.flags.contentLength && k.core.flags.transferEncoding)
    ensures var core := To(k.core.(line := k.core.line.(upgrade := UpgradeFlag(k.core))), B(AfterHeadersComplete));
            Run(env, k, rest) == Run(env, Emitted(k, Answered(core, env.answer(k.trace)), [HeadersComplete], 0), rest)
  {
    hide Run, Rank, LineStep, UrlStep, NameStep, ValueStep, AfterHeaders, UpgradeFlag;
    var core := To(k.core.(line := k.core.line.(upgrade := UpgradeFlag(k.core))), B(OnHeadersComplete));
    Move(env, k, rest, core, false);
    RunOne(env, Past(k, core, 0), rest, AskHeaders(To(core, B(AfterHeadersComplete))));
  }

  lemma AcceptedAfter(strict: bool, k: Core, line: Line, hs: seq<Header>, answer: HeadersAnswer)
    requires AreHeaders(hs) && k.node == B(AfterHeadersComplete) && k.index == 0 && Coherent(strict, k)
    requires k.line == line.(upgrade := Upgrades(line, hs)) && k.flags == Merged(NoFlags, hs)
    ensures var r := Answered(k, answer);
            && r.node == k.node && r.index == 0 && r.length == k.length && Coherent(strict, r)
            && r.line == line.(upgrade := Upgraded(line, hs, answer))
            && r.flags == Marked(Merged(NoFlags, hs), Skips(answer), false)
  {
    hide Asks, NamesProtocol, FinalCoding, LengthDigits, IsHeader, EndsInChunked;
  }

  /** Without both framing headers, the header section is reported and leads to the choice of the framing. */
  lemma ReadHead(env: Env, k: Config, hs: seq<Header>, rest: seq<byte>) returns (r: Config)
    requires AtMessage(env.strict, k) && Readable(SeenAt(k.core), hs)
    requires !(FinalCoding(hs).Some? && LengthDigits(hs).Some?)
    ensures Run(env, k, Section(hs) + rest) == Run(env, r, rest)
    ensures r.trace == k.trace + SectionEvents(hs) + [HeadersComplete] && r.pos == k.pos + |Section(hs)|
    ensures Accepted(env.strict, r, k.core.line, k.core.length, hs, env.answer(k.trace + SectionEvents(hs)))
  {
    assert AreHeaders(hs);
    hide Run, Rank, Step, Printed, FieldEvents, Readable, Asks, NamesProtocol, FinalCoding, LengthDigits,
         AsKeyValues, IsHeader;
    var m := ReadSection(env, k, hs, rest);
    assert !m.core.flags.trailing && !(m.core.flags.contentLength && m.core.flags.transferEncoding);
    HeadersAccepted(env, m, rest);
    UpgradeFlagMeans(m.core, k.core.line, hs);
    var core := To(m.core.(line := m.core.line.(upgrade := UpgradeFlag(m.core))), B(AfterHeadersComplete));
    hide UpgradeFlag, Merged;
    LineCoherent(env.strict, m.core, core);
    AcceptedAfter(env.strict, core, k.core.line, hs, env.answer(m.trace));
    r := Emitted(m, Answered(core, env.answer(m.trace)), [HeadersComplete], 0);
  }

  lemma LineCoherent(strict: bool, k: Core, m: Core)
    requires Coherent(strict, k) && k.index == 0 && m == k.(node := m.node, line := k.line.(upgrade := m.line.upgrade))
    ensures Coherent(strict, m)
  {
  }

  // ---------------------------------------------------------------- the body

  /** What trailers make of the registers of a message without Content-Length. */
  lemma TrailersMean(strict: bool, k: Core, trailers: seq<Header>)
    requires k.length == 0 && !k.flags.contentLength && Readable(Clean, trailers)
    ensures Readable(SeenAt(k), trailers)
    ensures SeeAll(SeenAt(k), trailers) == Seen(Merged(k.flags, trailers), Announced(trailers))
  {
    ReadableFrom(SeenAt(k), trailers);
    SeenMeans(SeenAt(k), trailers);
    hide LengthDigits, IsHeader, Merged, Denotes, SeeAll, Readable;
  }

  lemma EmittedAfter(k: Config, before: Core, core: Core, events: seq<Event>, n: nat)
    ensures Emitted(Past(k, before, 0), core, events, n) == Emitted(k, core, events, n)
  {
  }

  lemma EmittedReady(k: Config, core: Core, events: seq<Event>, n: nat)
    ensures var r := Emitted(k, core, events, n);
            r.core == core && r.trace == k.trace + events && (Ready(k) ==> Ready(r))
  {
  }

  lemma EmittedTwice(k: Config, before: Core, core: Core, events: seq<Event>, n: nat, more: seq<Event>, m: nat)
    ensures Emitted(Emitted(k, before, events, n), core, more, m) == Emitted(k, core, events + more, n + m)
  {
    assert k.trace + events + more == k.trace + (events + more);
  }

  /** Trailer lines and the empty line after them. */
  lemma ReadTrailerLines(env: Env, k: Config, trailers: seq<Header>, rest: seq<byte>) returns (core: Core)
    requires AtField(env.strict, k) && k.core.flags.trailing && Readable(SeenAt(k.core), trailers)
    requires SeeAll(SeenAt(k.core), trailers) == Seen(Merged(k.core.flags, trailers), Announced(trailers))
    ensures core.node == B(IsEqualUpgrade) && core.line == k.core.line && core.length == Announced(trailers)
    ensures core.flags == Merged(k.core.flags, trailers)
    ensures var lines := AsKeyValues(trailers);
            var r := Emitted(k, core, FieldEvents(lines) + LastEvents, |Printed(lines)| + 2);
            Run(env, k, Printed(lines) + CRLF + rest) == Run(env, r, rest)
  {
    hide Run, Rank, Step, Printed, FieldEvents, Readable, IsHeader, SeeAll, Coherent, AsKeyValues, Announced,
         Merged, Emitted, LastEvents;
    ReadableHeaders(SeenAt(k.core), trailers);
    StillTrailing(k.core.flags, trailers);
    var m := ReadTrailerFields(env, k, trailers, CRLF + rest);
    core := To(m, B(IsEqualUpgrade));
    var lines := AsKeyValues(trailers);
    TrailersFollow(env, k, m, FieldEvents(lines), Printed(lines), rest);
  }

  lemma ReadableHeaders(s: Seen, hs: seq<Header>)
    requires Readable(s, hs)
    ensures AreHeaders(hs)
  {
  }

  lemma TrailersFollow(env: Env, k: Config, m: Core, events: seq<Event>, text: seq<byte>, rest: seq<byte>)
    requires Ready(k) && m.node == N(FieldStart) && m.flags.trailing
    ensures text + CRLF + rest == text + (CRLF + rest)
    ensures Run(env, Emitted(k, m, events, |text|), CRLF + rest)
         == Run(env, Emitted(k, To(m, B(IsEqualUpgrade)), events + LastEvents, |text| + 2), rest)
  {
    hide Run, LastEvents;
    TrailersOver(env, Emitted(k, m, events, |text|), rest);
    EmittedTwice(k, m, To(m, B(IsEqualUpgrade)), events, |text|, LastEvents, 2);
  }

  lemma ReadTrailerFields(env: Env, k: Config, trailers: seq<Header>, tail: seq<byte>) returns (core: Core)
    requires AtField(env.strict, k) && Readable(SeenAt(k.core), trailers) && CRLF <= tail
    requires SeeAll(SeenAt(k.core), trailers) == Seen(Merged(k.core.flags, trailers), Announced(trailers))
    ensures core.node == N(FieldStart) && core.line == k.core.line && core.length == Announced(trailers)
    ensures core.flags == Merged(k.core.flags, trailers)
    ensures var lines := AsKeyValues(trailers);
            Run(env, k, Printed(lines) + tail) == Run(env, Emitted(k, core, FieldEvents(lines), |Printed(lines)|), tail)
  {
    assert AreHeaders(trailers);
    hide Run, Rank, Step, Printed, FieldEvents, Readable, IsHeader, SeeAll, AsKeyValues, Announced, Merged,
         Coherent;
    core := ReadHeaders(env, k, trailers, tail);
  }

  /** The trailer section, from the header of the last chunk on. */
  lemma ReadTrailers(env: Env, k: Config, trailers: seq<Header>, rest: seq<byte>) returns (core: Core)
    requires Ready(k) && k.core.node == B(IsEqualContentLength) && k.core.index == 0 && Coherent(env.strict, k.core)
    requires k.core.length == 0 && !k.core.flags.contentLength && Readable(Clean, trailers)
    ensures core.node == B(IsEqualUpgrade) && core.line == k.core.line && core.length == Announced(trailers)
    ensures core.flags == Merged(k.core.flags.(trailing := true), trailers)
    ensures Run(env, k, Section(trailers) + rest)
         == Run(env, Emitted(k, core, SectionEvents(trailers) + LastEvents, |Section(trailers)|), rest)
  {
    hide Run, Rank, Step, Printed, FieldEvents, Readable, IsHeader, SeeAll, Coherent, AsKeyValues, Announced,
         Merged, Emitted, LastEvents;
    ReadableHeaders(Clean, trailers);
    var first := k.core.(flags := k.core.flags.(trailing := true), node := N(FieldStart));
    TrailersMean(env.strict, first, trailers);
    CoherentField(env.strict, k.core, first);
    TrailersBegin(env, k, Section(trailers) + rest);
    core := ReadTrailerLines(env, Past(k, first, 0), trailers, rest);
    EmittedAfter(k, first, core, SectionEvents(trailers) + LastEvents, |Section(trailers)|);
  }

  lemma BeginsUnfolded(rest: seq<byte>)
    ensures Unfolded(CRLF + rest)
  {
  }

  lemma StillTrailing(f: Flags, hs: seq<Header>)
    requires AreHeaders(hs)
    ensures Merged(f, hs).trailing == f.trailing
  {
  }

  lemma TrailersOver(env: Env, k: Config, rest: seq<byte>)
    requires Ready(k) && k.core.node == N(FieldStart) && k.core.flags.trailing
    ensures Run(env, k, CRLF + rest)
         == Run(env, Emitted(k, To(k.core, B(IsEqualUpgrade)), LastEvents, 2), rest)
  {
    hide Run, Rank, Step;
    EmptyLine(env, k, rest);
    TrailersEnd(env, Past(k, To(k.core, B(TestFlags)), 2), rest);
  }

  /** The chunks and the line of the last one. */
  function CodedText(chunks: seq<Chunk>, zero: seq<byte>, ext: seq<byte>): seq<byte> {
    Encode(chunks) + (zero + ext + CRLF)
  }

  function CodedEvents(chunks: seq<Chunk>): seq<Event> { ChunkEvents(chunks) + [ChunkHeader(0)] }

  lemma ReadAllChunks(env: Env, k: Config, chunks: seq<Chunk>, zero: seq<byte>, ext: seq<byte>, rest: seq<byte>)
    requires Ready(k) && k.core.node == B(UpdateContentLength) && k.core.index == 0
    requires forall i :: 0 <= i < |chunks| ==> IsChunk(chunks[i])
    requires IsSize(zero, 0) && IsExtension(ext)
    ensures var core := To(k.core.(length := 0), B(IsEqualContentLength));
            var text := CodedText(chunks, zero, ext);
            Run(env, k, text + rest) == Run(env, Emitted(k, core, CodedEvents(chunks), |text|), rest)
  {
    hide Run, Rank, Step, Encode, ChunkEvents, IsSize, IsExtension, IsChunk, Emitted, Ready;
    var tail, text := zero + ext + CRLF + rest, Encode(chunks);
    assert CodedText(chunks, zero, ext) + rest == text + tail;
    assert |CodedText(chunks, zero, ext)| == |text| + (|zero| + |ext| + 2);
    var before := if chunks == [] then k.core else k.core.(length := 0);
    var core := To(k.core.(length := 0), B(IsEqualContentLength));
    ReadChunks(env, k, chunks, tail);
    EmittedReady(k, before, ChunkEvents(chunks), |text|);
    ReadSizeLine(env, Emitted(k, before, ChunkEvents(chunks), |text|), zero, ext, 0, rest);
    EmittedTwice(k, before, core, ChunkEvents(chunks), |text|, [ChunkHeader(0)], |zero| + |ext| + 2);
  }

  lemma SentJoined(body: BodyText, rest: seq<byte>)
    requires body.Chunks? && AreHeaders(body.trailers)
    ensures var coded := CodedText(body.chunks, body.zero, body.ext);
            var section := Section(body.trailers);
            && Sent(body) + rest == coded + (section + rest) && |Sent(body)| == |coded| + |section|
            && CodedEvents(body.chunks) + (SectionEvents(body.trailers) + LastEvents) == Delivered(body)
  {
    hide Section, SectionEvents, IsHeader, Encode, ChunkEvents;
  }

  /** The state of the parser between the last chunk's line and the trailers. */
  function AtTrailers(k: Config, body: BodyText): Config
    requires IsCoded(body)
  {
    Emitted(k, To(k.core.(length := 0), B(IsEqualContentLength)), CodedEvents(body.chunks),
            |CodedText(body.chunks, body.zero, body.ext)|)
  }

  lemma ReachTrailers(env: Env, k: Config, body: BodyText, rest: seq<byte>)
    requires Ready(k) && k.core.node == B(UpdateContentLength) && k.core.index == 0 && Coherent(env.strict, k.core)
    requires IsCoded(body)
    ensures Run(env, k, Sent(body) + rest) == Run(env, AtTrailers(k, body), Section(body.trailers) + rest)
    ensures Coherent(env.strict, AtTrailers(k, body).core)
  {
    SentJoined(body, rest);
    StillCoherent(env.strict, k.core, AtTrailers(k, body).core);
    hide Run, Rank, Step, Section, SectionEvents, Readable, IsHeader, Coherent, Encode, ChunkEvents, IsSize,
         IsExtension, IsChunk, CodedText, CodedEvents, Sent, Delivered;
    ReadAllChunks(env, k, body.chunks, body.zero, body.ext, Section(body.trailers) + rest);
  }

  /** A chunked body with trailers: what it tells the application, and the registers it leaves. */
  lemma ReadCodedBody(env: Env, k: Config, body: BodyText, rest: seq<byte>) returns (core: Core)
    requires Ready(k) && k.core.node == B(UpdateContentLength) && k.core.index == 0 && Coherent(env.strict, k.core)
    requires !k.core.flags.contentLength && IsCoded(body)
    ensures core.node == B(IsEqualUpgrade) && core.line == k.core.line && core.length == Announced(body.trailers)
    ensures core.flags == Merged(k.core.flags.(trailing := true), body.trailers)
    ensures Run(env, k, Sent(body) + rest) == Run(env, Emitted(k, core, Delivered(body), |Sent(body)|), rest)
  {
    ReachTrailers(env, k, body, rest);
    core := ReadTrailers(env, AtTrailers(k, body), body.trailers, rest);
    CodedBodyEmits(k, body, core);
    hide Run, Rank, Step, Section, SectionEvents, Readable, IsHeader, Coherent, Announced, Merged, Sent, Delivered,
         CodedText, CodedEvents, IsCoded;
  }

  lemma CodedBodyEmits(k: Config, body: BodyText, core: Core)
    requires IsCoded(body)
    ensures Emitted(AtTrailers(k, body), core, SectionEvents(body.trailers) + LastEvents, |Section(body.trailers)|)
         == Emitted(k, core, Delivered(body), |Sent(body)|)
  {
    SentJoined(body, []);
    var coded, more := CodedText(body.chunks, body.zero, body.ext), SectionEvents(body.trailers) + LastEvents;
    EmittedTwice(k, AtTrailers(k, body).core, core, CodedEvents(body.chunks), |coded|, more, |Section(body.trailers)|);
    hide Section, SectionEvents, Sent, Delivered, CodedText, CodedEvents, Emitted, LastEvents;
  }

  lemma StillCoherent(strict: bool, k: Core, m: Core)
    requires Coherent(strict, k) && m.index == 0 && m.line == k.line && m.length == 0
    ensures Coherent(strict, m)
  {
  }

  // ---------------------------------------------------------------- the message

  predicate IsBody(body: BodyText) { AreHeaders(Trailers(body)) }

  lemma FramedIsBody(line: Line, v: nat, hs: seq<Header>, answer: HeadersAnswer, body: BodyText)
    requires AreHeaders(hs) && Framed(line, v, hs, answer, body)
    ensures IsBody(body)
  {
  }

  /**
    The parser after a message: stopped for the upgrade, to go on as Restart says, or ready for the next
    message, or closed; the count is what the message leaves behind.
  */
  predicate Concluded(r: Config, line: Line, v: nat, hs: seq<Header>, answer: HeadersAnswer, body: BodyText)
    requires AreHeaders(hs) && IsBody(body) && AreHeaders(hs + Trailers(body))
  {
    var next := if Persists(line, hs + Trailers(body), answer) then L(Start) else B(Closed);
    && r.span == None && r.core.length == LeftBehind(v, hs, body)
    && if HandsOver(line, hs, answer, body) then
         r.stop == 22 && r.core.node == B(AfterMessageComplete) && Restart(r.core).node == next
       else
         && r.stop == 0 && r.core.node == next && r.core.flags == NoFlags
         && r.core.line == line.(upgrade := Upgraded(line, hs, answer), finish := Safe)
  }

  /** What the registers say, once the headers are accepted. */
  lemma RegistersSay(strict: bool, k: Config, line: Line, v: nat, hs: seq<Header>, answer: HeadersAnswer,
                     body: BodyText)
    requires AreHeaders(hs) && Accepted(strict, k, line, v, hs, answer) && Framed(line, v, hs, answer, body)
    requires KnownType(line)
    ensures k.core.flags.chunked == EndsInChunked(hs) && k.core.flags.transferEncoding == FinalCoding(hs).Some?
    ensures k.core.flags.contentLength == LengthDigits(hs).Some?
    ensures if body.Unread? then
              AfterHeaders(k.core).LeaveProtocol? || (k.core.flags.skipBody && !k.core.line.upgrade)
            else
              WantsBody(k) && k.core.line.upgrade == Upgrades(line, hs) && !Skips(answer)
  {
    hide Asks, NamesProtocol, FinalCoding, LengthDigits, IsHeader, IsChunkedToken, Count, IsCoded, Coherent;
  }

  /** The end of a message whose last byte has been read. */
  lemma Concludes(r: Config, line: Line, v: nat, hs: seq<Header>, answer: HeadersAnswer, body: BodyText, trailing: bool)
    requires AreHeaders(hs) && IsBody(body) && KnownType(line) && Ready(r)
    requires AreHeaders(hs + Trailers(body)) && !body.Empty?
    requires r.core.line == line.(upgrade := Upgraded(line, hs, answer)) && r.core.length == LeftBehind(v, hs, body)
    requires r.core.flags == Marked(Merged(NoFlags, hs + Trailers(body)), Skips(answer), trailing)
    ensures Concluded(Over(r), line, v, hs, answer, body)
  {
    RestartExactly(r.core, line, hs + Trailers(body), answer, trailing);
    RestartBlind(r.core);
    RestartLeaves(r.core);
    hide Restart, Persists, LeftBehind, Upgraded, Merged, Marked, IsHeader;
  }

  lemma RestartLeaves(k: Core)
    ensures Restart(k).length == k.length && Restart(k).flags == NoFlags && Restart(k).line == k.line.(finish := Safe)
  {
  }

  /** The headers are accepted, and this is the body they announce. */
  predicate Expects(strict: bool, k: Config, line: Line, v: nat, hs: seq<Header>, answer: HeadersAnswer, body: BodyText)
    requires AreHeaders(hs)
  {
    KnownType(line) && Accepted(strict, k, line, v, hs, answer) && Framed(line, v, hs, answer, body)
  }

  lemma ReadUnread(env: Env, k: Config, line: Line, v: nat, hs: seq<Header>, answer: HeadersAnswer, body: BodyText,
                   rest: seq<byte>) returns (r: Config)
    requires AreHeaders(hs) && Expects(env.strict, k, line, v, hs, answer, body) && body.Unread?
    ensures Concluded(r, line, v, hs, answer, body) && Run(env, k, Sent(body) + rest) == Run(env, r, rest)
    ensures r.trace == k.trace + Delivered(body) && r.pos == k.pos + |Sent(body)|
  {
    RegistersSay(env.strict, k, line, v, hs, answer, body);
    hide Run, Step, Rank, AfterHeaders, Merged, IsHeader, Concluded, Count;
    assert hs + Trailers(body) == hs && [] + rest == rest;
    LeftUnread(env, k, rest);
    var end := Emitted(k, To(k.core, B(IsEqualUpgrade)), [MessageComplete], 0);
    Concludes(end, line, v, hs, answer, body, false);
    r := Over(end);
  }

  lemma ReadCounted(env: Env, k: Config, line: Line, v: nat, hs: seq<Header>, answer: HeadersAnswer, body: BodyText,
                    rest: seq<byte>) returns (r: Config)
    requires AreHeaders(hs) && Expects(env.strict, k, line, v, hs, answer, body) && body.Exactly?
    ensures Concluded(r, line, v, hs, answer, body) && Run(env, k, Sent(body) + rest) == Run(env, r, rest)
    ensures r.trace == k.trace + Delivered(body) && r.pos == k.pos + |Sent(body)|
  {
    RegistersSay(env.strict, k, line, v, hs, answer, body);
    ChunkedIsCoded(hs);
    hide Run, Step, Rank, AfterHeaders, Merged, IsHeader, Concluded, EndsInChunked;
    assert hs + Trailers(body) == hs;
    FramedByLength(env, k, body.data, rest);
    var end := Emitted(k, To(k.core.(length := 0), B(IsEqualUpgrade)), Delivered(body), |body.data|);
    Concludes(end, line, v, hs, answer, body, false);
    r := Over(end);
  }

  lemma ChunkedIsCoded(hs: seq<Header>)
    requires AreHeaders(hs)
    ensures EndsInChunked(hs) ==> FinalCoding(hs).Some?
  {
  }

  lemma ReadNothing(env: Env, k: Config, line: Line, v: nat, hs: seq<Header>, answer: HeadersAnswer, body: BodyText,
                    rest: seq<byte>) returns (r: Config)
    requires AreHeaders(hs) && Expects(env.strict, k, line, v, hs, answer, body) && body.Empty?
    ensures Concluded(r, line, v, hs, answer, body) && Run(env, k, Sent(body) + rest) == Run(env, r, rest)
    ensures r.trace == k.trace + Delivered(body) && r.pos == k.pos + |Sent(body)|
  {
    RegistersSay(env.strict, k, line, v, hs, answer, body);
    ChunkedIsCoded(hs);
    assert hs + Trailers(body) == hs && [] + rest == rest;
    RestartExactly(k.core, line, hs, answer, false);
    RestartLeaves(k.core);
    hide Run, Step, Rank, AfterHeaders, Merged, IsHeader, EndsInChunked, Restart, Persists, Asks, FinalCoding,
         LengthDigits;
    FramedByNothing(env, k, rest);
    r := Emitted(k, Restart(k.core), [MessageComplete], 0);
  }

  /** The registers where a chunked body begins. */
  lemma ChunksBegin(strict: bool, k: Config, line: Line, v: nat, hs: seq<Header>, answer: HeadersAnswer, body: BodyText)
    requires AreHeaders(hs) && Expects(strict, k, line, v, hs, answer, body) && body.Chunks?
    ensures IsCoded(body) && AreHeaders(hs + body.trailers) && WantsBody(k) && k.core.flags.chunked
    ensures !k.core.flags.contentLength && Coherent(strict, To(k.core, B(UpdateContentLength)))
    ensures Merged(k.core.flags.(trailing := true), body.trailers)
         == Marked(Merged(NoFlags, hs + body.trailers), Skips(answer), true)
  {
    RegistersSay(strict, k, line, v, hs, answer, body);
    ChunkedIsCoded(hs);
    MergedTwice(hs, body.trailers, Skips(answer), true);
    MarkedTrailing(Merged(NoFlags, hs), Skips(answer));
    SizeCoherent(strict, k.core);
    hide AfterHeaders, Merged, IsHeader, EndsInChunked, Asks, FinalCoding, LengthDigits, Announced, Count, Marked,
         Coherent;
  }

  lemma ReadCoded(env: Env, k: Config, line: Line, v: nat, hs: seq<Header>, answer: HeadersAnswer, body: BodyText,
                  rest: seq<byte>) returns (r: Config)
    requires AreHeaders(hs) && Expects(env.strict, k, line, v, hs, answer, body) && body.Chunks?
    ensures AreHeaders(hs + Trailers(body)) && Concluded(r, line, v, hs, answer, body)
    ensures Run(env, k, Sent(body) + rest) == Run(env, r, rest)
    ensures r.trace == k.trace + Delivered(body) && r.pos == k.pos + |Sent(body)|
  {
    ChunksBegin(env.strict, k, line, v, hs, answer, body);
    assert k.core.index == 0 && k.core.line == line.(upgrade := Upgraded(line, hs, answer));
    hide Run, Step, Rank, Merged, IsHeader, Concluded, Sent, Delivered, Announced, Count, Marked, Coherent, IsCoded,
         Expects, Upgraded, Emitted;
    var first := To(k.core, B(UpdateContentLength));
    ToChunks(env, k, Sent(body) + rest);
    var core := ReadCodedBody(env, Past(k, first, 0), body, rest);
    EmittedAfter(k, first, core, Delivered(body), |Sent(body)|);
    r := EndCoded(env, k, line, v, hs, answer, body, core, rest);
  }

  lemma EndCoded(env: Env, k: Config, line: Line, v: nat, hs: seq<Header>, answer: HeadersAnswer, body: BodyText,
      core: Core,
                 rest: seq<byte>) returns (r: Config)
    requires AreHeaders(hs) && IsBody(body) && body.Chunks? && AreHeaders(hs + body.trailers) && KnownType(line)
    requires Ready(k)
    requires core.node == B(IsEqualUpgrade) && core.line == line.(upgrade := Upgraded(line, hs, answer))
    requires core.length == Announced(body.trailers)
    requires core.flags == Marked(Merged(NoFlags, hs + body.trailers), Skips(answer), true)
    ensures Concluded(r, line, v, hs, answer, body)
    ensures Run(env, Emitted(k, core, Delivered(body), |Sent(body)|), rest) == Run(env, r, rest)
    ensures r.trace == k.trace + Delivered(body) && r.pos == k.pos + |Sent(body)|
  {
    hide Run, Step, Rank, Merged, IsHeader, Concluded, Sent, Delivered, Announced, Count, Marked;
    var end := Emitted(k, core, Delivered(body), |Sent(body)|);
    Concludes(end, line, v, hs, answer, body, true);
    MessageEnds(env, end, rest);
    r := Over(end);
  }

  lemma MarkedTrailing(f: Flags, skip: bool)
    ensures Marked(f, skip, false).(trailing := true) == Marked(f, skip, true)
    ensures Marked(f, skip, false).contentLength == f.contentLength
  {
  }

  lemma SizeCoherent(strict: bool, k: Core)
    requires Coherent(strict, k) && k.index == 0
    ensures Coherent(strict, To(k, B(UpdateContentLength)))
  {
  }

  lemma ToChunks(env: Env, k: Config, buf: seq<byte>)
    requires WantsBody(k) && k.core.flags.chunked
    ensures Run(env, k, buf) == Run(env, Past(k, To(k.core, B(UpdateContentLength)), 0), buf)
  {
    hide Run, Rank, LineStep, UrlStep, NameStep, ValueStep;
    Move(env, k, buf, To(k.core, B(UpdateContentLength)), false);
  }

  /** The body states against the framing rules. */
  lemma ReadBody(env: Env, k: Config, line: Line, v: nat, hs: seq<Header>, answer: HeadersAnswer, body: BodyText,
                 rest: seq<byte>) returns (r: Config)
    requires AreHeaders(hs) && Expects(env.strict, k, line, v, hs, answer, body)
    ensures IsBody(body) && AreHeaders(hs + Trailers(body)) && Concluded(r, line, v, hs, answer, body)
    ensures Run(env, k, Sent(body) + rest) == Run(env, r, rest)
    ensures r.trace == k.trace + Delivered(body) && r.pos == k.pos + |Sent(body)|
  {
    hide Run, Concluded, IsHeader, Accepted, Sent, Delivered;
    match body
    case Unread => r := ReadUnread(env, k, line, v, hs, answer, body, rest);
    case Chunks(_, _, _, _) => r := ReadCoded(env, k, line, v, hs, answer, body, rest);
    case Exactly(_) => r := ReadCounted(env, k, line, v, hs, answer, body, rest);
    case Empty => r := ReadNothing(env, k, line, v, hs, answer, body, rest);
  }

  /** The header section and the body, as they are sent. */
  function Text(hs: seq<Header>, body: BodyText): seq<byte>
    requires AreHeaders(hs) && IsBody(body)
  {
    Section(hs) + Sent(body)
  }

  /** What the application must be told of a message after its start line. */
  function Told(hs: seq<Header>, body: BodyText): seq<Event>
    requires AreHeaders(hs) && IsBody(body)
  {
    SectionEvents(hs) + [HeadersComplete] + Delivered(body)
  }

  /**
    Every message, request or response, with any header lines and the body they announce, read with any
    count left over from before: the application is told of the headers, then of exactly the body, then
    that the message is complete; the parser has consumed the message and nothing else, and stands as
    Concluded says. In particular the count it leaves is LeftBehind.
  */
  lemma MessageFramed(env: Env, k: Config, hs: seq<Header>, body: BodyText, rest: seq<byte>) returns (r: Config)
    requires AtMessage(env.strict, k) && Readable(SeenAt(k.core), hs)
    requires Framed(k.core.line, k.core.length, hs, env.answer(k.trace + SectionEvents(hs)), body)
    ensures IsBody(body) && AreHeaders(hs + Trailers(body))
    ensures Run(env, k, Text(hs, body) + rest) == Run(env, r, rest)
    ensures r.trace == k.trace + Told(hs, body) && r.pos == k.pos + |Text(hs, body)|
    ensures Concluded(r, k.core.line, k.core.length, hs, env.answer(k.trace + SectionEvents(hs)), body)
  {
    assert AreHeaders(hs);
    assert KnownType(k.core.line);
    hide Run, Step, IsHeader, Sent, Delivered, Readable, Framed, Concluded, Accepted, Section, SectionEvents,
         KnownType, AtMessage, FinalCoding, LengthDigits, Text, Told;
    var answer := env.answer(k.trace + SectionEvents(hs));
    FramedIsBody(k.core.line, k.core.length, hs, answer, body);
    NotBoth(k.core.line, k.core.length, hs, answer, body);
    TextJoined(hs, body, rest, k.trace);
    var m := ReadHead(env, k, hs, Sent(body) + rest);
    r := ReadBody(env, m, k.core.line, k.core.length, hs, answer, body, rest);
  }

  lemma TextJoined(hs: seq<Header>, body: BodyText, rest: seq<byte>, trace: seq<Event>)
    requires AreHeaders(hs) && IsBody(body)
    ensures Text(hs, body) + rest == Section(hs) + (Sent(body) + rest)
    ensures |Text(hs, body)| == |Section(hs)| + |Sent(body)|
    ensures trace + SectionEvents(hs) + [HeadersComplete] + Delivered(body) == trace + Told(hs, body)
  {
    hide IsHeader, Section, SectionEvents, Sent, Delivered;
  }

  lemma NotBoth(line: Line, v: nat, hs: seq<Header>, answer: HeadersAnswer, body: BodyText)
    requires AreHeaders(hs) && Framed(line, v, hs, answer, body)
    ensures !(FinalCoding(hs).Some? && LengthDigits(hs).Some?)
  {
  }

  /** Once the application has taken over an upgrade, resuming leads to where Concluded says, and keeps the count. */
  lemma UpgradeResumed(env: Env, k: Config, buf: seq<byte>)
    requires k.stop == 22 && k.span == None && k.core.node == B(AfterMessageComplete)
    ensures Run(env, k.(stop := 0), buf) == Run(env, k.(stop := 0, core := Restart(k.core)), buf)
    ensures Restart(k.core).length == k.core.length && Restart(k.core).flags == NoFlags
  {
    RestartLeaves(k.core);
    hide Run, Rank, LineStep, UrlStep, NameStep, ValueStep, Restart;
    Move(env, k.(stop := 0), buf, Restart(k.core), false);
  }

  /**
    CONNECT, or both upgrade headers, and no body before the upgrade: the headers and the end of the message
    are reported, and the parser stops at the last header byte, whatever follows.
  */
  lemma UpgradedRequest(env: Env, k: Config, hs: seq<Header>, rest: seq<byte>)
    requires AtMessage(env.strict, k) && k.core.line.ty.Request? && Readable(SeenAt(k.core), hs)
    requires !(FinalCoding(hs).Some? && LengthDigits(hs).Some?)
    requires k.core.line.verb == METHOD_CONNECT
          || (NamesProtocol(hs) && Asks(hs, UPGRADE) && !EndsInChunked(hs) && Count(k.core.length, hs) == 0)
    ensures var r := Run(env, k, Section(hs) + rest);
            && r.stop == 22 && r.pos == k.pos + |Section(hs)|
            && r.trace == k.trace + SectionEvents(hs) + [HeadersComplete, MessageComplete]
  {
    var answer := env.answer(k.trace + SectionEvents(hs));
    hide Run, Step, IsHeader, Readable, Section, SectionEvents, EndsInChunked, Asks, NamesProtocol, FinalCoding,
         LengthDigits;
    var r := MessageFramed(env, k, hs, Unread, rest);
    assert Text(hs, Unread) == Section(hs);
    RunStopped(env, r, rest);
    assert k.trace + (SectionEvents(hs) + [HeadersComplete] + [MessageComplete])
        == k.trace + SectionEvents(hs) + [HeadersComplete, MessageComplete];
  }

  /** Both framing headers: refused before the application hears that the headers are complete. */
  lemma MessageWithBoth(env: Env, k: Config, hs: seq<Header>, rest: seq<byte>)
    requires AtMessage(env.strict, k) && Readable(SeenAt(k.core), hs) && FinalCoding(hs).Some? && LengthDigits(hs).Some?
    ensures var r := Run(env, k, Section(hs) + rest);
            r.stop == 4 && r.trace == k.trace + SectionEvents(hs)
  {
    assert AreHeaders(hs);
    hide Run, Step, Printed, FieldEvents, Readable, Asks, NamesProtocol, FinalCoding, LengthDigits, AsKeyValues,
         IsHeader;
    var m := ReadSection(env, k, hs, rest);
    assert m.core.flags.contentLength && m.core.flags.transferEncoding && !m.core.flags.trailing;
    RefusedBoth(env, m, rest);
  }

  /** A request with a transfer coding that does not end in chunked is refused before any byte of a body is read. */
  lemma RequestWithOtherCoding(env: Env, k: Config, hs: seq<Header>, rest: seq<byte>)
    requires AtMessage(env.strict, k) && k.core.line.ty.Request? && Readable(SeenAt(k.core), hs)
    requires FinalCoding(hs).Some? && !EndsInChunked(hs) && LengthDigits(hs).None?
    requires !LeavesUnread(k.core.line, k.core.length, hs, env.answer(k.trace + SectionEvents(hs)))
    ensures var r := Run(env, k, Section(hs) + rest);
            && r.stop == 15 && r.trace == k.trace + SectionEvents(hs) + [HeadersComplete]
  {
    assert AreHeaders(hs);
    var answer := env.answer(k.trace + SectionEvents(hs));
    assert k.core.line.ty.Request? && KnownType(k.core.line);
    hide Run, Step, Rank, Section, SectionEvents, Readable, Asks, NamesProtocol, FinalCoding, LengthDigits,
         IsHeader, IsChunkedToken, AtField, Count;
    var m := ReadHead(env, k, hs, rest);
    OtherCodingPlan(env.strict, m, k.core.line, k.core.length, hs, answer);
    RefusedPlan(env, m, rest);
  }

  lemma OtherCodingPlan(strict: bool, k: Config, line: Line, v: nat, hs: seq<Header>, answer: HeadersAnswer)
    requires AreHeaders(hs) && Accepted(strict, k, line, v, hs, answer) && KnownType(line) && line.ty.Request?
    requires FinalCoding(hs).Some? && !EndsInChunked(hs) && !LeavesUnread(line, v, hs, answer)
    ensures AfterHeaders(k.core).BadTransferEncoding?
  {
    hide Asks, NamesProtocol, FinalCoding, LengthDigits, IsHeader, IsChunkedToken, Count, Coherent, AfterHeaders;
    PlanRefused(k.core);
  }

  lemma RefusedPlan(env: Env, k: Config, buf: seq<byte>)
    requires Ready(k) && k.core.node == B(AfterHeadersComplete) && AfterHeaders(k.core).BadTransferEncoding?
    ensures var r := Run(env, k, buf); r.stop == 15 && r.pos == k.pos && r.trace == k.trace
  {
    hide Run, Rank, LineStep, UrlStep, NameStep, ValueStep, AfterHeaders;
    RunOne(env, k, buf, FailAt(k.core, HPE_INVALID_TRANSFER_ENCODING));
  }

  lemma PlanRefused(k: Core)
    requires k.line.ty.Request? && !k.line.lenient.chunkedLength && !k.flags.skipBody
    requires k.flags.transferEncoding && !k.flags.chunked
    requires !(k.line.upgrade && (k.line.verb == METHOD_CONNECT || k.length == 0))
    ensures AfterHeaders(k).BadTransferEncoding?
  {
  }

  /** A response that nothing else frames: every byte after its headers is body, up to the end of the connection. */
  lemma ResponseUntilClose(env: Env, k: Config, hs: seq<Header>, data: seq<byte>)
    requires AtMessage(env.strict, k) && k.core.line.ty.Response? && Readable(SeenAt(k.core), hs) && data != []
    requires !LeavesUnread(k.core.line, k.core.length, hs, env.answer(k.trace + SectionEvents(hs)))
    requires LengthDigits(hs).None? && !EndsInChunked(hs)
    requires FinalCoding(hs).Some? || !BodilessStatus(k.core.line.status)
    ensures var r := Run(env, k, Section(hs) + data);
            && r.stop == 0 && r.trace == k.trace + SectionEvents(hs) + [HeadersComplete]
            && r.span == Some(OpenSpan(Http.Body, data)) && r.core.line.finish == SafeWithCb
  {
    assert AreHeaders(hs);
    hide Run, Step, Printed, FieldEvents, Readable, Asks, NamesProtocol, FinalCoding, LengthDigits, AsKeyValues,
         IsHeader, IsChunkedToken;
    var m := ReadHead(env, k, hs, data);
    PlanUntilEof(m.core);
    hide AfterHeaders;
    FramedByClose(env, m, data);
  }

  lemma PlanUntilEof(k: Core)
    requires k.line.ty.Response? && !k.flags.skipBody && !k.flags.chunked && !k.flags.contentLength
    requires k.flags.transferEncoding || !BodilessStatus(k.line.status)
    requires !(k.line.upgrade && (k.line.verb == METHOD_CONNECT || k.length == 0))
    ensures AfterHeaders(k).UntilEof?
  {
  }

  // ---------------------------------------------------------------- a count left over

  /**
    The first line that cannot be read is a Content-Length whose value, after the count left over, needs more
    than 64 bits.
  */
  lemma OverflowingLine(s: Seen, hs: seq<Header>)
    requires hs != [] && Readable(Clean, hs) && s.flags == NoFlags
    requires Readable(s, hs[..|hs| - 1]) && !Readable(s, hs)
    ensures var h, before := hs[|hs| - 1], SeeAll(s, hs[..|hs| - 1]);
            IsHeader(h) && h.Counted? && !before.flags.contentLength
                && Extended(10, before.length, DigitVals(h.digits)) > MAX_U64
  {
    var front := hs[..|hs| - 1];
    assert Readable(Clean, front);
    SeenMeans(s, front);
    SeenMeans(Clean, front);
    assert SeeAll(s, front).flags == SeeAll(Clean, front).flags;
    hide SeeAll, IsHeader, Asks, NamesProtocol, FinalCoding, LengthDigits, DigitVals, Extended;
  }

  lemma ReadTooLong(env: Env, k: Config, h: Header, rest: seq<byte>)
    requires AtField(env.strict, k) && IsHeader(h) && h.Counted? && Unfolded(rest) && !k.core.flags.contentLength
    requires Extended(10, k.core.length, DigitVals(h.digits)) > MAX_U64
    ensures Run(env, k, Printer.Line(AsKeyValue(h)) + rest).stop == 11
  {
    NamesDiffer();
    hide Run, Rank, Step, LowerAll, Unfolded, ClassOf, DigitVals, Extended, Emitted;
    var digits := h.digits;
    var afterName := [SP] + (digits + CRLF + rest);
    assert Printer.Line(AsKeyValue(h)) + rest == h.name + [':'] + afterName;
    ReadName(env, k, h.name, afterName);
    var core := k.core.(node := V(DiscardWs), hs := ContentLength);
    EmittedReady(k, core, [Span(HeaderField, h.name), HeaderFieldComplete], |h.name| + 1);
    var k1 := Emitted(k, core, [Span(HeaderField, h.name), HeaderFieldComplete], |h.name| + 1);
    SpaceSkipped(env, k1, digits + CRLF + rest);
    ReadContentLength(env, Past(k1, core, 1), digits, rest);
  }

  lemma {:induction false} CountOverflows(env: Env, k: Config, hs: seq<Header>, rest: seq<byte>)
    requires AtField(env.strict, k) && k.core.flags == NoFlags && Unfolded(rest)
    requires Readable(Clean, hs) && !Readable(SeenAt(k.core), hs)
    ensures Run(env, k, Printed(AsKeyValues(hs)) + rest).stop == 11
    decreases |hs|
  {
    assert AreHeaders(hs);
    if hs != [] {
      var front, h := hs[..|hs| - 1], hs[|hs| - 1];
      assert Readable(Clean, front);
      var lines, line := AsKeyValues(front), AsKeyValue(h);
      assert AsKeyValues(hs) == lines + [line] && (lines + [line])[..|lines|] == lines;
      assert Printed(lines + [line]) + rest == Printed(lines) + (Printer.Line(line) + rest);
      HeaderUnfolds(h, rest);
      if Readable(SeenAt(k.core), front) {
        OverflowingLine(SeenAt(k.core), hs);
        hide Run, Step, Printed, FieldEvents, Readable, IsHeader, SeeAll, Coherent, Printer.Line, DigitVals,
             Extended, Unfolded;
        var core := ReadHeaders(env, k, front, Printer.Line(line) + rest);
        ReadTooLong(env, Emitted(k, core, FieldEvents(lines), |Printed(lines)|), h, rest);
      } else {
        hide Run, Step, Printed, FieldEvents, Readable, IsHeader, SeeAll, Coherent, Printer.Line, AtField, Unfolded;
        CountOverflows(env, k, front, Printer.Line(line) + rest);
      }
    }
  }

  /** A message framed by Content-Length alone. */
  predicate OnlyCounted(line: Line, hs: seq<Header>, answer: HeadersAnswer)
    requires AreHeaders(hs)
  {
    FinalCoding(hs).None? && LengthDigits(hs).Some? && answer.Proceed? && !Upgrades(line, hs)
  }

  lemma NoCountLeft(env: Env, k: Config, hs: seq<Header>, data: seq<byte>)
    requires AtMessage(env.strict, k) && Readable(Clean, hs)
    requires OnlyCounted(k.core.line, hs, env.answer(k.trace + SectionEvents(hs)))
    requires k.core.length == 0 && |data| == Announced(hs)
    ensures var r := Run(env, k, Text(hs, Exactly(data)));
            r.stop == 0 && r.trace == k.trace + Told(hs, Exactly(data)) && r.core.length == 0
  {
    assert SeenAt(k.core) == Clean && AreHeaders(hs);
    assert Count(0, hs) == Announced(hs);
    hide Run, IsHeader, Section, SectionEvents, Readable, FinalCoding, LengthDigits, Asks, NamesProtocol, Told,
         Announced, Step;
    var r := MessageFramed(env, k, hs, Exactly(data), []);
    assert Text(hs, Exactly(data)) + [] == Text(hs, Exactly(data));
    BetweenWaits(env, r);
  }

  lemma BetweenWaits(env: Env, k: Config)
    requires k.stop == 0 && (k.core.node == L(Start) || k.core.node == B(Closed))
    ensures Run(env, k, []) == k
  {
    RunWaits(env, k, []);
  }

  lemma ExtendedMore(v: nat, digits: seq<nat>)
    ensures Extended(10, v, digits) == v * Power(10, |digits|) + Denotes(10, digits)
    ensures v > 0 ==> v * Power(10, |digits|) > 0
  {
    PowerPositive(10, |digits|);
    if v > 0 { assert v * Power(10, |digits|) >= 1 * 1; }
  }

  /** The announced bytes do not end a message whose count is greater. */
  lemma StillOwed(env: Env, k: Config, line: Line, v: nat, hs: seq<Header>, data: seq<byte>)
    requires AreHeaders(hs) && KnownType(line) && OnlyCounted(line, hs, Proceed)
    requires Accepted(env.strict, k, line, v, hs, Proceed) && Count(v, hs) > |data|
    ensures var r := Run(env, k, data);
            && r.stop == 0 && r.trace == k.trace && r.core.length == Count(v, hs) - |data|
            && r.span == if data == [] then None else Some(OpenSpan(Http.Body, data))
  {
    ChunkedIsCoded(hs);
    var whole: seq<byte> := seq(Count(v, hs), i => 'A');
    hide IsHeader, FinalCoding, LengthDigits, Asks, NamesProtocol, Count, EndsInChunked, IsCoded, Coherent,
         AfterHeaders;
    RegistersSay(env.strict, k, line, v, hs, Proceed, Exactly(whole));
    hide Run, Step, Merged;
    LengthNotReached(env, k, data);
  }

  /** A count left over joins the front of the announced length, and the message is not over at its last byte. */
  lemma CountLeft(env: Env, k: Config, hs: seq<Header>, data: seq<byte>)
    requires AtMessage(env.strict, k) && Readable(Clean, hs)
    requires OnlyCounted(k.core.line, hs, env.answer(k.trace + SectionEvents(hs)))
    requires k.core.length > 0 && |data| == Announced(hs) && Readable(SeenAt(k.core), hs)
    ensures var r := Run(env, k, Section(hs) + data);
            && r.stop == 0 && r.trace == k.trace + SectionEvents(hs) + [HeadersComplete]
            && r.span == (if data == [] then None else Some(OpenSpan(Http.Body, data)))
            && r.core.length == k.core.length * Power(10, |LengthDigits(hs).value|) > 0
  {
    assert AreHeaders(hs);
    ExtendedMore(k.core.length, LengthDigits(hs).value);
    assert Count(k.core.length, hs) - |data| == k.core.length * Power(10, |LengthDigits(hs).value|) > 0;
    hide Run, IsHeader, Section, SectionEvents, Readable, FinalCoding, LengthDigits, Announced, Step, Power, Count,
         Accepted, AtField, Upgrades;
    var m := ReadHead(env, k, hs, data);
    StillOwed(env, m, k.core.line, k.core.length, hs, data);
  }

  lemma TextParts(hs: seq<Header>, data: seq<byte>, trace: seq<Event>)
    requires AreHeaders(hs)
    ensures Text(hs, Exactly(data)) == Section(hs) + data
    ensures Section(hs) + data == Printed(AsKeyValues(hs)) + (CRLF + data)
    ensures trace + Told(hs, Exactly(data)) != trace + SectionEvents(hs) + [HeadersComplete]
  {
    hide IsHeader, Printed, AsKeyValues, SectionEvents;
    assert |trace + Told(hs, Exactly(data))| > |trace + SectionEvents(hs) + [HeadersComplete]|;
  }

  /**
    What a count left over does to a message framed by Content-Length: read with exactly the announced
    bytes, the message is complete after the last of them if and only if nothing was left over. Otherwise the
    digits are read on after the old count: the value overflows, or more bytes are still owed.
  */
  lemma StaleCount(env: Env, k: Config, hs: seq<Header>, data: seq<byte>)
    requires AtMessage(env.strict, k) && Readable(Clean, hs)
    requires OnlyCounted(k.core.line, hs, env.answer(k.trace + SectionEvents(hs)))
    requires |data| == Announced(hs)
    ensures var r := Run(env, k, Text(hs, Exactly(data)));
            && (k.core.length == 0 <==> r.stop == 0 && r.trace == k.trace + Told(hs, Exactly(data)))
            && (k.core.length > 0 ==>
                  || r.stop == 11
                  || (r.stop == 0 && r.trace == k.trace + SectionEvents(hs) + [HeadersComplete]
                      && r.core.length == k.core.length * Power(10, |LengthDigits(hs).value|) > 0))
  {
    assert AreHeaders(hs);
    TextParts(hs, data, k.trace);
    BeginsUnfolded(data);
    hide Run, IsHeader, Section, SectionEvents, Readable, FinalCoding, LengthDigits, Announced, Step, Power, Text,
         Told, AsKeyValues, Printed, AtField, Unfolded, OnlyCounted;
    if k.core.length == 0 {
      NoCountLeft(env, k, hs, data);
    } else if Readable(SeenAt(k.core), hs) {
      CountLeft(env, k, hs, data);
    } else {
      CountOverflows(env, k, hs, CRLF + data);
    }
  }

  /**
    What a count left over does to an upgrade: a request without a body that asks for one is handed over if and
    only if nothing was left over.
  */
  lemma StaleUpgrade(env: Env, k: Config, hs: seq<Header>)
    requires AtMessage(env.strict, k) && k.core.line.ty.Request? && k.core.line.verb != METHOD_CONNECT
    requires Readable(Clean, hs)
    requires FinalCoding(hs).None? && LengthDigits(hs).None? && NamesProtocol(hs) && Asks(hs, UPGRADE)
    requires env.answer(k.trace + SectionEvents(hs)).Proceed?
    ensures Run(env, k, Section(hs)).stop == 22 <==> k.core.length == 0
    ensures Run(env, k, Section(hs)).trace == k.trace + SectionEvents(hs) + [HeadersComplete, MessageComplete]
  {
    ReadableWithoutLength(SeenAt(k.core), hs);
    ChunkedIsCoded(hs);
    hide Run, Step, IsHeader, Readable, Section, SectionEvents, EndsInChunked, Asks, NamesProtocol, FinalCoding,
         LengthDigits, AtField;
    if k.core.length == 0 {
      UpgradedRequest(env, k, hs, []);
      assert Section(hs) + [] == Section(hs);
    } else {
      UpgradePassedBy(env, k, hs);
    }
  }

  /** With a count left over, a request for an upgrade without a body is a message like any other. */
  lemma UpgradePassedBy(env: Env, k: Config, hs: seq<Header>)
    requires AtMessage(env.strict, k) && k.core.line.ty.Request? && k.core.line.verb != METHOD_CONNECT
    requires Readable(SeenAt(k.core), hs) && FinalCoding(hs).None? && LengthDigits(hs).None? && k.core.length > 0
    requires env.answer(k.trace + SectionEvents(hs)).Proceed?
    ensures var r := Run(env, k, Section(hs));
            r.stop == 0 && r.trace == k.trace + SectionEvents(hs) + [HeadersComplete, MessageComplete]
  {
    ChunkedIsCoded(hs);
    hide Run, Step, IsHeader, Readable, Section, SectionEvents, EndsInChunked, Asks, NamesProtocol, FinalCoding,
         LengthDigits, AtField, Persists;
    var r := MessageFramed(env, k, hs, Empty, []);
    assert Text(hs, Empty) + [] == Section(hs);
    BetweenWaits(env, r);
    assert k.trace + (SectionEvents(hs) + [HeadersComplete] + [MessageComplete])
        == k.trace + SectionEvents(hs) + [HeadersComplete, MessageComplete];
  }

  lemma {:induction false} ReadableWithoutLength(s: Seen, hs: seq<Header>)
    requires Readable(Clean, hs) && LengthDigits(hs).None?
    ensures Readable(s, hs)
    decreases |hs|
  {
    if hs != [] { ReadableWithoutLength(s, hs[..|hs| - 1]); }
  }
}
