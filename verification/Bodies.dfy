/**
  Message bodies: section 3.3.3 of RFC 7230 on a request's framing, and the chunked coding of its
  section 4.1, against the body states of the automaton.
*/
module Bodies {
  import opened Http
  import opened Machine
  import opened Framing
  import opened Numbers
  import opened Automaton
  import opened Semantics
  import opened Lengths

  const CRLF: seq<byte> := ['\r', '\n']

  /** `k` after `n` bytes and some events, outside any span. */
  function Emitted(k: Config, core: Core, events: seq<Event>, n: nat): Config {
    k.(core := core, trace := k.trace + events, pos := k.pos + n)
  }

  /** `k` after `n` bytes and no event. */
  function Past(k: Config, core: Core, n: nat): Config {
    k.(core := core, pos := k.pos + n)
  }

  predicate Ready(k: Config) { k.stop == 0 && k.span == None }

  /** A transition that only moves, outside any span. */
  lemma Move(env: Env, k: Config, buf: seq<byte>, next: Core, take: bool)
    requires Ready(k) && Step(env.strict, k.core, Head(buf)) == Go(next, take)
    ensures take ==> buf != []
    ensures Run(env, k, buf) == Run(env, Past(k, next, if take then 1 else 0), if take then buf[1..] else buf)
  {
    hide Step;
    RunOne(env, k, buf, Go(next, take));
  }

  lemma Notified(env: Env, k: Config, buf: seq<byte>, event: Event, next: Core, fault: Option<nat>)
    requires Ready(k) && Step(env.strict, k.core, Head(buf)) == Notify(event, next, fault)
    ensures Run(env, k, buf) == Run(env, Emitted(k, next, [event], 0), buf)
  {
    hide Step;
    RunOne(env, k, buf, Notify(event, next, fault));
  }

  /**
    A body span of known length: opened at the first byte, closed after the last, whatever follows.
  */
  lemma ReadSpan(env: Env, k: Config, data: seq<byte>, rest: seq<byte>, done: BodyNode)
    requires Ready(k) && data != [] && k.core.length == |data|
    requires (k.core.node == B(SpanStartChunk) && done == ChunkDataAlmostDone)
          || (k.core.node == B(SpanStartIdentity) && done == OnMessageComplete2)
    ensures Run(env, k, data + rest)
         == Run(env, Emitted(k, To(k.core.(length := 0), B(done)), [Span(Http.Body, data)], |data|), rest)
  {
    hide Run, Rank, Step;
    var buf, n := data + rest, |data|;
    var consume := if done == ChunkDataAlmostDone then B(ConsumeChunk) else B(ConsumeIdentity);
    var k1 := k.(core := To(k.core, consume), span := Some(OpenSpan(Http.Body, [])));
    SpanStarts(env.strict, k.core, buf);
    RunOne(env, k, buf, Open(Http.Body, k1.core));
    ConsumeGlide(env, k1, buf, n);
    var core2 := k1.core.(length := 0);
    assert buf[..n] == data;
    assert buf[n..] == rest;
    assert [] + data == data;
    var k2 := Moved(k1, core2, data);
    SpanEnds(env.strict, core2, rest);
    assert Closing(k2).(core := To(core2, B(done)))
        == Emitted(k, To(k.core.(length := 0), B(done)), [Span(Http.Body, data)], n);
    RunOne(env, k2, rest, Close(To(core2, B(done)), false));
  }

  lemma SpanStarts(strict: bool, k: Core, buf: seq<byte>)
    requires buf != [] && (k.node == B(SpanStartChunk) || k.node == B(SpanStartIdentity))
    ensures Step(strict, k, Head(buf))
         == Open(Http.Body, To(k, if k.node == B(SpanStartChunk) then B(ConsumeChunk) else B(ConsumeIdentity)))
  {
  }

  lemma SpanEnds(strict: bool, k: Core, buf: seq<byte>)
    requires k.length == 0 && Consuming(k.node)
    ensures Step(strict, k, Head(buf))
         == Close(To(k, if k.node == B(ConsumeChunk) then B(ChunkDataAlmostDone) else B(OnMessageComplete2)), false)
  {
  }

  // ---------------------------------------------------------------- the chunked coding

  /** A chunk as it is written: its size in hexadecimal, an extension, and its data. */
  datatype Chunk = Chunk(size: seq<byte>, ext: seq<byte>, data: seq<byte>)

  predicate IsSize(size: seq<byte>, n: nat) {
    size != [] && AllHex(size) && n <= MAX_U64 && Denotes(16, HexVals(size)) == n
  }

  /** Nothing, or a space or semicolon and then anything without a CR. */
  predicate IsExtension(ext: seq<byte>) {
    ext == [] || ((ext[0] == SP || ext[0] == ';') && CR !in ext)
  }

  predicate IsChunk(c: Chunk) { IsSize(c.size, |c.data|) && c.data != [] && IsExtension(c.ext) }

  function Encode(chunks: seq<Chunk>): seq<byte> {
    if chunks == [] then [] else
    var c := chunks[0];
    c.size + c.ext + CRLF + c.data + CRLF + Encode(chunks[1..])
  }

  /** The callbacks a list of chunks must produce. */
  function ChunkEvents(chunks: seq<Chunk>): seq<Event> {
    if chunks == [] then [] else
    [ChunkHeader(|chunks[0].data|), Span(Http.Body, chunks[0].data), ChunkComplete] + ChunkEvents(chunks[1..])
  }

  lemma SkipParameters(env: Env, k: Config, ext: seq<byte>, rest: seq<byte>)
    requires Ready(k) && k.core.node == B(ChunkParameters) && CR !in ext
    ensures Run(env, k, ext + rest) == Run(env, Past(k, k.core, |ext|), rest)
  {
    var cores := (i: nat) => k.core;
    forall i | 0 <= i < |ext| ensures Step(env.strict, cores(i), Some(ext[i])) == Go(cores(i + 1), true) {
      assert ext[i] in ext;
    }
    hide Step;
    RunGlide(env, k, cores, ext, rest);
    assert k.trace + [] == k.trace;
  }

  /** From the last size digit to the CR. */
  lemma EndOfSize(env: Env, k: Config, ext: seq<byte>, rest: seq<byte>)
    requires Ready(k) && k.core.node == B(ChunkSize) && IsExtension(ext)
    ensures Run(env, k, ext + [CR] + rest)
         == Run(env, Past(k, To(k.core, B(ChunkSizeAlmostDone)), |ext| + 1), rest)
  {
    hide Run, Rank, LineStep, UrlStep, NameStep, ValueStep, MulAdd, AfterHeaders;
    var buf := ext + [CR] + rest;
    var k1 := Past(k, To(k.core, B(ChunkSizeOtherwise)), 0);
    assert Step(env.strict, k.core, Head(buf)) == Go(k1.core, false);
    Move(env, k, buf, k1.core, false);
    if ext == [] {
      assert Step(env.strict, k1.core, Head(buf)) == Go(To(k.core, B(ChunkSizeAlmostDone)), true);
      Move(env, k1, buf, To(k.core, B(ChunkSizeAlmostDone)), true);
      assert buf[1..] == rest;
    } else {
      var k2 := Past(k1, To(k.core, B(ChunkParameters)), 1);
      assert Step(env.strict, k1.core, Head(buf)) == Go(k2.core, true);
      Move(env, k1, buf, k2.core, true);
      var more := [CR] + rest;
      assert buf[1..] == ext[1..] + more;
      SkipParameters(env, k2, ext[1..], more);
      var k3 := Past(k2, k2.core, |ext| - 1);
      assert Step(env.strict, k3.core, Head(more)) == Go(To(k.core, B(ChunkSizeAlmostDone)), true);
      Move(env, k3, more, To(k.core, B(ChunkSizeAlmostDone)), true);
      assert more[1..] == rest;
    }
  }

  /** The digits of a size line. */
  lemma ReadSizeDigits(env: Env, k: Config, size: seq<byte>, n: nat, more: seq<byte>)
    requires Ready(k) && k.core.node == B(UpdateContentLength) && IsSize(size, n)
    ensures Run(env, k, size + more) == Run(env, Past(k, To(k.core.(length := n), B(ChunkSize)), |size|), more)
  {
    hide Run, Rank, LineStep, UrlStep, NameStep, ValueStep, MulAdd, AfterHeaders, HexVals;
    var k1 := Past(k, To(k.core.(length := 0), B(ChunkSizeDigit)), 0);
    assert Step(env.strict, k.core, Head(size + more)) == Go(k1.core, false);
    hide Step;
    Move(env, k, size + more, k1.core, false);
    assert Extended(16, 0, HexVals(size)) == n;
    ReadSize(env, k1, size, more);
    assert Moved(k1, To(k1.core.(length := n), B(ChunkSize)), size)
        == Past(k, To(k.core.(length := n), B(ChunkSize)), |size|);
  }

  lemma SizeLineEnds(env: Env, k: Config, rest: seq<byte>)
    requires Ready(k) && k.core.node == B(ChunkSizeAlmostDone)
    ensures var end := Emitted(k, To(k.core, B(IsEqualContentLength)), [ChunkHeader(k.core.length)], 1);
            Run(env, k, [LF] + rest) == Run(env, end, rest)
  {
    hide Run, Rank, LineStep, UrlStep, NameStep, ValueStep, MulAdd, AfterHeaders;
    var buf := [LF] + rest;
    assert buf[1..] == rest;
    Move(env, k, buf, To(k.core, B(OnChunkHeader)), true);
    var k1 := Past(k, To(k.core, B(OnChunkHeader)), 1);
    Notified(env, k1, rest, ChunkHeader(k.core.length), To(k.core, B(IsEqualContentLength)), Some(HPE_CB_CHUNK_HEADER));
  }

  /** The line that starts a chunk: one chunk-header event with the announced size. */
  lemma ReadSizeLine(env: Env, k: Config, size: seq<byte>, ext: seq<byte>, n: nat, rest: seq<byte>)
    requires Ready(k) && k.core.node == B(UpdateContentLength) && IsSize(size, n) && IsExtension(ext)
    ensures Run(env, k, size + ext + CRLF + rest)
         == Run(env, Emitted(k, To(k.core.(length := n), B(IsEqualContentLength)), [ChunkHeader(n)],
                             |size| + |ext| + 2), rest)
  {
    hide Run, Rank, Step, IsSize, IsExtension;
    var more := ext + [CR] + ([LF] + rest);
    assert size + ext + CRLF + rest == size + more;
    ReadSizeDigits(env, k, size, n, more);
    var core := k.core.(length := n);
    var k1 := Past(k, To(core, B(ChunkSize)), |size|);
    EndOfSize(env, k1, ext, [LF] + rest);
    SizeLineEnds(env, Past(k1, To(core, B(ChunkSizeAlmostDone)), |ext| + 1), rest);
  }

  /** The data of a chunk and the line end after it. */
  lemma ReadChunkData(env: Env, k: Config, data: seq<byte>, rest: seq<byte>)
    requires Ready(k) && k.core.node == B(IsEqualContentLength) && data != [] && k.core.length == |data|
    requires k.core.index == 0
    ensures var end := To(k.core.(length := 0), B(UpdateContentLength));
            Run(env, k, data + CRLF + rest)
              == Run(env, Emitted(k, end, [Span(Http.Body, data), ChunkComplete], |data| + 2), rest)
  {
    hide Run, Rank, LineStep, UrlStep, NameStep, ValueStep, MulAdd, AfterHeaders;
    var buf := data + (CRLF + rest);
    assert data + CRLF + rest == buf;
    var k1 := Past(k, To(k.core, B(SpanStartChunk)), 0);
    assert Step(env.strict, k.core, Head(buf)) == Go(k1.core, false);
    hide Step;
    Move(env, k, buf, k1.core, false);
    ReadSpan(env, k1, data, CRLF + rest, ChunkDataAlmostDone);
    var core := k.core.(length := 0);
    ChunkEnds(env, Emitted(k1, To(core, B(ChunkDataAlmostDone)), [Span(Http.Body, data)], |data|), rest);
    assert k.trace + [Span(Http.Body, data)] + [ChunkComplete] == k.trace + [Span(Http.Body, data), ChunkComplete];
  }

  lemma ChunkEnds(env: Env, k: Config, rest: seq<byte>)
    requires Ready(k) && k.core.node == B(ChunkDataAlmostDone) && k.core.index == 0
    ensures Run(env, k, CRLF + rest)
         == Run(env, Emitted(k, To(k.core, B(UpdateContentLength)), [ChunkComplete], 2), rest)
  {
    hide Run, Rank, LineStep, UrlStep, NameStep, ValueStep, MulAdd, AfterHeaders;
    ReadLineEnd(env, k, rest);
    var k1 := Past(k, To(k.core, B(OnChunkComplete)), 2);
    Notified(env, k1, rest, ChunkComplete, To(k.core, B(UpdateContentLength)), Some(HPE_CB_CHUNK_COMPLETE));
  }

  lemma ReadLineEnd(env: Env, k: Config, rest: seq<byte>)
    requires Ready(k) && k.core.node == B(ChunkDataAlmostDone) && k.core.index == 0
    ensures Run(env, k, CRLF + rest) == Run(env, Past(k, To(k.core, B(OnChunkComplete)), 2), rest)
  {
    hide Run, Rank, LineStep, UrlStep, NameStep, ValueStep, MulAdd, AfterHeaders;
    var buf := CRLF + rest;
    var next := if env.strict then k.core.(index := 1) else To(k.core, B(ChunkDataAlmostDoneSkip));
    assert Step(env.strict, k.core, Head(buf)) == Go(next, true);
    Move(env, k, buf, next, true);
    assert buf[1..] == [LF] + rest && ([LF] + rest)[1..] == rest;
    assert Step(env.strict, next, Head([LF] + rest)) == Go(To(k.core, B(OnChunkComplete)), true);
    Move(env, Past(k, next, 1), [LF] + rest, To(k.core, B(OnChunkComplete)), true);
  }

  lemma EncodeFirst(chunks: seq<Chunk>, rest: seq<byte>)
    requires chunks != []
    ensures var c := chunks[0];
            && Encode(chunks) + rest == c.size + c.ext + CRLF + (c.data + CRLF + (Encode(chunks[1..]) + rest))
            && |Encode(chunks)| == |c.size| + |c.ext| + 2 + |c.data| + 2 + |Encode(chunks[1..])|
  {
    var c := chunks[0];
    var line, data, others := c.size + c.ext + CRLF, c.data + CRLF, Encode(chunks[1..]);
    assert Encode(chunks) == line + c.data + CRLF + others;
    assert line + c.data + CRLF == line + data;
    Joined(line, data, others, rest);
  }

  /**
    Every list of chunks, with any sizes spelling their lengths and any extensions, is read back as
    exactly these chunks.
  */
  lemma {:induction false} ReadChunks(env: Env, k: Config, chunks: seq<Chunk>, rest: seq<byte>)
    requires Ready(k) && k.core.node == B(UpdateContentLength) && k.core.index == 0
    requires forall i :: 0 <= i < |chunks| ==> IsChunk(chunks[i])
    ensures Run(env, k, Encode(chunks) + rest)
         == Run(env, Emitted(k, if chunks == [] then k.core else k.core.(length := 0), ChunkEvents(chunks),
                             |Encode(chunks)|), rest)
    decreases |chunks|
  {
    hide Run, Rank, Step;
    if chunks == [] {
      assert Encode(chunks) + rest == rest && k.trace + [] == k.trace;
    } else {
      var c, others := chunks[0], chunks[1..];
      var tail := Encode(others) + rest;
      var body := c.data + CRLF + tail;
      EncodeFirst(chunks, rest);
      assert ChunkEvents(chunks) == [ChunkHeader(|c.data|), Span(Http.Body, c.data), ChunkComplete]
          + ChunkEvents(others);
      hide Encode, ChunkEvents;
      ReadSizeLine(env, k, c.size, c.ext, |c.data|, body);
      var k1 := Emitted(k, To(k.core.(length := |c.data|), B(IsEqualContentLength)), [ChunkHeader(|c.data|)],
                        |c.size| + |c.ext| + 2);
      ReadChunkData(env, k1, c.data, tail);
      var k2 := Emitted(k1, k.core.(length := 0), [Span(Http.Body, c.data), ChunkComplete], |c.data| + 2);
      ReadChunks(env, k2, others, rest);
      EventsJoined(k.trace, c.data, ChunkEvents(others));
    }
  }

  lemma EventsJoined(trace: seq<Event>, data: seq<byte>, more: seq<Event>)
    ensures trace + [ChunkHeader(|data|)] + [Span(Http.Body, data), ChunkComplete] + more
         == trace + ([ChunkHeader(|data|), Span(Http.Body, data), ChunkComplete] + more)
  {
  }

  /**
    A whole chunked body: the chunks, a last chunk of size zero and the empty trailer section give each
    chunk's header, data and completion, the last chunk's header and completion, and one
    message-complete; the parser has then consumed the encoding and nothing else.
  */
  lemma ReadChunkedBody(env: Env, k: Config, chunks: seq<Chunk>, zero: seq<byte>, ext: seq<byte>, rest: seq<byte>)
    requires Ready(k) && k.core.node == B(UpdateContentLength) && k.core.index == 0
    requires forall i :: 0 <= i < |chunks| ==> IsChunk(chunks[i])
    requires IsSize(zero, 0) && IsExtension(ext)
    ensures var coded := Encode(chunks) + (zero + ext + CRLF) + CRLF;
            var core := To(k.core.(length := 0, flags := k.core.flags.(trailing := true)), B(IsEqualUpgrade));
            var events := ChunkEvents(chunks) + [ChunkHeader(0), ChunkComplete, MessageComplete];
            Run(env, k, coded + rest) == Run(env, Emitted(k, core, events, |coded|), rest)
  {
    hide Run, Rank, Step, Encode, ChunkEvents, IsSize, IsExtension;
    var coded := Encode(chunks) + (zero + ext + CRLF) + CRLF;
    var tail := zero + ext + CRLF + (CRLF + rest);
    Joined(Encode(chunks), zero + ext + CRLF, CRLF, rest);
    ReadChunks(env, k, chunks, tail);
    var k1 := Emitted(k, if chunks == [] then k.core else k.core.(length := 0), ChunkEvents(chunks), |Encode(chunks)|);
    ReadSizeLine(env, k1, zero, ext, 0, CRLF + rest);
    var core := k.core.(length := 0);
    var k2 := Emitted(k1, To(core, B(IsEqualContentLength)), [ChunkHeader(0)], |zero| + |ext| + 2);
    ReadEmptyTrailers(env, k2, rest);
    assert k.trace + ChunkEvents(chunks) + [ChunkHeader(0)] + [ChunkComplete, MessageComplete]
        == k.trace + (ChunkEvents(chunks) + [ChunkHeader(0), ChunkComplete, MessageComplete]);
  }

  lemma Joined(a: seq<byte>, b: seq<byte>, c: seq<byte>, d: seq<byte>)
    ensures a + b + c + d == a + (b + (c + d))
  {
  }

  /** The last chunk's header leads to the trailer section. */
  lemma TrailersBegin(env: Env, k: Config, rest: seq<byte>)
    requires Ready(k) && k.core.node == B(IsEqualContentLength) && k.core.length == 0
    ensures Run(env, k, rest)
         == Run(env, Past(k, k.core.(flags := k.core.flags.(trailing := true), node := N(FieldStart)), 0), rest)
  {
    hide Run, Rank, LineStep, UrlStep, NameStep, ValueStep, AfterHeaders;
    Move(env, k, rest, k.core.(flags := k.core.flags.(trailing := true), node := N(FieldStart)), false);
  }

  /** The empty line that ends a header or trailer section. */
  lemma EmptyLine(env: Env, k: Config, rest: seq<byte>)
    requires Ready(k) && k.core.node == N(FieldStart)
    ensures Run(env, k, CRLF + rest) == Run(env, Past(k, To(k.core, B(TestFlags)), 2), rest)
  {
    hide Run, Rank, LineStep, UrlStep, ValueStep;
    var buf, tail := CRLF + rest, [LF] + rest;
    assert buf[1..] == tail && tail[1..] == rest;
    RunOne(env, k, buf, Go(To(k.core, B(HeadersAlmostDone)), true));
    RunOne(env, Past(k, To(k.core, B(HeadersAlmostDone)), 1), tail, Go(To(k.core, B(TestFlags)), true));
  }

  /** The end of a trailer section ends the last chunk and the message. */
  lemma TrailersEnd(env: Env, k: Config, rest: seq<byte>)
    requires Ready(k) && k.core.node == B(TestFlags) && k.core.flags.trailing
    ensures Run(env, k, rest)
         == Run(env, Emitted(k, To(k.core, B(IsEqualUpgrade)), [ChunkComplete, MessageComplete], 0), rest)
  {
    hide Run, Rank, LineStep, UrlStep, NameStep, ValueStep, AfterHeaders;
    Move(env, k, rest, To(k.core, B(OnLastChunkComplete)), false);
    var k1 := Past(k, To(k.core, B(OnLastChunkComplete)), 0);
    Notified(env, k1, rest, ChunkComplete, To(k.core, B(OnMessageComplete2)), Some(HPE_CB_CHUNK_COMPLETE));
    var k2 := Emitted(k1, To(k.core, B(OnMessageComplete2)), [ChunkComplete], 0);
    Notified(env, k2, rest, MessageComplete, To(k.core, B(IsEqualUpgrade)), Some(HPE_CB_MESSAGE_COMPLETE));
    assert k.trace + [ChunkComplete] + [MessageComplete] == k.trace + [ChunkComplete, MessageComplete];
  }

  lemma ReadEmptyTrailers(env: Env, k: Config, rest: seq<byte>)
    requires Ready(k) && k.core.node == B(IsEqualContentLength) && k.core.length == 0
    ensures Run(env, k, CRLF + rest)
         == Run(env, Emitted(k, To(k.core.(flags := k.core.flags.(trailing := true)), B(IsEqualUpgrade)),
                             [ChunkComplete, MessageComplete], 2), rest)
  {
    hide Run, Rank, Step;
    TrailersBegin(env, k, CRLF + rest);
    var k1 := Past(k, k.core.(flags := k.core.flags.(trailing := true), node := N(FieldStart)), 0);
    EmptyLine(env, k1, rest);
    TrailersEnd(env, Past(k1, To(k1.core, B(TestFlags)), 2), rest);
  }

  // ---------------------------------------------------------------- the framing of a message

  /** The headers have been accepted, and the application wants a body, in this protocol. */
  predicate WantsBody(k: Config) {
    && Ready(k) && k.core.node == B(AfterHeadersComplete) && k.core.index == 0
    && !k.core.line.lenient.chunkedLength && !k.core.flags.skipBody
    && (k.core.line.upgrade ==> k.core.line.verb != METHOD_CONNECT && (k.core.flags.chunked || k.core.length > 0))
  }

  /** Where a parser stands once a message is complete: stopped for an upgrade, or at the next message. */
  function Over(k: Config): Config {
    if k.core.line.upgrade then k.(core := To(k.core, B(AfterMessageComplete)), stop := HPE_PAUSED_UPGRADE)
    else k.(core := Restart(k.core))
  }

  lemma RunStopped(env: Env, k: Config, buf: seq<byte>)
    requires k.stop != 0
    ensures Run(env, k, buf) == k
  {
    hide Step;
  }

  lemma MessageEnds(env: Env, k: Config, buf: seq<byte>)
    requires Ready(k)
    requires k.core.node == B(IsEqualUpgrade)
          || k.core.node == if k.core.line.upgrade then B(PauseUpgrade) else B(AfterMessageComplete)
    ensures Run(env, k, buf) == Run(env, Over(k), buf)
  {
    hide Run, Rank, LineStep, UrlStep, NameStep, ValueStep, Restart;
    var core := To(k.core, B(if k.core.line.upgrade then PauseUpgrade else AfterMessageComplete));
    var k1 := Past(k, core, 0);
    if k.core.node == B(IsEqualUpgrade) { Move(env, k, buf, core, false); }
    if k.core.line.upgrade {
      RunOne(env, k1, buf, Fail(HPE_PAUSED_UPGRADE, To(core, B(AfterMessageComplete))));
      RunStopped(env, Over(k), buf);
    } else {
      RestartBlind(k.core);
      Move(env, k1, buf, Restart(core), false);
    }
  }

  lemma RestartBlind(k: Core)
    ensures Restart(To(k, B(AfterMessageComplete))) == Restart(k)
  {
  }

  /** With a final chunked coding the body is exactly the decoded chunks. */
  lemma FramedByChunks(env: Env, k: Config, chunks: seq<Chunk>, zero: seq<byte>, ext: seq<byte>, rest: seq<byte>)
    requires WantsBody(k) && k.core.flags.chunked
    requires forall i :: 0 <= i < |chunks| ==> IsChunk(chunks[i])
    requires IsSize(zero, 0) && IsExtension(ext)
    ensures var coded := Encode(chunks) + (zero + ext + CRLF) + CRLF;
            var core := k.core.(length := 0, flags := k.core.flags.(trailing := true), node := B(IsEqualUpgrade));
            var events := ChunkEvents(chunks) + [ChunkHeader(0), ChunkComplete, MessageComplete];
            Run(env, k, coded + rest) == Run(env, Over(Emitted(k, core, events, |coded|)), rest)
  {
    hide Run, Rank, LineStep, UrlStep, NameStep, ValueStep, Encode, ChunkEvents, Over;
    var coded := Encode(chunks) + (zero + ext + CRLF) + CRLF;
    var events := ChunkEvents(chunks) + [ChunkHeader(0), ChunkComplete, MessageComplete];
    Move(env, k, coded + rest, To(k.core, B(UpdateContentLength)), false);
    ReadChunkedBody(env, Past(k, To(k.core, B(UpdateContentLength)), 0), chunks, zero, ext, rest);
    var core := k.core.(length := 0, flags := k.core.flags.(trailing := true), node := B(IsEqualUpgrade));
    MessageEnds(env, Emitted(k, core, events, |coded|), rest);
  }

  /** With Content-Length alone the body is exactly that many bytes, whatever they are. */
  lemma FramedByLength(env: Env, k: Config, data: seq<byte>, rest: seq<byte>)
    requires WantsBody(k) && !k.core.flags.chunked && !k.core.flags.transferEncoding
    requires k.core.flags.contentLength && k.core.length == |data|
    ensures var events := if data == [] then [MessageComplete] else [Span(Http.Body, data), MessageComplete];
            var end := Emitted(k, To(k.core.(length := 0), B(IsEqualUpgrade)), events, |data|);
            Run(env, k, data + rest) == Run(env, Over(end), rest)
  {
    hide Run, Rank, LineStep, UrlStep, NameStep, ValueStep, Over;
    var buf := data + rest;
    if data == [] {
      assert buf == rest;
      Move(env, k, buf, To(k.core, B(OnMessageComplete)), false);
      Completes(env, Past(k, To(k.core, B(OnMessageComplete)), 0), buf);
    } else {
      Move(env, k, buf, To(k.core, B(SpanStartIdentity)), false);
      var k1 := Past(k, To(k.core, B(SpanStartIdentity)), 0);
      ReadSpan(env, k1, data, rest, OnMessageComplete2);
      var core := To(k.core.(length := 0), B(OnMessageComplete2));
      Completes(env, Emitted(k1, core, [Span(Http.Body, data)], |data|), rest);
      assert k.trace + [Span(Http.Body, data)] + [MessageComplete]
          == k.trace + [Span(Http.Body, data), MessageComplete];
    }
  }

  /** The last callback of a message, from whichever of its three states. */
  lemma Completes(env: Env, k: Config, buf: seq<byte>)
    requires Ready(k)
    requires k.core.node == B(OnMessageComplete2)
          || k.core.node == if k.core.line.upgrade then B(OnMessageComplete1) else B(OnMessageComplete)
    ensures Run(env, k, buf) == Run(env, Over(Emitted(k, To(k.core, B(IsEqualUpgrade)), [MessageComplete], 0)), buf)
  {
    hide Run, Rank, LineStep, UrlStep, NameStep, ValueStep, Restart;
    var next := To(k.core, B(if k.core.node == B(OnMessageComplete2) then IsEqualUpgrade
                             else if k.core.line.upgrade then PauseUpgrade else AfterMessageComplete));
    Notified(env, k, buf, MessageComplete, next, Some(HPE_CB_MESSAGE_COMPLETE));
    MessageEnds(env, Emitted(k, next, [MessageComplete], 0), buf);
    RestartSame(next, To(k.core, B(IsEqualUpgrade)));
  }

  lemma RestartSame(k: Core, m: Core)
    requires To(k, m.node) == m
    ensures Restart(k) == Restart(m)
  {
  }

  /**
    With neither the body is empty: the message completes before the next byte, and even an upgrade is not
    stopped for (a count left over from an earlier message is what brings an upgrade here).
  */
  lemma FramedByNothing(env: Env, k: Config, buf: seq<byte>)
    requires WantsBody(k) && !k.core.flags.chunked && !k.core.flags.transferEncoding && !k.core.flags.contentLength
    requires k.core.line.ty.Request? || BodilessStatus(k.core.line.status)
    ensures Run(env, k, buf) == Run(env, Emitted(k, Restart(k.core), [MessageComplete], 0), buf)
  {
    hide Run, Rank, LineStep, UrlStep, NameStep, ValueStep, Restart;
    var last := To(k.core, B(AfterMessageComplete));
    Move(env, k, buf, To(k.core, B(OnMessageComplete)), false);
    var k1 := Past(k, To(k.core, B(OnMessageComplete)), 0);
    Notified(env, k1, buf, MessageComplete, last, Some(HPE_CB_MESSAGE_COMPLETE));
    Move(env, Emitted(k1, last, [MessageComplete], 0), buf, Restart(last), false);
    RestartBlind(k.core);
  }

  /** A body that is skipped, or would be in another protocol, is not read at all, and its count stays behind. */
  lemma LeftUnread(env: Env, k: Config, buf: seq<byte>)
    requires Ready(k) && k.core.node == B(AfterHeadersComplete)
    requires AfterHeaders(k.core).LeaveProtocol? || (k.core.flags.skipBody && !k.core.line.upgrade)
    ensures Run(env, k, buf) == Run(env, Over(Emitted(k, To(k.core, B(IsEqualUpgrade)), [MessageComplete], 0)), buf)
  {
    hide Run, Rank, LineStep, UrlStep, NameStep, ValueStep, Over;
    var next := To(k.core, B(if k.core.line.upgrade then OnMessageComplete1 else OnMessageComplete));
    Move(env, k, buf, next, false);
    Completes(env, Past(k, next, 0), buf);
  }

  /**
    A message that leaves the protocol is complete at its last header byte, and the parser stops there for
    the application to take over; the rest of the input is not looked at.
  */
  lemma UpgradeStops(env: Env, k: Config, buf: seq<byte>)
    requires Ready(k) && k.core.node == B(AfterHeadersComplete) && AfterHeaders(k.core).LeaveProtocol?
    ensures var r := Run(env, k, buf);
            && r.stop == 22 && r.pos == k.pos && r.trace == k.trace + [MessageComplete]
            && r.core == To(k.core, B(AfterMessageComplete))
  {
    LeftUnread(env, k, buf);
    var end := Emitted(k, To(k.core, B(IsEqualUpgrade)), [MessageComplete], 0);
    hide Run;
    RunStopped(env, Over(end), buf);
  }

  /** A request whose transfer coding does not end in chunked is refused before any body byte is read. */
  lemma RefusedCoding(env: Env, k: Config, buf: seq<byte>)
    requires WantsBody(k) && k.core.line.ty.Request? && !k.core.line.upgrade
    requires !k.core.flags.chunked && k.core.flags.transferEncoding
    ensures var r := Run(env, k, buf);
            r.stop == 15 && r.pos == k.pos && r.trace == k.trace
  {
    hide Run, Rank, LineStep, UrlStep, NameStep, ValueStep;
    RunOne(env, k, buf, FailAt(k.core, HPE_INVALID_TRANSFER_ENCODING));
  }

  /** Both framing headers together are refused, before the application hears of the headers. */
  lemma RefusedBoth(env: Env, k: Config, buf: seq<byte>)
    requires Ready(k) && k.core.node == B(TestFlags) && !k.core.flags.trailing && !k.core.line.lenient.chunkedLength
    requires k.core.flags.contentLength && k.core.flags.transferEncoding
    ensures var r := Run(env, k, buf);
            r.stop == 4 && r.pos == k.pos && r.trace == k.trace
  {
    hide Run, Rank, LineStep, UrlStep, NameStep, ValueStep;
    RunOne(env, k, buf, FailAt(k.core, HPE_UNEXPECTED_CONTENT_LENGTH));
  }

  /** They are let through with the lenient flag for lengths, and only with it. */
  lemma BothExactly(env: Env, k: Config, buf: seq<byte>)
    requires Ready(k) && k.core.node == B(TestFlags) && !k.core.flags.trailing
    requires k.core.flags.contentLength && k.core.flags.transferEncoding
    ensures var r := Run(env, k, buf);
            if k.core.line.lenient.chunkedLength then k.trace + [HeadersComplete] <= r.trace
            else r.stop == 4 && r.trace == k.trace
  {
    hide Run, Rank, LineStep, UrlStep, NameStep, ValueStep, AfterHeaders, UpgradeFlag;
    if k.core.line.lenient.chunkedLength {
      var core := To(k.core.(line := k.core.line.(upgrade := UpgradeFlag(k.core))), B(OnHeadersComplete));
      Move(env, k, buf, core, false);
      RunOne(env, Past(k, core, 0), buf, AskHeaders(To(core, B(AfterHeadersComplete))));
      var next := Answered(To(core, B(AfterHeadersComplete)), env.answer(k.trace));
      RunExtends(env, Emitted(k, next, [HeadersComplete], 0), buf);
    } else {
      RefusedBoth(env, k, buf);
    }
  }

  /**
    Before the announced bytes are all there no message is complete: the body so far is exactly what
    has arrived, and the rest of the count is still owed.
  */
  lemma LengthNotReached(env: Env, k: Config, data: seq<byte>)
    requires WantsBody(k) && !k.core.flags.chunked && !k.core.flags.transferEncoding
    requires k.core.flags.contentLength && |data| < k.core.length
    ensures var r := Run(env, k, data);
            && r.stop == 0 && r.trace == k.trace && r.core.length == k.core.length - |data|
            && r.span == if data == [] then None else Some(OpenSpan(Http.Body, data))
  {
    hide Run, Rank, LineStep, UrlStep, NameStep, ValueStep;
    Move(env, k, data, To(k.core, B(SpanStartIdentity)), false);
    var k1 := Past(k, To(k.core, B(SpanStartIdentity)), 0);
    if data == [] { RunWaits(env, k1, []); } else { SpanNotFull(env, k1, data); }
  }

  lemma SpanNotFull(env: Env, k: Config, data: seq<byte>)
    requires Ready(k) && k.core.node == B(SpanStartIdentity) && 0 < |data| < k.core.length
    ensures var r := Run(env, k, data);
            && r.stop == 0 && r.trace == k.trace && r.core.length == k.core.length - |data|
            && r.span == Some(OpenSpan(Http.Body, data))
  {
    hide Run, Rank, LineStep, UrlStep, NameStep, ValueStep;
    var k1 := k.(core := To(k.core, B(ConsumeIdentity)), span := Some(OpenSpan(Http.Body, [])));
    RunOne(env, k, data, Open(Http.Body, k1.core));
    ConsumeGlide(env, k1, data, |data|);
    assert data[..|data|] == data && data[|data|..] == [] && [] + data == data;
    RunWaits(env, Moved(k1, k1.core.(length := k.core.length - |data|), data), []);
  }

  /**
    A message that is framed by the end of the connection: every byte belongs to its body, and no
    message-complete comes before the end of input.
  */
  lemma FramedByClose(env: Env, k: Config, data: seq<byte>)
    requires Ready(k) && k.core.node == B(AfterHeadersComplete) && AfterHeaders(k.core).UntilEof? && data != []
    ensures var r := Run(env, k, data);
            && r.stop == 0 && r.trace == k.trace && r.span == Some(OpenSpan(Http.Body, data))
            && r.core == k.core.(node := B(Eof), line := k.core.line.(finish := SafeWithCb))
  {
    hide Run, Rank, LineStep, UrlStep, NameStep, ValueStep, AfterHeaders;
    var core := k.core.(line := k.core.line.(finish := SafeWithCb));
    Move(env, k, data, To(core, B(SpanStartEof)), false);
    var k1 := Past(k, To(core, B(SpanStartEof)), 0);
    RunOne(env, k1, data, Open(Http.Body, To(core, B(Eof))));
    var k2 := k1.(core := To(core, B(Eof)), span := Some(OpenSpan(Http.Body, [])));
    assert data + [] == data && [] + data == data;
    RunGlide(env, k2, i => k2.core, data, []);
    RunWaits(env, Moved(k2, k2.core, data), []);
  }
}
