/**
  The header printer of functions/web/header.c:142-157, and the round trip through the header automaton.
*/
module Printer {
  import opened Http
  import opened Machine
  import opened Automaton
  import opened Semantics
  import opened Invariants
  import opened Bodies
  import opened Fields

  /** An entry of a key_value_collection; the strings are without their terminating NUL. */
  datatype KeyValue = KeyValue(key: seq<byte>, value: seq<byte>)

  const COLON_SPACE: seq<byte> := [':', ' ']

  function Line(h: KeyValue): seq<byte> { h.key + COLON_SPACE + h.value + CRLF }

  function Printed(headers: seq<KeyValue>): seq<byte> {
    if headers == [] then [] else Printed(headers[..|headers| - 1]) + Line(headers[|headers| - 1])
  }

  /** `stringify`: four appends to a growing buffer for every header, none for an empty collection. */
  method Stringify(collection: seq<KeyValue>) returns (res: seq<byte>)
    ensures res == Printed(collection)
  {
    res := [];
    if |collection| == 0 { return; }
    var i := 0;
    while i < |collection|
      invariant 0 <= i <= |collection| && res == Printed(collection[..i])
    {
      assert collection[..i + 1][..i] == collection[..i];
      ghost var before := res;
      res := res + collection[i].key;
      res := res + COLON_SPACE;
      res := res + collection[i].value;
      res := res + CRLF;
      assert res == before + Line(collection[i]);
      i := i + 1;
    }
    assert collection[..i] == collection;
  }

  /** A header the printer can be trusted with: any token but Content-Length, and a value as it is sent. */
  predicate Printable(h: KeyValue) {
    && IsToken(h.key) && LowerAll(h.key) != CONTENT_LENGTH
    && IsValue(h.value) && (h.value != [] ==> h.value[0] != SP && h.value[0] != HT)
  }

  function FieldEvents(headers: seq<KeyValue>): seq<Event> {
    if headers == [] then [] else
    var h := headers[|headers| - 1];
    FieldEvents(headers[..|headers| - 1])
      + [Span(HeaderField, h.key), HeaderFieldComplete, Span(HeaderValue, h.value), HeaderValueComplete]
  }

  /** The parser stands where a header line may start. */
  predicate AtField(strict: bool, k: Config) {
    Ready(k) && k.core.node == N(FieldStart) && k.core.index == 0 && Coherent(strict, k.core)
  }

  /** One printed line is read back as one header. */
  lemma ReadLine(env: Env, k: Config, h: KeyValue, rest: seq<byte>) returns (r: Config)
    requires AtField(env.strict, k) && Printable(h) && Unfolded(rest)
    ensures Run(env, k, Line(h) + rest) == Run(env, r, rest)
    ensures AtField(env.strict, r) && r.pos == k.pos + |Line(h)| && SameMessage(k.core, r.core)
    ensures r.trace == k.trace
                     + [Span(HeaderField, h.key), HeaderFieldComplete, Span(HeaderValue, h.value), HeaderValueComplete]
  {
    hide Run, Rank, Step, Eat, EatAll, AtEnd, LowerAll, IsValue, InValue, ValueOpened;
    var afterName := [SP] + (h.value + CRLF + rest);
    assert Line(h) + rest == h.key + [':'] + afterName;
    ReadName(env, k, h.key, afterName);
    var hs := ClassOf(LowerAll(h.key));
    var events := [Span(HeaderField, h.key), HeaderFieldComplete];
    var k1 := Emitted(k, k.core.(node := V(DiscardWs), hs := hs), events, |h.key| + 1);
    SpaceSkipped(env, k1, h.value + CRLF + rest);
    var k2 := Past(k1, k1.core, 1);
    ClassesOf(LowerAll(h.key));
    if h.value == [] {
      assert h.value + CRLF + rest == CRLF + rest;
      ReadEmptyValue(env, k2, rest);
      r := Emitted(k2, To(k2.core, N(FieldStart)), [Span(HeaderValue, []), HeaderValueComplete], 2);
    } else {
      r := ReadValue(env, k2, h.value, rest);
    }
    assert k.trace + events + [Span(HeaderValue, h.value), HeaderValueComplete]
        == k.trace + [Span(HeaderField, h.key), HeaderFieldComplete, Span(HeaderValue, h.value), HeaderValueComplete];
  }

  lemma ClassesOf(name: seq<byte>)
    ensures name != CONTENT_LENGTH ==>
              var hs := ClassOf(name); hs == General || hs == Connection || hs == TransferEncoding || hs == Upgrade
  {
  }

  lemma SpaceSkipped(env: Env, k: Config, rest: seq<byte>)
    requires Ready(k) && k.core.node == V(DiscardWs)
    ensures Run(env, k, [SP] + rest) == Run(env, Past(k, k.core, 1), rest)
  {
    hide Run, Rank, LineStep, UrlStep, NameStep, BodyStep, ListByte;
    assert ([SP] + rest)[1..] == rest;
    RunOne(env, k, [SP] + rest, Go(k.core, true));
  }

  /** A non-empty value, whichever automaton reads it. */
  lemma ReadValue(env: Env, k: Config, value: seq<byte>, rest: seq<byte>) returns (r: Config)
    requires Ready(k) && k.core.node == V(DiscardWs) && k.core.hs != ContentLength && Coherent(env.strict, k.core)
    requires value != [] && IsValue(value) && value[0] != SP && value[0] != HT && Unfolded(rest)
    ensures Run(env, k, value + CRLF + rest) == Run(env, r, rest)
    ensures AtField(env.strict, r) && r.pos == k.pos + |value| + 2 && SameMessage(k.core, r.core)
    ensures r.trace == k.trace + [Span(HeaderValue, value), HeaderValueComplete]
  {
    assert IsValueByte(value[0]);
    OpenedCoherent(env.strict, k.core);
    var core := ValueOpened(k.core);
    hide Run, Rank, Step, Eat, EatAll, AtEnd, IsValue, InValue, ValueOpened, Coherent;
    EatValue(env.strict, core, value);
    ReadWholeValue(env, k, value, rest);
    var eaten := EatAll(env.strict, core, value).value;
    SettledCoherent(env.strict, eaten);
    var events := [Span(HeaderValue, value), HeaderValueComplete];
    r := Emitted(k, To(Settle(AtEnd(eaten)), N(FieldStart)), events, |value| + 2);
  }

  lemma OpenedCoherent(strict: bool, k: Core)
    requires k.hs != ContentLength && k.node == V(DiscardWs) && Coherent(strict, k)
    ensures Coherent(strict, ValueOpened(k)) && InValue(ValueOpened(k).node)
    ensures SameMessage(k, ValueOpened(k))
  {
  }

  lemma SettledCoherent(strict: bool, k: Core)
    requires InValue(k.node) && Coherent(strict, k)
    ensures var r := To(Settle(AtEnd(k)), N(FieldStart));
            Coherent(strict, r) && r.index == 0 && SameMessage(k, r)
  {
    var end := AtEnd(k);
    assert end == k.(node := V(ValueOtherwise), index := 0, hs := end.hs);
    SettleKeeps(end);
    hide AtEnd, Settle, InValue, MatcherOf;
  }

  /**
    The printer and the parser undo each other: for every list of printable headers, the header
    automaton run on what the printer wrote reports exactly these names and values, in order, and is
    ready for the next line.
  */
  lemma {:induction false} ReadPrinted(env: Env, k: Config, headers: seq<KeyValue>, rest: seq<byte>) returns (r: Config)
    requires AtField(env.strict, k) && Unfolded(rest) && forall i :: 0 <= i < |headers| ==> Printable(headers[i])
    ensures Run(env, k, Printed(headers) + rest) == Run(env, r, rest)
    ensures AtField(env.strict, r) && r.pos == k.pos + |Printed(headers)| && SameMessage(k.core, r.core)
    ensures r.trace == k.trace + FieldEvents(headers)
    decreases |headers|
  {
    hide Run, Rank, Step, Printable, Unfolded;
    if headers == [] {
      assert Printed(headers) + rest == rest && k.trace + [] == k.trace;
      r := k;
    } else {
      var n := |headers| - 1;
      var front, h := headers[..n], headers[n];
      LineUnfolds(h, rest);
      assert Printed(headers) + rest == Printed(front) + (Line(h) + rest);
      var m := ReadPrinted(env, k, front, Line(h) + rest);
      r := ReadLine(env, m, h, rest);
    }
  }

  lemma LineUnfolds(h: KeyValue, rest: seq<byte>)
    requires Printable(h)
    ensures Unfolded(Line(h) + rest)
  {
    assert (Line(h) + rest)[0] == if h.key == [] then ':' else h.key[0];
  }

  /** The printed headers and the empty line after them end the header section. */
  lemma ReadHeaderSection(env: Env, k: Config, headers: seq<KeyValue>, rest: seq<byte>) returns (r: Config)
    requires AtField(env.strict, k) && forall i :: 0 <= i < |headers| ==> Printable(headers[i])
    ensures Run(env, k, Printed(headers) + CRLF + rest) == Run(env, r, rest)
    ensures Ready(r) && r.core.node == B(TestFlags) && r.trace == k.trace + FieldEvents(headers)
    ensures r.pos == k.pos + |Printed(headers)| + 2 && SameMessage(k.core, r.core)
  {
    hide Run, Rank, Step, Printable;
    var tail := CRLF + rest;
    assert Printed(headers) + CRLF + rest == Printed(headers) + tail;
    var m := ReadPrinted(env, k, headers, tail);
    r := Past(m, To(m.core, B(TestFlags)), 2);
    EmptyLine(env, m, rest);
  }

  // ---------------------------------------------------------------- trailers

  /**
    A whole chunked body with trailers: after the last chunk's header the trailer fields are reported as
    header fields, exactly as they are written, and only then are the last chunk and the message complete.
  */
  lemma ReadChunkedBodyWithTrailers(env: Env, k: Config, chunks: seq<Chunk>, zero: seq<byte>, ext: seq<byte>,
                                    trailers: seq<KeyValue>, rest: seq<byte>) returns (r: Config)
    requires Ready(k) && k.core.node == B(UpdateContentLength) && k.core.index == 0 && Coherent(env.strict, k.core)
    requires forall i :: 0 <= i < |chunks| ==> IsChunk(chunks[i])
    requires IsSize(zero, 0) && IsExtension(ext)
    requires forall i :: 0 <= i < |trailers| ==> Printable(trailers[i])
    ensures var coded := Encode(chunks) + (zero + ext + CRLF) + (Printed(trailers) + CRLF);
            Run(env, k, coded + rest) == Run(env, r, rest) && r.pos == k.pos + |coded|
    ensures r.trace == k.trace + (ChunkEvents(chunks) + [ChunkHeader(0)] + FieldEvents(trailers)
              + [ChunkComplete, MessageComplete])
    ensures Ready(r) && r.core.node == B(IsEqualUpgrade) && r.core.line == k.core.line && r.core.length == 0
  {
    hide Run, Rank, Step, Encode, ChunkEvents, IsSize, IsExtension, Printed, Printable, FieldEvents, IsChunk;
    var section := Printed(trailers) + CRLF + rest;
    var tail := zero + ext + CRLF + section;
    Joined(Encode(chunks), zero + ext + CRLF, Printed(trailers) + CRLF, rest);
    ReadChunks(env, k, chunks, tail);
    var core := k.core.(length := 0);
    var k1 := Emitted(k, if chunks == [] then k.core else core, ChunkEvents(chunks), |Encode(chunks)|);
    ReadSizeLine(env, k1, zero, ext, 0, section);
    var k2 := Emitted(k1, To(core, B(IsEqualContentLength)), [ChunkHeader(0)], |zero| + |ext| + 2);
    var k3 := Past(k2, core.(flags := core.flags.(trailing := true), node := N(FieldStart)), 0);
    TrailersBegin(env, k2, section);
    CoherentField(env.strict, k.core, k3.core);
    var m := ReadHeaderSection(env, k3, trailers, rest);
    TrailersEnd(env, m, rest);
    r := Emitted(m, To(m.core, B(IsEqualUpgrade)), [ChunkComplete, MessageComplete], 0);
    TraceJoined(k.trace, ChunkEvents(chunks), [ChunkHeader(0)], FieldEvents(trailers),
        [ChunkComplete, MessageComplete]);
  }

  lemma TraceJoined(a: seq<Event>, b: seq<Event>, c: seq<Event>, d: seq<Event>, e: seq<Event>)
    ensures a + b + c + d + e == a + (b + c + d + e)
  {
  }

  lemma CoherentField(strict: bool, k: Core, m: Core)
    requires Coherent(strict, k) && k.index == 0 && m.index == 0 && m.line == k.line && m.length == 0
    ensures Coherent(strict, m)
  {
  }
}
