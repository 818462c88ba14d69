/**
  The edges of the grammar, by the codes of the bytes: what a name, a value and a line end may hold, what the parser
  answers to anything else, and what the lenient flag for headers changes (3rd/llhttp/llhttp.c:8611-10081).
*/
module Edges {
  import opened Http
  import opened Machine
  import opened Automaton
  import opened Semantics
  import opened Invariants
  import opened Bodies
  import opened Fields
  import opened Digits

  // ---------------------------------------------------------------- names

  /** The letters, the digits and "!#$%&'*+-.^_`|~". */
  predicate InName(code: int) {
    || code == 33 || 35 <= code <= 39 || code == 42 || code == 43 || code == 45 || code == 46 || 48 <= code <= 57
    || 65 <= code <= 90 || 94 <= code <= 122 || code == 124 || code == 126
  }

  /** A name takes these bytes, and a space unless the parser is strict; nothing but a colon ends it. */
  lemma NameBytes(env: Env, k: Config, b: byte)
    requires k.stop == 0 && k.core.node == N(FieldGeneral)
    ensures InName(b as int) || (!env.strict && b as int == 32) ==> Eat(env.strict, k.core, b) == Some(k.core)
    ensures !InName(b as int) && b as int != 58 && (env.strict || b as int != 32) ==> Run(env, k, [b]).stop == 10
  {
    hide Run, LineStep, UrlStep, ValueStep, BodyStep;
    if !InName(b as int) && b as int != 58 && (env.strict || b as int != 32) {
      var k1 := k.(core := To(k.core, N(FieldGeneralOtherwise)));
      RunOne(env, k, [b], Go(k1.core, false));
      RunOne(env, k1, [b], FailAt(k1.core, 10));
    }
  }

  const SMALL: seq<byte> := "abcdefghijklmnopqrstuvwxyz"
  const CAPITAL: seq<byte> := "ABCDEFGHIJKLMNOPQRSTUVWXYZ"

  /** The same letter, small or capital, or the same byte. */
  predicate SameLetter(written: byte, small: byte) {
    || written == small
    || exists i :: 0 <= i < 26 && |SMALL| == |CAPITAL| == 26 && written == CAPITAL[i] && small == SMALL[i]
  }

  lemma LettersFold(written: byte, small: byte)
    requires SameLetter(written, small) && !('A' <= small <= 'Z')
    ensures Lower(written) == small
  {
  }

  /** The names the parser knows, and what it takes them for. */
  function Known(kind: HeaderState): seq<seq<byte>> {
    match kind
    case Connection => ["connection", "proxy-connection"]
    case ContentLength => ["content-length"]
    case TransferEncoding => ["transfer-encoding"]
    case Upgrade => ["upgrade"]
    case _ => []
  }

  lemma KnownIs(kind: HeaderState, name: seq<byte>)
    requires name in Known(kind)
    ensures ClassOf(name) == kind && IsToken(name) && forall i :: 0 <= i < |name| ==> !('A' <= name[i] <= 'Z')
    ensures kind != General && name != [] && 'a' <= name[0] <= 'z'
  {
  }

  lemma StillToken(written: byte, small: byte)
    requires SameLetter(written, small) && IsTokenByte(small)
    ensures IsTokenByte(written)
  {
  }

  /** A known name in any mixture of small and capital letters is known. */
  lemma ReadKnown(env: Env, k: Config, kind: HeaderState, known: seq<byte>, name: seq<byte>, rest: seq<byte>)
    requires Ready(k) && k.core.node == N(FieldStart) && k.core.index == 0 && known in Known(kind)
    requires |name| == |known| && forall i :: 0 <= i < |name| ==> SameLetter(name[i], known[i])
    ensures Run(env, k, name + [':'] + rest)
         == Run(env, Emitted(k, k.core.(node := V(DiscardWs), hs := kind),
                             [Span(HeaderField, name), HeaderFieldComplete], |name| + 1), rest)
  {
    hide Run, Step, Known, ClassOf, LowerAll, SameLetter, IsTokenByte, Lower;
    KnownIs(kind, known);
    forall i | 0 <= i < |name| ensures Lower(name[i]) == known[i] && IsTokenByte(name[i]) {
      LettersFold(name[i], known[i]);
      StillToken(name[i], known[i]);
    }
    assert LowerAll(name) == known;
    ReadName(env, k, name, rest);
  }

  /** At the end of a known name, spaces are part of its span, and it stays known. */
  lemma {:induction false} EatSpaces(strict: bool, k: Core, spaces: seq<byte>)
    requires k.node == N(FieldColon) && forall i :: 0 <= i < |spaces| ==> spaces[i] == ' '
    ensures EatAll(strict, k, spaces) == Some(k)
    decreases |spaces|
  {
    if spaces != [] {
      assert Step(strict, k, Some(' ')) == Go(k, true) by { hide LineStep, UrlStep, ValueStep, BodyStep; }
      assert Eat(strict, k, ' ') == Some(k) by { hide Step; }
      hide Eat;
      EatSpaces(strict, k, spaces[1..]);
    }
  }

  lemma ReadSpaced(env: Env, k: Config, kind: HeaderState, name: seq<byte>, spaces: seq<byte>, rest: seq<byte>)
    requires Ready(k) && k.core.node == N(FieldStart) && k.core.index == 0 && LowerAll(name) in Known(kind)
    requires IsToken(name) && forall i :: 0 <= i < |spaces| ==> spaces[i] == ' '
    ensures var text := name + spaces;
            Run(env, k, text + [':'] + rest)
              == Run(env, Emitted(k, k.core.(node := V(DiscardWs), hs := kind),
                                  [Span(HeaderField, text), HeaderFieldComplete], |text| + 1), rest)
  {
    hide Run, Step, Eat, EatAll, LowerAll, ClassOf, Known, NameSoFar, IsToken;
    var text, tail := name + spaces, [':'] + rest;
    KnownIs(kind, LowerAll(name));
    FirstIsNoEnd(kind, name);
    assert text + [':'] + rest == text + tail && (text + tail)[0] == name[0];
    NameOpens(env, k, text + tail);
    var k1 := k.(core := To(k.core, N(Field)), span := Some(OpenSpan(HeaderField, [])));
    NameBegins(k1.core);
    IsTokenMeans(name);
    EatName(env.strict, k1.core, [], name);
    assert [] + name == name && [] + text == text;
    var core := EatAll(env.strict, k1.core, name).value;
    KnownEnds(env.strict, core, name, kind);
    EatSpaces(env.strict, core, spaces);
    EatSplit(env.strict, k1.core, name, spaces);
    RunEatAll(env, k1, text, tail);
    ColonCloses(env, k.(core := core, span := Some(OpenSpan(HeaderField, text)), pos := k.pos + |text|), text, rest);
  }

  lemma IsTokenMeans(name: seq<byte>)
    requires IsToken(name)
    ensures forall i :: 0 <= i < |name| ==> IsTokenByte(name[i])
  {
  }

  lemma FirstIsNoEnd(kind: HeaderState, name: seq<byte>)
    requires LowerAll(name) in Known(kind)
    ensures name != [] && name[0] != '\r' && name[0] != '\n' && kind != General
  {
    hide Known, LowerAll;
    KnownIs(kind, LowerAll(name));
    assert LowerAll(name)[0] == Lower(name[0]);
  }

  lemma KnownEnds(strict: bool, k: Core, name: seq<byte>, kind: HeaderState)
    requires NameSoFar(k, name) && ClassOf(LowerAll(name)) == kind && kind != General
    ensures k.node == N(FieldColon) && k.hs == kind && k.index == 0
  {
    hide LowerAll, ClassOf, Unknown;
    NameEnds(strict, k, name);
  }

  lemma NameOpens(env: Env, k: Config, buf: seq<byte>)
    requires Ready(k) && k.core.node == N(FieldStart) && buf != [] && buf[0] != '\r' && buf[0] != '\n'
    ensures Run(env, k, buf)
         == Run(env, k.(core := To(k.core, N(Field)), span := Some(OpenSpan(HeaderField, []))), buf)
  {
    hide Run, Rank, LineStep, UrlStep, ValueStep, BodyStep;
    RunOne(env, k, buf, Go(To(k.core, N(SpanStartField)), false));
    RunOne(env, k.(core := To(k.core, N(SpanStartField))), buf, Open(HeaderField, To(k.core, N(Field))));
  }

  // ---------------------------------------------------------------- values

  /** A value takes every byte but the control bytes, of which it takes the tab; the flag lets in these too. */
  lemma ValueBytes(env: Env, k: Config, b: byte)
    requires k.stop == 0 && k.core.node == V(Value)
    ensures b as int == 9 || (32 <= b as int && b as int != 127) ==> Eat(env.strict, k.core, b) == Some(k.core)
    ensures (b as int < 32 && b as int !in {9, 10, 13}) || b as int == 127 ==>
              if k.core.line.lenient.headers then Eat(env.strict, k.core, b) == Some(To(k.core, V(ValueLenient)))
              else Run(env, k, [b]).stop == 10
  {
    hide Run, LineStep, UrlStep, NameStep, BodyStep, ListByte;
    if (b as int < 32 && b as int !in {9, 10, 13}) || b as int == 127 {
      if k.core.line.lenient.headers { LenientEats(env.strict, k.core, b); } else { ControlRefused(env, k, b); }
    }
  }

  lemma ControlRefused(env: Env, k: Config, b: byte)
    requires k.stop == 0 && k.core.node == V(Value) && !k.core.line.lenient.headers && b != '\r' && b != '\n'
    requires !IsValueByte(b)
    ensures Run(env, k, [b]).stop == 10
  {
    hide Run, LineStep, UrlStep, NameStep, BodyStep, ListByte;
    var k1 := k.(core := To(k.core, V(ValueOtherwise)));
    RunOne(env, k, [b], Go(k1.core, false));
    RunOne(env, k1, [b], FailAt(k1.core, 10));
  }

  lemma LenientEats(strict: bool, k: Core, b: byte)
    requires k.node == V(Value) && k.line.lenient.headers && b != '\r' && b != '\n' && !IsValueByte(b)
    ensures Eat(strict, k, b) == Some(To(k, V(ValueLenient)))
  {
    hide LineStep, UrlStep, NameStep, BodyStep, ListByte;
    var k1, k2 := To(k, V(ValueOtherwise)), To(k, V(ValueLenient));
    assert Step(strict, k, Some(b)) == Go(k1, false);
    assert Step(strict, k1, Some(b)) == Go(k2, false);
    assert Step(strict, k2, Some(b)) == Go(k2, true);
    hide Step;
    assert Eat(strict, k2, b) == Some(k2);
    assert Eat(strict, k1, b) == Some(k2);
  }

  predicate OnOneLine(s: seq<byte>) { '\r' !in s && '\n' !in s }

  /** With the flag, a plain value is read to the end of its line, whatever it holds. */
  lemma {:induction false} EatLenient(strict: bool, k: Core, text: seq<byte>)
    requires (k.node == V(Value) || k.node == V(ValueLenient)) && k.line.lenient.headers && OnOneLine(text)
    ensures EatAll(strict, k, text) == Some(k) || EatAll(strict, k, text) == Some(To(k, V(ValueLenient)))
    decreases |text|
  {
    if text != [] {
      assert text[0] in text && forall c :: c in text[1..] ==> c in text;
      LenientByte(strict, k, text[0]);
      hide Eat;
      EatLenient(strict, Eat(strict, k, text[0]).value, text[1..]);
    }
  }

  lemma LenientByte(strict: bool, k: Core, b: byte)
    requires (k.node == V(Value) || k.node == V(ValueLenient)) && k.line.lenient.headers && b != '\r' && b != '\n'
    ensures Eat(strict, k, b) == Some(k) || Eat(strict, k, b) == Some(To(k, V(ValueLenient)))
  {
    hide LineStep, UrlStep, NameStep, BodyStep, ListByte;
    var k1, k2 := To(k, V(ValueOtherwise)), To(k, V(ValueLenient));
    assert Step(strict, k2, Some(b)) == Go(k2, true);
    assert Step(strict, k1, Some(b)) == Go(k2, false);
    assert Eat(strict, k2, b) == Some(k2) && Eat(strict, k1, b) == Some(k2);
    if k.node == V(Value) {
      assert Step(strict, k, Some(b)) == if IsValueByte(b) then Go(k, true) else Go(k1, false);
    }
  }

  /** The span of such a value is all of it, and ends at a CR LF or at an LF alone. */
  lemma ReadLenient(env: Env, k: Config, text: seq<byte>, end: seq<byte>, rest: seq<byte>)
    requires k.stop == 0 && k.core.node == V(Value) && k.span == Some(OpenSpan(HeaderValue, []))
    requires k.core.line.lenient.headers && OnOneLine(text) && (end == ['\r', '\n'] || end == ['\n'])
    ensures Run(env, k, text + (end + rest))
         == Run(env, Emitted(k, To(k.core, V(ValueLws)), [Span(HeaderValue, text)], |text| + |end|).(span := None),
                rest)
  {
    hide Run, Step, Eat, EatAll;
    EatLenient(env.strict, k.core, text);
    RunEatAll(env, k, text, end + rest);
    var core := EatAll(env.strict, k.core, text).value;
    assert [] + text == text;
    var k1 := k.(core := core, span := Some(OpenSpan(HeaderValue, text)), pos := k.pos + |text|);
    ReadEitherEnd(env, k1, text, end, rest);
  }

  lemma CloseValue(env: Env, k: Config, text: seq<byte>, end: seq<byte>, rest: seq<byte>)
    requires k.stop == 0 && (k.core.node == V(ValueOtherwise) || k.core.node == V(ValueLenient))
    requires k.span == Some(OpenSpan(HeaderValue, text)) && (end == ['\r', '\n'] || end == ['\n'])
    ensures var events := [Span(HeaderValue, text)];
            var closed := Emitted(k, To(k.core, V(ValueAlmostDone)), events, |end| - 1).(span := None);
            Run(env, k, end + rest) == Run(env, closed, ['\n'] + rest)
  {
    hide Run, Rank, LineStep, UrlStep, NameStep, BodyStep, ListByte;
    if end == ['\n'] {
      RunOne(env, k, end + rest, Close(To(k.core, V(ValueAlmostDone)), false));
    } else {
      assert (end + rest)[1..] == ['\n'] + rest;
      RunOne(env, k, end + rest, Close(To(k.core, V(ValueAlmostDone)), true));
    }
  }

  lemma SkipLineFeed(env: Env, k: Config, rest: seq<byte>)
    requires Ready(k) && k.core.node == V(ValueAlmostDone)
    ensures Run(env, k, ['\n'] + rest) == Run(env, Past(k, To(k.core, V(ValueLws)), 1), rest)
  {
    hide Run, Rank, LineStep, UrlStep, NameStep, BodyStep, ListByte;
    assert (['\n'] + rest)[1..] == rest;
    Move(env, k, ['\n'] + rest, To(k.core, V(ValueLws)), true);
  }

  lemma ValueStops(env: Env, k: Config, buf: seq<byte>)
    requires k.stop == 0 && k.core.node == V(Value) && (Head(buf) == Some('\r') || Head(buf) == Some('\n'))
    ensures Run(env, k, buf) == Run(env, k.(core := To(k.core, V(ValueOtherwise))), buf)
  {
    hide Run, Rank, LineStep, UrlStep, NameStep, BodyStep, ListByte;
    RunOne(env, k, buf, Go(To(k.core, V(ValueOtherwise)), false));
  }

  /** A value ends at a CR LF or at an LF alone. */
  lemma ReadEitherEnd(env: Env, k: Config, text: seq<byte>, end: seq<byte>, rest: seq<byte>)
    requires k.stop == 0 && (k.core.node == V(Value) || k.core.node == V(ValueLenient))
    requires k.span == Some(OpenSpan(HeaderValue, text)) && (end == ['\r', '\n'] || end == ['\n'])
    ensures Run(env, k, end + rest)
         == Run(env, Emitted(k, To(k.core, V(ValueLws)), [Span(HeaderValue, text)], |end|).(span := None), rest)
  {
    hide Run, Step;
    var k1 := if k.core.node == V(Value) then k.(core := To(k.core, V(ValueOtherwise))) else k;
    if k.core.node == V(Value) { ValueStops(env, k, end + rest); }
    CloseValue(env, k1, text, end, rest);
    var k2 := Emitted(k1, To(k.core, V(ValueAlmostDone)), [Span(HeaderValue, text)], |end| - 1).(span := None);
    SkipLineFeed(env, k2, rest);
  }

  /** So does a value of any kind but Content-Length, and its automaton makes of it what it makes of it before CR LF. */
  lemma ReadAnyEnd(env: Env, k: Config, text: seq<byte>, end: seq<byte>, rest: seq<byte>)
    requires k.stop == 0 && InValue(k.core.node) && Coherent(env.strict, k.core)
    requires k.span == Some(OpenSpan(HeaderValue, text)) && (end == ['\r', '\n'] || end == ['\n'])
    ensures var closed := Emitted(k, To(AtEnd(k.core), V(ValueLws)), [Span(HeaderValue, text)], |end|);
            Run(env, k, end + rest) == Run(env, closed.(span := None), rest)
  {
    hide Run, Step, InValue, AtEnd, Coherent;
    ReadToEnd(env, k, end + rest);
    EndsOtherwise(k.core);
    var k1 := k.(core := AtEnd(k.core));
    CloseValue(env, k1, text, end, rest);
    var almost := Emitted(k1, To(AtEnd(k.core), V(ValueAlmostDone)), [Span(HeaderValue, text)], |end| - 1);
    SkipLineFeed(env, almost.(span := None), rest);
  }

  /** And a Content-Length, which is then known. */
  lemma ReadLengthEnd(env: Env, k: Config, text: seq<byte>, end: seq<byte>, rest: seq<byte>)
    requires k.stop == 0 && (k.core.node == V(Length) || k.core.node == V(LengthWs))
    requires k.span == Some(OpenSpan(HeaderValue, text)) && (end == ['\r', '\n'] || end == ['\n'])
    ensures var core := k.core.(node := V(ValueLws), flags := k.core.flags.(contentLength := true));
            Run(env, k, end + rest)
              == Run(env, Emitted(k, core, [Span(HeaderValue, text)], |end|).(span := None), rest)
  {
    hide Run, Step;
    LengthStops(env, k, end + rest);
    var counted := k.core.(flags := k.core.flags.(contentLength := true));
    CloseValue(env, k.(core := To(counted, V(ValueOtherwise))), text, end, rest);
    var almost := Emitted(k, To(counted, V(ValueAlmostDone)), [Span(HeaderValue, text)], |end| - 1);
    SkipLineFeed(env, almost.(span := None), rest);
  }

  lemma LengthStops(env: Env, k: Config, buf: seq<byte>)
    requires k.stop == 0 && (k.core.node == V(Length) || k.core.node == V(LengthWs))
    requires buf != [] && (buf[0] == '\r' || buf[0] == '\n')
    ensures var counted := k.core.(flags := k.core.flags.(contentLength := true));
            Run(env, k, buf) == Run(env, k.(core := To(counted, V(ValueOtherwise))), buf)
  {
    hide Run, Rank, LineStep, UrlStep, NameStep, BodyStep, ListByte;
    var k1 := k.(core := To(k.core, V(LengthWs)));
    if k.core.node == V(Length) { RunOne(env, k, buf, Go(k1.core, false)); }
    var counted := k.core.(flags := k.core.flags.(contentLength := true));
    RunOne(env, k1, buf, Go(To(counted, V(ValueOtherwise)), false));
  }

  /** A Content-Length without a value is refused. */
  lemma EmptyLength(env: Env, k: Config, b: byte)
    requires Ready(k) && k.core.node == V(DiscardLws) && k.core.hs == ContentLength && b != ' ' && b != '\t'
    ensures Run(env, k, [b]).stop == 11
  {
    hide Run, Rank, LineStep, UrlStep, NameStep, BodyStep, ListByte;
    RunOne(env, k, [b], FailAt(k.core, 11));
  }

  /** A status code and a reason phrase may each be ended by the line end, whichever it is. */
  lemma CodeEndsLine(strict: bool, k: Core, end: seq<byte>)
    requires k.node == L(ResStatusCode) && (end == ['\r', '\n'] || end == ['\n'])
    ensures EatAll(strict, k, end) == Some(To(k, L(OnStatusComplete)))
  {
    hide UrlStep, NameStep, ValueStep, BodyStep;
    var k1, k2 := To(k, L(ResStatusCodeOtherwise)), To(k, L(ResStatusStart));
    assert Step(strict, k, Some(end[0])) == Go(k1, false) && Step(strict, k1, Some(end[0])) == Go(k2, false);
    hide Step;
    assert Eat(strict, k1, end[0]) == Eat(strict, k2, end[0]);
    assert Eat(strict, k, end[0]) == Eat(strict, k2, end[0]);
    hide Eat;
    LineFeedAlone(strict, k2);
    assert EatAll(strict, k, end) == EatAll(strict, k2, end);
  }

  lemma PhraseEndsLine(env: Env, k: Config, text: seq<byte>, end: seq<byte>, rest: seq<byte>)
    requires k.stop == 0 && k.core.node == L(ResStatus) && k.span == Some(OpenSpan(Status, text))
    requires end == ['\r', '\n'] || end == ['\n']
    ensures Run(env, k, end + rest)
         == Run(env, Emitted(k, To(k.core, L(OnStatusComplete)), [Span(Status, text)], |end|).(span := None), rest)
  {
    hide Run, Step;
    ClosePhrase(env, k, text, end[0], end[1..] + rest);
    assert end + rest == [end[0]] + (end[1..] + rest);
    if end == ['\n'] {
      assert end[1..] + rest == rest;
    } else {
      assert end[1..] + rest == ['\n'] + rest;
      var k1 := Emitted(k, To(k.core, L(ResLineAlmostDone)), [Span(Status, text)], 1).(span := None);
      SkipPhraseFeed(env, k1, rest);
    }
  }

  lemma ClosePhrase(env: Env, k: Config, text: seq<byte>, b: byte, rest: seq<byte>)
    requires k.stop == 0 && k.core.node == L(ResStatus) && k.span == Some(OpenSpan(Status, text))
    requires b == '\r' || b == '\n'
    ensures var next := To(k.core, L(if b == '\n' then OnStatusComplete else ResLineAlmostDone));
            Run(env, k, [b] + rest) == Run(env, Emitted(k, next, [Span(Status, text)], 1).(span := None), rest)
  {
    hide Run, Rank, UrlStep, NameStep, ValueStep, BodyStep;
    assert ([b] + rest)[1..] == rest;
    RunOne(env, k, [b] + rest, Close(To(k.core, L(if b == '\n' then OnStatusComplete else ResLineAlmostDone)), true));
  }

  lemma SkipPhraseFeed(env: Env, k: Config, rest: seq<byte>)
    requires Ready(k) && k.core.node == L(ResLineAlmostDone)
    ensures Run(env, k, ['\n'] + rest) == Run(env, Past(k, To(k.core, L(OnStatusComplete)), 1), rest)
  {
    hide Run, Rank, UrlStep, NameStep, ValueStep, BodyStep;
    assert (['\n'] + rest)[1..] == rest;
    Move(env, k, ['\n'] + rest, To(k.core, L(OnStatusComplete)), true);
  }

  // ---------------------------------------------------------------- line ends

  /** After the CR of a value only an LF goes on. */
  lemma OnlyLineFeed(env: Env, k: Config, b: byte)
    requires Ready(k) && k.core.node == V(ValueAlmostDone) && b as int != 10
    ensures Run(env, k, [b]).stop == 3
  {
    hide Run, Rank, LineStep, UrlStep, NameStep, BodyStep, ListByte;
    RunOne(env, k, [b], FailAt(k.core, 3));
  }

  /** The places where the byte after a CR is skipped, or in a strict parser must be an LF. */
  predicate SkipsLineFeed(n: Node) {
    n == V(DiscardWsAlmostDone) || n == B(HeadersAlmostDone) || n == B(ChunkSizeAlmostDone)
  }

  lemma StrictLineFeed(env: Env, k: Config, b: byte)
    requires Ready(k) && SkipsLineFeed(k.core.node) && b as int != 10
    ensures if env.strict then Run(env, k, [b]).stop == 2
            else Step(false, k.core, Some(b)) == Step(false, k.core, Some('\n'))
  {
    hide Run, Rank, LineStep, UrlStep, NameStep, ListByte;
    if env.strict { RunOne(env, k, [b], FailAt(k.core, 2)); }
  }

  /** After the CR of a reason phrase any one byte is skipped. */
  lemma PhraseReturn(env: Env, k: Config, b: byte, rest: seq<byte>)
    requires Ready(k) && k.core.node == L(ResLineAlmostDone)
    ensures Run(env, k, [b] + rest) == Run(env, Past(k, To(k.core, L(OnStatusComplete)), 1), rest)
  {
    hide Run, Rank, UrlStep, NameStep, ValueStep, BodyStep;
    assert ([b] + rest)[1..] == rest;
    Move(env, k, [b] + rest, To(k.core, L(OnStatusComplete)), true);
  }

  /** After the data of a chunk the strict parser wants CR LF, and the loose one skips any two bytes. */
  lemma ChunkReturn(env: Env, k: Config, a: byte, b: byte)
    requires Ready(k) && k.core.node == B(ChunkDataAlmostDone) && k.core.index == 0
    ensures if !env.strict || [a, b] == ['\r', '\n'] then
              EatAll(env.strict, k.core, [a, b]) == Some(To(k.core, B(OnChunkComplete)))
            else Run(env, k, [a, b]).stop == 2
  {
    hide Run, LineStep, UrlStep, NameStep, ValueStep;
    var next := if env.strict then k.core.(index := 1) else To(k.core, B(ChunkDataAlmostDoneSkip));
    assert [a, b][1..] == [b] && [b][1..] == [];
    if !env.strict || a == '\r' {
      assert Step(env.strict, k.core, Some(a)) == Go(next, true);
      assert Eat(env.strict, k.core, a) == Some(next);
      if !env.strict || b == '\n' {
        assert Step(env.strict, next, Some(b)) == Go(To(k.core, B(OnChunkComplete)), true);
        assert Eat(env.strict, next, b) == Some(To(k.core, B(OnChunkComplete)));
        assert EatAll(env.strict, next, [b]) == Some(To(k.core, B(OnChunkComplete)));
      } else {
        RunOne(env, k, [a, b], Go(next, true));
        RunOne(env, Taken(k.(core := next), a), [b], FailAt(k.core, 2));
      }
    } else {
      RunOne(env, k, [a, b], FailAt(k.core, 2));
    }
  }

  /** After a target, the CR of a line without a version wants its LF. */
  lemma TargetReturn(env: Env, k: Config, b: byte)
    requires Ready(k) && k.core.node == U(UrlSkipLfToHttp09) && k.core.index == 1 && b != '\n'
    ensures Run(env, k, [b]).stop == 7
  {
    hide Run, Rank, LineStep, NameStep, ValueStep, BodyStep;
    RunOne(env, k, [b], FailAt(k.core.(index := 0), 7));
  }

  /** An option of a Connection line that goes on after a space is none of those the parser knows. */
  lemma OptionSpoiled(strict: bool, k: Core, b: byte)
    requires k.node == V(ConnWs) && IsValueByte(b) && b != ' ' && b != ','
    ensures Eat(strict, k, b) == Some(k.(node := V(ConnToken), hs := General))
  {
    hide LineStep, UrlStep, NameStep, BodyStep;
    var next := k.(node := V(ConnToken), hs := General);
    assert Step(strict, k, Some(b)) == Go(next, false);
    assert Step(strict, next, Some(b)) == Go(next, true);
    hide Step;
    assert Eat(strict, next, b) == Some(next);
  }

  /** Line ends before a message are skipped, however many. */
  lemma {:induction false} LeadingLines(env: Env, k: Config, blank: seq<byte>, rest: seq<byte>)
    requires Ready(k) && k.core.node == L(Start)
    requires forall i :: 0 <= i < |blank| ==> blank[i] == '\r' || blank[i] == '\n'
    ensures Run(env, k, blank + rest) == Run(env, Past(k, k.core, |blank|), rest)
  {
    var cores := (i: nat) => k.core;
    hide Run, UrlStep, NameStep, ValueStep, BodyStep;
    forall i | 0 <= i < |blank| ensures Step(env.strict, cores(i), Some(blank[i])) == Go(cores(i + 1), true) {}
    hide Step;
    RunGlide(env, k, cores, blank, rest);
  }

  /** After the last message of a connection every byte is thrown away. */
  lemma {:induction false} ClosedDiscards(env: Env, k: Config, data: seq<byte>)
    requires Ready(k) && k.core.node == B(Closed)
    ensures Run(env, k, data) == Past(k, k.core, |data|)
  {
    var cores := (i: nat) => k.core;
    hide Run, LineStep, UrlStep, NameStep, ValueStep;
    forall i | 0 <= i < |data| ensures Step(env.strict, cores(i), Some(data[i])) == Go(cores(i + 1), true) {}
    assert Step(env.strict, k.core, None) == Wait;
    hide Step;
    RunGlide(env, k, cores, data, []);
    assert data + [] == data;
    ClosedWaits(env, Past(k, k.core, |data|));
  }

  lemma ClosedWaits(env: Env, k: Config)
    requires k.stop == 0 && Step(env.strict, k.core, None).Wait?
    ensures Run(env, k, []) == k
  {
    hide Step;
  }

  /** The places between lines where an LF alone does what CR LF does. */
  predicate EndsLine(n: Node) { n in {L(ReqHttpComplete), L(ResStatusStart), N(FieldStart), V(DiscardWs)} }

  /** Where the CR leads, and where the LF. */
  function AfterReturn(n: Node): Node
    requires EndsLine(n)
  {
    match n
    case N(_) => B(HeadersAlmostDone)
    case V(_) => V(DiscardWsAlmostDone)
    case _ => if n == L(ReqHttpComplete) then L(ReqHttpComplete1) else L(ResLineAlmostDone)
  }

  function AfterLine(n: Node): Node
    requires EndsLine(n)
  {
    match n
    case N(_) => B(TestFlags)
    case V(_) => V(DiscardLws)
    case _ => if n == L(ReqHttpComplete) then N(FieldStart) else L(OnStatusComplete)
  }

  lemma LineFeedAlone(strict: bool, k: Core)
    requires EndsLine(k.node)
    ensures EatAll(strict, k, ['\r', '\n']) == EatAll(strict, k, ['\n']) == Some(To(k, AfterLine(k.node)))
  {
    var middle, next := AfterReturn(k.node), AfterLine(k.node);
    AfterEither(strict, k);
    hide Eat, EndsLine, AfterReturn, AfterLine;
    assert ['\r', '\n'][1..] == ['\n'] && ['\n'][1..] == [];
    assert EatAll(strict, To(k, middle), ['\n']) == Some(To(k, next));
  }

  lemma AfterEither(strict: bool, k: Core)
    requires EndsLine(k.node)
    ensures Eat(strict, k, '\r') == Some(To(k, AfterReturn(k.node)))
    ensures Eat(strict, To(k, AfterReturn(k.node)), '\n') == Some(To(k, AfterLine(k.node)))
    ensures Eat(strict, k, '\n') == Some(To(k, AfterLine(k.node)))
  {
    var middle, next := AfterReturn(k.node), AfterLine(k.node);
    hide UrlStep, ListByte;
    assert Step(strict, k, Some('\r')) == Go(To(k, middle), true);
    assert Step(strict, To(k, middle), Some('\n')) == Go(To(k, next), true);
    assert Step(strict, k, Some('\n')) == if k.node.N? then Go(To(k, middle), false) else Go(To(k, next), true);
    hide Step;
  }

  /** The places where spaces are skipped, and those where tabs are too. */
  predicate SkipsSpaces(n: Node) { n in {L(ReqSpaces), L(ReqHttpStart), V(DiscardWs), V(LengthWs)} }

  lemma SpacesSkipped(env: Env, k: Config, blank: seq<byte>, rest: seq<byte>)
    requires k.stop == 0 && SkipsSpaces(k.core.node)
    requires forall i :: 0 <= i < |blank| ==> blank[i] == ' ' || (blank[i] == '\t' && k.core.node == V(DiscardWs))
    ensures Run(env, k, blank + rest) == Run(env, Moved(k, k.core, blank), rest)
  {
    var cores := (i: nat) => k.core;
    hide Run, UrlStep, NameStep, BodyStep, ListByte;
    forall i | 0 <= i < |blank| ensures Step(env.strict, cores(i), Some(blank[i])) == Go(cores(i + 1), true) {}
    hide Step;
    RunGlide(env, k, cores, blank, rest);
  }

  // ---------------------------------------------------------------- versions

  /** The bytes that go on, in the states from the first number of a version to the end of its line. */
  function GoOn(n: LineNode): seq<byte> {
    match n
    case ReqMajor => DECIMAL case ReqMinor => DECIMAL case ResMajor => DECIMAL case ResMinor => DECIMAL
    case ReqDot => "." case ResDot => "." case ResHttpEnd => " "
    case ReqHttpComplete => "\r\n" case ReqHttpComplete1 => "\n"
    case _ => []
  }

  /** Any other is refused. */
  lemma VersionRefused(env: Env, k: Config, n: LineNode, b: byte)
    requires Ready(k) && k.core.node == L(n) && GoOn(n) != [] && b !in GoOn(n)
    ensures Run(env, k, [b]).stop == 9
  {
    DigitsDecimal(b);
    hide Run, Rank, UrlStep, NameStep, ValueStep, BodyStep, DECIMAL;
    RunOne(env, k, [b], FailAt(k.core, 9));
  }

  /** The states inside the name of a protocol, and those that choose one. */
  predicate OfProtocol(n: Node) {
    n in {L(ReqHttpStart1), L(ReqHttpStart2), L(ReqHttpStart3), L(StartRes), L(ReqOrResMethod2), L(ReqOrResMethod3)}
  }

  lemma ProtocolRefused(env: Env, k: Config, b: byte)
    requires Ready(k)
    requires (k.core.node == L(ReqHttpStart) && b !in [' ', 'H', 'I', 'R'])
          || (k.core.node == L(ReqOrResMethod1) && b !in ['E', 'T'])
          || (OfProtocol(k.core.node) && k.core.index < |MatcherOf(k.core.node).text|
              && b != MatcherOf(k.core.node).text[k.core.index])
    ensures Run(env, k, [b]).stop == 8
  {
    hide Run, Rank, UrlStep, NameStep, ValueStep, BodyStep;
    var a := Step(env.strict, k.core, Some(b));
    assert a.Fail? && a.code == 8;
    RunOne(env, k, [b], a);
  }
}
