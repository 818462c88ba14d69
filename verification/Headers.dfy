/**
  Header sections by what their lines mean: every kind of line, and the registers after any list of them.
*/
module Headers {
  import opened Http
  import opened Machine
  import opened Numbers
  import opened Automaton
  import opened Semantics
  import opened Invariants
  import opened Lengths
  import opened Bodies
  import opened Fields
  import opened Lists
  import opened Printer

  // ---------------------------------------------------------------- header lines by what they mean

  datatype Header =
    | Plain(name: seq<byte>, value: seq<byte>)
    | Counted(name: seq<byte>, digits: seq<byte>)
    | Coded(name: seq<byte>, codings: seq<Element>)
    | Optional(name: seq<byte>, options: seq<Element>)
    | Upgrading(name: seq<byte>, value: seq<byte>)

  /** A value as it is sent, possibly empty. */
  predicate IsTrimmed(value: seq<byte>) { IsValue(value) && (value != [] ==> value[0] != SP && value[0] != HT) }

  predicate IsHeader(h: Header) {
    && IsToken(h.name)
    && (match h
        case Plain(name, value) => ClassOf(LowerAll(name)) == General && IsTrimmed(value)
        case Counted(name, digits) => LowerAll(name) == CONTENT_LENGTH && digits != [] && AllDigits(digits)
        case Coded(name, codings) => LowerAll(name) == TRANSFER_ENCODING && IsList(codings)
        case Optional(name, options) => ClassOf(LowerAll(name)) == Connection && IsList(options)
        case Upgrading(name, value) => LowerAll(name) == UPGRADE && IsTrimmed(value))
  }

  function ValueText(h: Header): seq<byte>
    requires IsHeader(h)
  {
    match h
    case Plain(_, value) => value
    case Counted(_, digits) => digits
    case Coded(_, codings) => Written(codings)
    case Optional(_, options) => Written(options)
    case Upgrading(_, value) => value
  }

  function AsKeyValue(h: Header): KeyValue
    requires IsHeader(h)
  {
    KeyValue(h.name, ValueText(h))
  }

  function AsKeyValues(hs: seq<Header>): (r: seq<KeyValue>)
    requires forall i :: 0 <= i < |hs| ==> IsHeader(hs[i])
    ensures |r| == |hs|
  {
    if hs == [] then [] else AsKeyValues(hs[..|hs| - 1]) + [AsKeyValue(hs[|hs| - 1])]
  }

  /** What the header lines so far mean for the framing. */
  datatype Seen = Seen(flags: Flags, length: nat)

  function SeenAt(k: Core): Seen { Seen(k.flags, k.length) }

  function See(s: Seen, h: Header): Seen
    requires IsHeader(h)
  {
    match h
    case Plain(_, _) => s
    case Counted(_, digits) => Seen(s.flags.(contentLength := true), Extended(10, s.length, DigitVals(digits)))
    case Coded(_, codings) =>
      s.(flags := s.flags.(transferEncoding := true, chunked := IsChunkedToken(LastToken(codings))))
    case Optional(_, options) => s.(flags := WithOptions(s.flags, options))
    case Upgrading(_, value) => s.(flags := s.flags.(upgrade := s.flags.upgrade || value != []))
  }

  function SeeAll(s: Seen, hs: seq<Header>): Seen
    requires forall i :: 0 <= i < |hs| ==> IsHeader(hs[i])
  {
    if hs == [] then s else See(SeeAll(s, hs[..|hs| - 1]), hs[|hs| - 1])
  }

  /** The registers agree with what was seen; the header state is left over from the last line. */
  predicate Shows(k: Core, was: Core, s: Seen) {
    k == was.(node := N(FieldStart), hs := k.hs, flags := s.flags, length := s.length)
  }

  function LineEvents(h: KeyValue): seq<Event> {
    [Span(HeaderField, h.key), HeaderFieldComplete, Span(HeaderValue, h.value), HeaderValueComplete]
  }

  // ---------------------------------------------------------------- one line

  lemma {:induction false} PlainEats(strict: bool, k: Core, value: seq<byte>)
    requires k.node == V(Value) && IsValue(value)
    ensures EatAll(strict, k, value) == Some(k)
    decreases |value|
  {
    if value != [] {
      PlainEatsByte(strict, k, value[0]);
      hide Eat;
      PlainEats(strict, k, value[1..]);
    }
  }

  lemma PlainEatsByte(strict: bool, k: Core, b: byte)
    requires k.node == V(Value) && IsValueByte(b)
    ensures Eat(strict, k, b) == Some(k)
  {
    hide LineStep, UrlStep, NameStep, BodyStep;
    assert Step(strict, k, Some(b)) == Go(k, true);
  }

  /** The registers after a value that no list or number automaton reads. */
  function AfterPlain(k: Core, value: seq<byte>): Core {
    if value == [] then To(k, N(FieldStart))
    else k.(node := N(FieldStart), hs := General,
            flags := k.flags.(upgrade := k.flags.upgrade || k.hs == HeaderState.Upgrade))
  }

  lemma ReadNonEmpty(env: Env, k: Config, value: seq<byte>, rest: seq<byte>)
    requires Ready(k) && k.core.node == V(DiscardWs) && k.core.index == 0 && Coherent(env.strict, k.core)
    requires k.core.hs == General || k.core.hs == HeaderState.Upgrade
    requires IsTrimmed(value) && value != [] && Unfolded(rest)
    ensures var events := [Span(HeaderValue, value), HeaderValueComplete];
            Run(env, k, value + CRLF + rest)
                == Run(env, Emitted(k, AfterPlain(k.core, value), events, |value| + 2), rest)
  {
    FirstOfValue(value);
    PlainOpened(env.strict, k.core, value);
    PlainEats(env.strict, ValueOpened(k.core), value);
    hide Run, Rank, Step, Eat, EatAll, AtEnd, ValueOpened, Settle, Coherent, InValue, IsTrimmed, AfterPlain, To;
    ReadWholeValue(env, k, value, rest);
  }

  lemma ReadPlain(env: Env, k: Config, value: seq<byte>, rest: seq<byte>)
    requires Ready(k) && k.core.node == V(DiscardWs) && k.core.index == 0 && Coherent(env.strict, k.core)
    requires k.core.hs == General || k.core.hs == HeaderState.Upgrade
    requires IsTrimmed(value) && Unfolded(rest)
    ensures var events := [Span(HeaderValue, value), HeaderValueComplete];
            Run(env, k, value + CRLF + rest)
                == Run(env, Emitted(k, AfterPlain(k.core, value), events, |value| + 2), rest)
  {
    hide Run, Rank, Step, Coherent, IsTrimmed, Unfolded, To, Emitted;
    if value == [] {
      assert value + CRLF == CRLF;
      ReadEmptyValue(env, k, rest);
    } else {
      ReadNonEmpty(env, k, value, rest);
    }
  }

  lemma FirstOfValue(value: seq<byte>)
    requires IsTrimmed(value) && value != []
    ensures Unfolded(value) && IsValue(value) && value[0] != CR && value[0] != LF
  {
    assert IsValueByte(value[0]);
  }

  lemma PlainOpened(strict: bool, k: Core, value: seq<byte>)
    requires (k.hs == General || k.hs == HeaderState.Upgrade) && k.index == 0 && Coherent(strict, k) && value != []
    ensures ValueOpened(k).node == V(Value) && Coherent(strict, ValueOpened(k)) && InValue(ValueOpened(k).node)
    ensures To(Settle(AtEnd(ValueOpened(k))), N(FieldStart)) == AfterPlain(k, value)
  {
    match k.hs {
      case General =>
      case _ =>
    }
  }

  lemma ReadLengthStart(env: Env, k: Config, buf: seq<byte>)
    requires Ready(k) && k.core.node == V(DiscardWs) && k.core.hs == ContentLength && !k.core.flags.contentLength
    requires buf != [] && IsDigit(buf[0])
    ensures Run(env, k, buf)
         == Run(env, k.(core := To(k.core, V(Length)), span := Some(OpenSpan(HeaderValue, []))), buf)
  {
    hide Run, Rank, LineStep, UrlStep, NameStep, BodyStep, ListByte;
    RunOne(env, k, buf, Go(To(k.core, V(SpanStartValue)), false));
    var k1 := k.(core := To(k.core, V(SpanStartValue)));
    RunOne(env, k1, buf, Open(HeaderValue, To(k.core, V(LoadHeaderState))));
    var k2 := k.(core := To(k.core, V(LoadHeaderState)), span := Some(OpenSpan(HeaderValue, [])));
    RunOne(env, k2, buf, Go(To(k.core, V(Length)), false));
  }

  lemma ReadLengthEnd(env: Env, k: Config, value: seq<byte>, rest: seq<byte>)
    requires k.stop == 0 && k.span == Some(OpenSpan(HeaderValue, value)) && k.core.node == V(Length)
    requires k.core.hs == ContentLength && Unfolded(rest)
    ensures Run(env, k, CRLF + rest)
         == Run(env, k.(core := k.core.(node := N(FieldStart), flags := k.core.flags.(contentLength := true)),
                        span := None, trace := k.trace + [Span(HeaderValue, value), HeaderValueComplete],
                        pos := k.pos + 2), rest)
  {
    hide Run, Rank, LineStep, UrlStep, NameStep, BodyStep, ListByte;
    var core := k.core.(flags := k.core.flags.(contentLength := true));
    RunOne(env, k, CRLF + rest, Go(To(k.core, V(LengthWs)), false));
    RunOne(env, k.(core := To(k.core, V(LengthWs))), CRLF + rest, Go(To(core, V(ValueOtherwise)), false));
    ReadCrlf(env, k.(core := To(core, V(ValueOtherwise))), value, rest);
    LengthLineEnds(env, k.(core := To(core, V(ValueLws)), span := None, trace := k.trace + [Span(HeaderValue, value)],
                           pos := k.pos + 2), rest);
    assert k.trace + [Span(HeaderValue, value)] + [HeaderValueComplete]
        == k.trace + [Span(HeaderValue, value), HeaderValueComplete];
  }

  lemma LengthLineEnds(env: Env, k: Config, rest: seq<byte>)
    requires Ready(k) && k.core.node == V(ValueLws) && k.core.hs == ContentLength && Unfolded(rest)
    ensures Run(env, k, rest) == Run(env, Emitted(k, To(k.core, N(FieldStart)), [HeaderValueComplete], 0), rest)
  {
    hide Run, Rank, LineStep, UrlStep, NameStep, BodyStep, ListByte;
    Move(env, k, rest, To(k.core, V(OnValueComplete)), false);
    Notified(env, Past(k, To(k.core, V(OnValueComplete)), 0), rest, HeaderValueComplete, To(k.core, N(FieldStart)),
        None);
  }

  /**
    A first Content-Length line: the digits are read on after whatever count the register holds, and the
    parser stops if the result needs more than 64 bits.
  */
  lemma ReadContentLength(env: Env, k: Config, digits: seq<byte>, rest: seq<byte>)
    requires Ready(k) && k.core.node == V(DiscardWs) && k.core.hs == ContentLength && !k.core.flags.contentLength
    requires k.core.length <= MAX_U64 && digits != [] && AllDigits(digits) && Unfolded(rest)
    ensures var value := Extended(10, k.core.length, DigitVals(digits));
            var core := k.core.(node := N(FieldStart), flags := k.core.flags.(contentLength := true), length := value);
            var events := [Span(HeaderValue, digits), HeaderValueComplete];
            if value <= MAX_U64 then
              Run(env, k, digits + CRLF + rest) == Run(env, Emitted(k, core, events, |digits| + 2), rest)
            else
              Run(env, k, digits + CRLF + rest).stop == 11
  {
    hide Run, Rank, Step, Extended, Unfolded, DigitVals;
    var value := Extended(10, k.core.length, DigitVals(digits));
    LineJoined(digits, rest);
    assert (digits + (CRLF + rest))[0] == digits[0];
    ReadLengthStart(env, k, digits + (CRLF + rest));
    var k1 := k.(core := To(k.core, V(Length)), span := Some(OpenSpan(HeaderValue, [])));
    ReadLength(env, k1, digits, CRLF + rest);
    if value <= MAX_U64 {
      var k2 := k.(core := To(k.core.(length := value), V(Length)), span := Some(OpenSpan(HeaderValue, digits)),
                   pos := k.pos + |digits|);
      assert Moved(k1, k1.core.(length := value), digits) == k2 by { assert [] + digits == digits; }
      ReadLengthEnd(env, k2, digits, rest);
      var core := k.core.(node := N(FieldStart), flags := k.core.flags.(contentLength := true), length := value);
      var events := [Span(HeaderValue, digits), HeaderValueComplete];
      assert k2.(core := core, span := None, trace := k2.trace + events, pos := k2.pos + 2)
          == Emitted(k, core, events, |digits| + 2);
    }
  }

  /** A second Content-Length line stops the parser at its value. */
  lemma SecondContentLength(env: Env, k: Config, digits: seq<byte>, rest: seq<byte>)
    requires Ready(k) && k.core.node == V(DiscardWs) && k.core.hs == ContentLength && k.core.flags.contentLength
    requires digits != [] && AllDigits(digits)
    ensures var r := Run(env, k, digits + rest);
            r.stop == 4 && r.pos == k.pos && r.trace == k.trace
  {
    hide Run, Rank, LineStep, UrlStep, NameStep, BodyStep, ListByte;
    var buf := digits + rest;
    assert buf[0] == digits[0];
    RunOne(env, k, buf, Go(To(k.core, V(SpanStartValue)), false));
    var k1 := k.(core := To(k.core, V(SpanStartValue)));
    RunOne(env, k1, buf, Open(HeaderValue, To(k.core, V(LoadHeaderState))));
    var k2 := k.(core := To(k.core, V(LoadHeaderState)), span := Some(OpenSpan(HeaderValue, [])));
    RunOne(env, k2, buf, FailAt(k2.core, HPE_UNEXPECTED_CONTENT_LENGTH));
  }

  // ---------------------------------------------------------------- the header section

  /** A Content-Length line that can be read: the first one, and a value of at most 64 bits. */
  predicate Fresh(s: Seen, h: Header)
    requires IsHeader(h)
  {
    h.Counted? ==> !s.flags.contentLength && Extended(10, s.length, DigitVals(h.digits)) <= MAX_U64
  }

  /** The registers after a line other than a Connection line, from those after its name. */
  function After(k: Core, h: Header): Core
    requires IsHeader(h) && !h.Optional?
  {
    match h
    case Plain(_, value) => AfterPlain(k, value)
    case Upgrading(_, value) => AfterPlain(k, value)
    case Counted(_, digits) =>
      k.(node := N(FieldStart), flags := k.flags.(contentLength := true),
         length := Extended(10, k.length, DigitVals(digits)))
    case Coded(_, codings) => Lists.Coded(k, IsChunkedToken(LastToken(codings)))
  }

  lemma AfterShows(k: Core, h: Header)
    requires IsHeader(h) && !h.Optional? && k.hs == ClassOf(LowerAll(h.name))
    ensures Shows(After(k, h), k, See(SeenAt(k), h))
  {
    NamesDiffer();
    hide ClassOf, LowerAll, Extended, DigitVals, IsChunkedToken, LastToken;
  }

  /** The value of a header that is no Connection header. */
  lemma ReadOtherValue(env: Env, k: Config, h: Header, rest: seq<byte>)
    requires Ready(k) && k.core.node == V(DiscardWs) && k.core.index == 0 && Coherent(env.strict, k.core)
    requires IsHeader(h) && k.core.hs == ClassOf(LowerAll(h.name)) && Unfolded(rest) && Fresh(SeenAt(k.core), h)
    requires !h.Optional?
    ensures var value, events := ValueText(h), [Span(HeaderValue, ValueText(h)), HeaderValueComplete];
            Run(env, k, value + CRLF + rest) == Run(env, Emitted(k, After(k.core, h), events, |value| + 2), rest)
  {
    hide Run, Rank, Step, Coherent, Unfolded, IsList, Written, LowerAll, DigitVals, Extended, IsTrimmed, IsToken,
         LastToken, IsChunkedToken, ClassOf, Emitted, AfterPlain;
    NamesDiffer();
    CoherentLength(env.strict, k.core);
    match h
    case Plain(_, value) => ReadPlain(env, k, value, rest);
    case Upgrading(_, value) => ReadPlain(env, k, value, rest);
    case Counted(_, digits) => ReadContentLength(env, k, digits, rest);
    case Coded(_, codings) => ReadTransferEncoding(env, k, codings, rest);
  }

  /** The value of a header, whichever automaton its name has chosen. */
  lemma ReadValueOf(env: Env, k: Config, h: Header, rest: seq<byte>) returns (core: Core)
    requires Ready(k) && k.core.node == V(DiscardWs) && k.core.index == 0 && Coherent(env.strict, k.core)
    requires IsHeader(h) && k.core.hs == ClassOf(LowerAll(h.name)) && Unfolded(rest) && Fresh(SeenAt(k.core), h)
    ensures Shows(core, k.core, See(SeenAt(k.core), h))
    ensures var value, events := ValueText(h), [Span(HeaderValue, ValueText(h)), HeaderValueComplete];
            Run(env, k, value + CRLF + rest) == Run(env, Emitted(k, core, events, |value| + 2), rest)
  {
    hide Run, Rank, Step, Coherent, Unfolded, IsList, Written, LowerAll, DigitVals, Extended, IsTrimmed, IsToken,
         WithOptions, LastToken, IsChunkedToken, ClassOf, Emitted, AfterPlain, Fresh, After;
    if h.Optional? {
      core := ReadConnection(env, k, h.options, rest);
    } else {
      core := After(k.core, h);
      AfterShows(k.core, h);
      ReadOtherValue(env, k, h, rest);
    }
  }

  lemma CoherentLength(strict: bool, k: Core)
    requires Coherent(strict, k)
    ensures k.length <= MAX_U64
  {
  }

  lemma NamesDiffer()
    ensures ClassOf(CONTENT_LENGTH) == ContentLength && ClassOf(TRANSFER_ENCODING) == TransferEncoding
    ensures ClassOf(UPGRADE) == HeaderState.Upgrade
  {
  }

  lemma ShownCoherent(strict: bool, was: Core, core: Core, s: Seen)
    requires Coherent(strict, was) && was.index == 0 && Shows(core, was, s) && s.length <= MAX_U64
    ensures Coherent(strict, core)
  {
  }

  /** A whole header line. */
  lemma ReadHeader(env: Env, k: Config, h: Header, rest: seq<byte>) returns (core: Core)
    requires AtField(env.strict, k) && IsHeader(h) && Unfolded(rest) && Fresh(SeenAt(k.core), h)
    ensures Shows(core, k.core, See(SeenAt(k.core), h)) && Coherent(env.strict, core)
    ensures var line := AsKeyValue(h);
            Run(env, k, Printer.Line(line) + rest)
                == Run(env, Emitted(k, core, LineEvents(line), |Printer.Line(line)|), rest)
  {
    hide Run, Rank, Step, LowerAll, ValueText, See, Unfolded, ClassOf, Fresh;
    var value, hs := ValueText(h), ClassOf(LowerAll(h.name));
    var afterName := [SP] + (value + CRLF + rest);
    assert Printer.Line(AsKeyValue(h)) + rest == h.name + [':'] + afterName;
    assert IsToken(h.name);
    ReadName(env, k, h.name, afterName);
    var events := [Span(HeaderField, h.name), HeaderFieldComplete];
    var k1 := Emitted(k, k.core.(node := V(DiscardWs), hs := hs), events, |h.name| + 1);
    SpaceSkipped(env, k1, value + CRLF + rest);
    var k2 := Past(k1, k1.core, 1);
    NameCoherent(env.strict, k.core, hs);
    core := ReadValueOf(env, k2, h, rest);
    SeenSmall(k.core, h);
    ShownCoherent(env.strict, k.core, core, See(SeenAt(k.core), h));
    hide Coherent, IsHeader, AtField;
    assert k.trace + events + [Span(HeaderValue, value), HeaderValueComplete] == k.trace + LineEvents(AsKeyValue(h));
  }

  lemma NameCoherent(strict: bool, k: Core, hs: HeaderState)
    requires Coherent(strict, k) && k.index == 0
    ensures Coherent(strict, k.(node := V(DiscardWs), hs := hs))
  {
  }

  lemma SeenSmall(k: Core, h: Header)
    requires IsHeader(h) && k.length <= MAX_U64 && Fresh(SeenAt(k), h)
    ensures See(SeenAt(k), h).length <= MAX_U64
  {
  }

  /** Header lines that can all be read: at most one Content-Length, with a value of at most 64 bits. */
  predicate Readable(s: Seen, hs: seq<Header>) {
    && (forall i :: 0 <= i < |hs| ==> IsHeader(hs[i]))
    && (hs != [] ==> Readable(s, hs[..|hs| - 1]) && Fresh(SeeAll(s, hs[..|hs| - 1]), hs[|hs| - 1]))
  }

  /** A list of header lines, up to the byte after them. */
  lemma {:induction false} ReadHeaders(env: Env, k: Config, hs: seq<Header>, rest: seq<byte>) returns (core: Core)
    requires AtField(env.strict, k) && Readable(SeenAt(k.core), hs) && Unfolded(rest)
    ensures Shows(core, k.core, SeeAll(SeenAt(k.core), hs)) && Coherent(env.strict, core)
    ensures var lines := AsKeyValues(hs);
            Run(env, k, Printed(lines) + rest) == Run(env, Emitted(k, core, FieldEvents(lines), |Printed(lines)|), rest)
    decreases |hs|
  {
    hide Run, Rank, Step, Unfolded, IsHeader, See, Fresh, ValueText, Coherent;
    if hs == [] {
      assert Printed([]) + rest == rest && k.trace + [] == k.trace;
      core := k.core;
    } else {
      var front, h := hs[..|hs| - 1], hs[|hs| - 1];
      var lines, line := AsKeyValues(front), AsKeyValue(h);
      assert AsKeyValues(hs) == lines + [line] && (lines + [line])[..|lines|] == lines;
      HeaderUnfolds(h, rest);
      assert Printed(lines) + Printer.Line(line) + rest == Printed(lines) + (Printer.Line(line) + rest);
      assert Printed(lines + [line]) == Printed(lines) + Printer.Line(line);
      assert FieldEvents(lines + [line]) == FieldEvents(lines) + LineEvents(line);
      hide Printed, FieldEvents, Printer.Line, LineEvents;
      var m := ReadHeaders(env, k, front, Printer.Line(line) + rest);
      var k1 := Emitted(k, m, FieldEvents(lines), |Printed(lines)|);
      core := ReadHeader(env, k1, h, rest);
      assert k.trace + FieldEvents(lines) + LineEvents(line) == k.trace + (FieldEvents(lines) + LineEvents(line));
      assert Emitted(k1, core, LineEvents(line), |Printer.Line(line)|)
          == Emitted(k, core, FieldEvents(lines + [line]), |Printed(lines + [line])|);
    }
  }

  lemma HeaderUnfolds(h: Header, rest: seq<byte>)
    requires IsHeader(h)
    ensures Unfolded(Printer.Line(AsKeyValue(h)) + rest)
  {
    var text := Printer.Line(AsKeyValue(h)) + rest;
    assert text[0] == if h.name == [] then ':' else h.name[0];
    if h.name != [] { assert IsTokenByte(h.name[0]); }
  }

  // ---------------------------------------------------------------- what the lines say together

  /** The final coding of the last Transfer-Encoding line. */
  function FinalCoding(hs: seq<Header>): Option<seq<byte>>
    requires forall i :: 0 <= i < |hs| ==> IsHeader(hs[i])
  {
    if hs == [] then None else
    var h := hs[|hs| - 1];
    assert IsHeader(h);
    if h.Coded? then Some(LastToken(h.codings)) else FinalCoding(hs[..|hs| - 1])
  }

  predicate EndsInChunked(hs: seq<Header>)
    requires forall i :: 0 <= i < |hs| ==> IsHeader(hs[i])
  {
    FinalCoding(hs).Some? && IsChunkedToken(FinalCoding(hs).value)
  }

  /** The digits of the Content-Length line. */
  function LengthDigits(hs: seq<Header>): Option<seq<nat>>
    requires forall i :: 0 <= i < |hs| ==> IsHeader(hs[i])
  {
    if hs == [] then None else
    var h := hs[|hs| - 1];
    assert IsHeader(h);
    if h.Counted? then Some(DigitVals(h.digits)) else LengthDigits(hs[..|hs| - 1])
  }

  /** The announced length, 0 if none is. */
  function Announced(hs: seq<Header>): nat
    requires forall i :: 0 <= i < |hs| ==> IsHeader(hs[i])
  {
    if LengthDigits(hs).Some? then Denotes(10, LengthDigits(hs).value) else 0
  }

  /** Some Connection line has the option. */
  predicate Asks(hs: seq<Header>, option: seq<byte>) {
    exists i :: 0 <= i < |hs| && hs[i].Optional? && HasOption(hs[i].options, option)
  }

  /** Some Upgrade line names a protocol. */
  predicate NamesProtocol(hs: seq<Header>) {
    exists i :: 0 <= i < |hs| && hs[i].Upgrading? && hs[i].value != []
  }

  lemma AsksLast(hs: seq<Header>, option: seq<byte>)
    requires hs != []
    ensures var h := hs[|hs| - 1];
            Asks(hs, option) <==> Asks(hs[..|hs| - 1], option) || (h.Optional? && HasOption(h.options, option))
  {
    hide HasOption;
    var front := hs[..|hs| - 1];
    if Asks(front, option) {
      var i :| 0 <= i < |front| && front[i].Optional? && HasOption(front[i].options, option);
      assert hs[i] == front[i];
    }
    if Asks(hs, option) {
      var i :| 0 <= i < |hs| && hs[i].Optional? && HasOption(hs[i].options, option);
      if i < |front| { assert front[i] == hs[i]; }
    }
  }

  lemma NamesProtocolLast(hs: seq<Header>)
    requires hs != []
    ensures var h := hs[|hs| - 1];
            NamesProtocol(hs) <==> NamesProtocol(hs[..|hs| - 1]) || (h.Upgrading? && h.value != [])
  {
    var front := hs[..|hs| - 1];
    if NamesProtocol(front) {
      var i :| 0 <= i < |front| && front[i].Upgrading? && front[i].value != [];
      assert hs[i] == front[i];
    }
    if NamesProtocol(hs) {
      var i :| 0 <= i < |hs| && hs[i].Upgrading? && hs[i].value != [];
      if i < |front| { assert front[i] == hs[i]; }
    }
  }

  /** The flags that frame a message. */
  function WithFraming(f: Flags, coding: bool, chunked: bool, length: bool, protocol: bool): Flags {
    f.(transferEncoding := coding, chunked := chunked, contentLength := length, upgrade := protocol)
  }

  lemma AddedAnyOrder(f: Flags, coding: bool, chunked: bool, length: bool, protocol: bool, a: bool, b: bool, c: bool)
    ensures Added(WithFraming(f, coding, chunked, length, protocol), a, b, c)
         == WithFraming(Added(f, a, b, c), coding, chunked, length, protocol)
  {
  }

  /** The flags once a list of lines has been added. */
  function Merged(f: Flags, hs: seq<Header>): Flags
    requires forall i :: 0 <= i < |hs| ==> IsHeader(hs[i])
  {
    WithFraming(Added(f, Asks(hs, CLOSE), Asks(hs, KEEP_ALIVE), Asks(hs, UPGRADE)),
            f.transferEncoding || FinalCoding(hs).Some?, if FinalCoding(hs).Some? then EndsInChunked(hs) else f.chunked,
            f.contentLength || LengthDigits(hs).Some?, f.upgrade || NamesProtocol(hs))
  }

  /** What a list of lines makes of the registers before it. */
  function Summary(s: Seen, hs: seq<Header>): Seen
    requires forall i :: 0 <= i < |hs| ==> IsHeader(hs[i])
  {
    var digits := LengthDigits(hs);
    Seen(Merged(s.flags, hs), if digits.Some? then Extended(10, s.length, digits.value) else s.length)
  }

  /** The registers after a header section say exactly what its lines say. */
  lemma {:induction false} SeenMeans(s: Seen, hs: seq<Header>)
    requires Readable(s, hs)
    ensures SeeAll(s, hs) == Summary(s, hs)
    decreases |hs|
  {
    if hs != [] {
      var front, h := hs[..|hs| - 1], hs[|hs| - 1];
      SeenMeans(s, front);
      SeeLast(s, hs);
      hide SeeAll, Summary;
    }
  }

  /** One more line, on top of what the lines before it say. */
  lemma SeeLast(s: Seen, hs: seq<Header>)
    requires hs != [] && Readable(s, hs) && SeeAll(s, hs[..|hs| - 1]) == Summary(s, hs[..|hs| - 1])
    ensures SeeAll(s, hs) == Summary(s, hs)
  {
    AsksLast(hs, CLOSE);
    AsksLast(hs, KEEP_ALIVE);
    AsksLast(hs, UPGRADE);
    hide Summary, SeeAll, Asks, IsHeader, HasOption;
    if hs[|hs| - 1].Optional? { SeeOption(s, hs); } else { SeeOther(s, hs); }
  }

  lemma SeeOption(s: Seen, hs: seq<Header>)
    requires hs != [] && Readable(s, hs) && SeeAll(s, hs[..|hs| - 1]) == Summary(s, hs[..|hs| - 1])
    requires hs[|hs| - 1].Optional?
    ensures SeeAll(s, hs) == Summary(s, hs)
  {
    hide Asks, NamesProtocol, IsChunkedToken, LastToken, Extended, DigitVals, HasOption, IsHeader, Added,
         WithFraming, CLOSE, KEEP_ALIVE, UPGRADE;
    var front, f, opts := hs[..|hs| - 1], s.flags, hs[|hs| - 1].options;
    AsksLast(hs, CLOSE);
    AsksLast(hs, KEEP_ALIVE);
    AsksLast(hs, UPGRADE);
    NamesProtocolLast(hs);
    var a, b, c := HasOption(opts, CLOSE), HasOption(opts, KEEP_ALIVE), HasOption(opts, UPGRADE);
    AddedTwice(f, Asks(front, CLOSE), Asks(front, KEEP_ALIVE), Asks(front, UPGRADE), a, b, c);
    AddedAnyOrder(Added(f, Asks(front, CLOSE), Asks(front, KEEP_ALIVE), Asks(front, UPGRADE)),
                  f.transferEncoding || FinalCoding(front).Some?,
                  if FinalCoding(front).Some? then EndsInChunked(front) else f.chunked,
                  f.contentLength || LengthDigits(front).Some?, f.upgrade || NamesProtocol(front), a, b, c);
  }

  lemma SeeOther(s: Seen, hs: seq<Header>)
    requires hs != [] && Readable(s, hs) && SeeAll(s, hs[..|hs| - 1]) == Summary(s, hs[..|hs| - 1])
    requires var front := hs[..|hs| - 1];
             && Asks(hs, CLOSE) == Asks(front, CLOSE) && Asks(hs, KEEP_ALIVE) == Asks(front, KEEP_ALIVE)
             && Asks(hs, UPGRADE) == Asks(front, UPGRADE)
    requires !hs[|hs| - 1].Optional?
    ensures SeeAll(s, hs) == Summary(s, hs)
  {
    NamesProtocolLast(hs);
    hide Asks, NamesProtocol, IsChunkedToken, LastToken, Extended, DigitVals, HasOption, IsHeader, Added;
  }
}
