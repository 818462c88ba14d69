/**
  Header values over several lines: a line that begins with a space or a tab continues the value before it
  (3rd/llhttp/llhttp.c:9178-9267).
*/
module Folding {
  import opened Http
  import opened Machine
  import opened Automaton
  import opened Semantics
  import opened Invariants
  import opened Bodies
  import opened Fields
  import opened Printer

  /** A value line by line: the first one trimmed, every other one begun by a space or a tab. */
  predicate IsFolded(lines: seq<seq<byte>>) {
    && lines != [] && IsValue(lines[0]) && Unfolded(lines[0])
    && forall i :: 1 <= i < |lines| ==> Continues(lines[i])
  }

  predicate Continues(line: seq<byte>) { IsValue(line) && line != [] && (line[0] == ' ' || line[0] == '\t') }

  function LinesText(lines: seq<seq<byte>>): seq<byte> {
    if lines == [] then [] else LinesText(lines[..|lines| - 1]) + (lines[|lines| - 1] + CRLF)
  }

  /** A span for every line. */
  function LineSpans(lines: seq<seq<byte>>): seq<Event> {
    if lines == [] then [] else LineSpans(lines[..|lines| - 1]) + [Span(HeaderValue, lines[|lines| - 1])]
  }

  // ---------------------------------------------------------------- values are never taken for a count

  predicate NotCounting(a: Act) { a.Go? && a.next.hs != ContentLength }

  lemma SettleKind(k: Core)
    requires k.hs != ContentLength
    ensures Settle(k).hs != ContentLength
  {
    match k.hs {
      case ConnKeepAlive =>
      case ConnClose =>
      case ConnUpgrade =>
      case TeChunked =>
      case _ =>
    }
  }

  lemma ListKind(k: Core, n: ValueNode, b: byte)
    requires k.node == V(n) && IsListNode(n) && IsValueByte(b) && k.hs != ContentLength
    ensures NotCounting(ListByte(k, n, b))
  {
    SettleKind(k);
    hide Settle, MatcherOf, Machine.Apply, Lower;
  }

  lemma StepKind(strict: bool, k: Core, b: byte)
    requires InValue(k.node) && IsValueByte(b) && k.hs != ContentLength
    ensures NotCounting(Step(strict, k, Some(b)))
  {
    if IsListNode(k.node.value) { ListKind(k, k.node.value, b); }
    hide ListByte, LineStep, UrlStep, NameStep, BodyStep;
  }

  lemma {:induction false} EatKind(strict: bool, k: Core, b: byte)
    requires InValue(k.node) && IsValueByte(b) && Coherent(strict, k) && k.hs != ContentLength
    ensures var r := Eat(strict, k, b); r.Some? && r.value.hs != ContentLength
    decreases Rank(k.node)
  {
    EatValueByte(strict, k, b);
    StepInValue(strict, k, b);
    StepKind(strict, k, b);
    StepShape(strict, k, Some(b));
    StepKeeps(strict, k, Some(b));
    hide Step, Coherent, InValue, IsValueByte;
    var a := Step(strict, k, Some(b));
    if !a.take { EatKind(strict, a.next, b); }
  }

  lemma {:induction false} EatAllKind(strict: bool, k: Core, s: seq<byte>)
    requires InValue(k.node) && IsValue(s) && Coherent(strict, k) && k.hs != ContentLength
    ensures var r := EatAll(strict, k, s); r.Some? && r.value.hs != ContentLength
    decreases |s|
  {
    hide Eat, Step, Coherent, InValue;
    if s != [] {
      EatValueByte(strict, k, s[0]);
      EatKind(strict, k, s[0]);
      EatAllKind(strict, Eat(strict, k, s[0]).value, s[1..]);
    }
  }

  // ---------------------------------------------------------------- one line of a value

  /** After a line of a value: the next byte decides whether the value goes on. */
  predicate AfterLine(strict: bool, k: Config) {
    && Ready(k) && k.core.node == V(ValueLws) && k.core.index == 0 && k.core.hs != ContentLength
    && Coherent(strict, k.core)
  }

  lemma LineEnded(strict: bool, k: Core)
    requires InValue(k.node) && Coherent(strict, k) && k.hs != ContentLength
    ensures var r := To(AtEnd(k), V(ValueLws));
            && AtEnd(k).node == V(ValueOtherwise) && r.index == 0 && r.hs != ContentLength && Coherent(strict, r)
            && SameMessage(k, r)
  {
  }

  /** The end of a line of a value. */
  lemma ReadLineOver(env: Env, k: Config, line: seq<byte>, rest: seq<byte>) returns (r: Config)
    requires k.stop == 0 && InValue(k.core.node) && Coherent(env.strict, k.core) && k.core.hs != ContentLength
    requires k.span == Some(OpenSpan(HeaderValue, line))
    ensures Run(env, k, CRLF + rest) == Run(env, r, rest)
    ensures AfterLine(env.strict, r) && SameMessage(k.core, r.core) && r.pos == k.pos + 2
    ensures r.trace == k.trace + [Span(HeaderValue, line)]
  {
    hide Run, Step, AtEnd, InValue, Coherent;
    LineEnded(env.strict, k.core);
    ReadToEnd(env, k, CRLF + rest);
    ReadCrlf(env, k.(core := AtEnd(k.core)), line, rest);
    r := k.(core := To(AtEnd(k.core), V(ValueLws)), span := None, trace := k.trace + [Span(HeaderValue, line)],
            pos := k.pos + 2);
  }

  /** The rest of a line, once its automaton has been chosen. */
  lemma ReadOneLine(env: Env, k: Config, core: Core, line: seq<byte>, rest: seq<byte>) returns (r: Config)
    requires Ready(k) && InValue(core.node) && Coherent(env.strict, core) && core.hs != ContentLength && IsValue(line)
    ensures Run(env, k.(core := core, span := Some(OpenSpan(HeaderValue, []))), line + CRLF + rest) == Run(env, r, rest)
    ensures AfterLine(env.strict, r) && SameMessage(core, r.core) && r.pos == k.pos + |line| + 2
    ensures r.trace == k.trace + [Span(HeaderValue, line)]
  {
    hide Run, Step, Eat, EatAll, IsValue, InValue, Coherent, AfterLine;
    EatValue(env.strict, core, line);
    EatAllKind(env.strict, core, line);
    var eaten := EatAll(env.strict, core, line).value;
    LineJoined(line, rest);
    RunEatAll(env, k.(core := core, span := Some(OpenSpan(HeaderValue, []))), line, CRLF + rest);
    assert [] + line == line;
    var k1 := k.(core := eaten, span := Some(OpenSpan(HeaderValue, line)), pos := k.pos + |line|);
    r := ReadLineOver(env, k1, line, rest);
  }

  lemma FirstLine(env: Env, k: Config, line: seq<byte>, rest: seq<byte>) returns (r: Config)
    requires Ready(k) && k.core.node == V(DiscardWs) && k.core.hs != ContentLength && Coherent(env.strict, k.core)
    requires IsValue(line) && Unfolded(line)
    ensures Run(env, k, line + CRLF + rest) == Run(env, r, rest)
    ensures AfterLine(env.strict, r) && SameMessage(k.core, r.core) && r.pos == k.pos + |line| + 2
    ensures r.trace == k.trace + [Span(HeaderValue, line)]
  {
    assert IsValueByte(line[0]);
    OpenedCoherent(env.strict, k.core);
    OpenedKind(k.core);
    hide Run, Step, IsValue, InValue, ValueOpened, Coherent;
    assert (line + CRLF + rest)[0] == line[0];
    ReadValueStart(env, k, line + CRLF + rest);
    r := ReadOneLine(env, k, ValueOpened(k.core), line, rest);
  }

  lemma OpenedKind(k: Core)
    requires k.hs != ContentLength
    ensures ValueOpened(k).hs != ContentLength
  {
    match k.hs {
      case Upgrade =>
      case TransferEncoding =>
      case _ =>
    }
  }

  /** A line that begins with a space or a tab goes on with the value, and is reported with that byte. */
  lemma NextLine(env: Env, k: Config, line: seq<byte>, rest: seq<byte>) returns (r: Config)
    requires AfterLine(env.strict, k) && Continues(line)
    ensures Run(env, k, line + CRLF + rest) == Run(env, r, rest)
    ensures AfterLine(env.strict, r) && SameMessage(k.core, r.core) && r.pos == k.pos + |line| + 2
    ensures r.trace == k.trace + [Span(HeaderValue, line)]
  {
    var core := To(k.core, V(DiscardWs));
    NodeOnly(env.strict, k.core);
    OpenedCoherent(env.strict, core);
    OpenedKind(core);
    hide Run, Step, IsValue, InValue, Coherent, ValueOpened, IsValueByte;
    ValueGoesOn(env, k, line + CRLF + rest);
    r := ReadOneLine(env, k, ValueOpened(core), line, rest);
  }

  lemma NodeOnly(strict: bool, k: Core)
    requires Coherent(strict, k) && k.index == 0
    ensures Coherent(strict, To(k, V(DiscardWs)))
  {
  }

  lemma ValueGoesOn(env: Env, k: Config, buf: seq<byte>)
    requires AfterLine(env.strict, k) && buf != [] && (buf[0] == ' ' || buf[0] == '\t')
    ensures var core := ValueOpened(To(k.core, V(DiscardWs)));
            Run(env, k, buf) == Run(env, k.(core := core, span := Some(OpenSpan(HeaderValue, []))), buf)
  {
    hide Run, Rank, LineStep, UrlStep, NameStep, BodyStep, ListByte, Coherent;
    RunOne(env, k, buf, Go(To(k.core, V(SpanStartValue)), false));
    var k1 := k.(core := To(k.core, V(SpanStartValue)));
    RunOne(env, k1, buf, Open(HeaderValue, To(k.core, V(LoadHeaderState))));
    var k2 := k.(core := To(k.core, V(LoadHeaderState)), span := Some(OpenSpan(HeaderValue, [])));
    RunOne(env, k2, buf, ValueAutomaton(k2.core));
  }

  // ---------------------------------------------------------------- the whole value

  lemma {:induction false} ReadLines(env: Env, k: Config, lines: seq<seq<byte>>, rest: seq<byte>) returns (r: Config)
    requires Ready(k) && k.core.node == V(DiscardWs) && k.core.hs != ContentLength && Coherent(env.strict, k.core)
    requires IsFolded(lines)
    ensures Run(env, k, LinesText(lines) + rest) == Run(env, r, rest)
    ensures AfterLine(env.strict, r) && SameMessage(k.core, r.core) && r.pos == k.pos + |LinesText(lines)|
    ensures r.trace == k.trace + LineSpans(lines)
    decreases |lines|
  {
    hide Run, Step, Continues, IsValue, Coherent;
    var n := |lines| - 1;
    var front, last := lines[..n], lines[n];
    if n == 0 {
      assert lines == [last] && LinesText([]) == [] && LineSpans([]) == [];
      assert LinesText(lines) + rest == last + CRLF + rest;
      r := FirstLine(env, k, last, rest);
    } else {
      assert LinesText(lines) + rest == LinesText(front) + (last + CRLF + rest);
      var m := ReadLines(env, k, front, last + CRLF + rest);
      r := NextLine(env, m, last, rest);
    }
  }

  lemma ValueOver(env: Env, k: Config, rest: seq<byte>) returns (r: Config)
    requires AfterLine(env.strict, k) && Unfolded(rest)
    ensures Run(env, k, rest) == Run(env, r, rest)
    ensures AtField(env.strict, r) && SameMessage(k.core, r.core) && r.pos == k.pos
    ensures r.trace == k.trace + [HeaderValueComplete]
  {
    SettleKeeps(k.core);
    SettleMoves(To(k.core, V(ValueOtherwise)));
    hide Run, Rank, LineStep, UrlStep, NameStep, BodyStep, ListByte, Settle;
    var settled := Settle(k.core);
    Move(env, k, rest, To(settled, V(OnValueComplete)), false);
    r := Emitted(k, To(settled, N(FieldStart)), [HeaderValueComplete], 0);
    Notified(env, Past(k, To(settled, V(OnValueComplete)), 0), rest, HeaderValueComplete, r.core, None);
  }

  /**
    A header of any kind but Content-Length whose value takes any number of lines is one header: its name, a
    value span for every line, and one notification that the value is complete.
  */
  lemma ReadFolded(env: Env, k: Config, name: seq<byte>, lines: seq<seq<byte>>, rest: seq<byte>) returns (r: Config)
    requires AtField(env.strict, k) && IsToken(name) && LowerAll(name) != CONTENT_LENGTH && IsFolded(lines)
    requires Unfolded(rest)
    ensures Run(env, k, name + [':'] + LinesText(lines) + rest) == Run(env, r, rest)
    ensures AtField(env.strict, r) && SameMessage(k.core, r.core)
    ensures r.trace
         == k.trace + ([Span(HeaderField, name), HeaderFieldComplete] + LineSpans(lines) + [HeaderValueComplete])
  {
    hide Run, Step, LowerAll, IsFolded, IsToken, LinesText, LineSpans;
    var text := LinesText(lines) + rest;
    assert name + [':'] + LinesText(lines) + rest == name + [':'] + text;
    ReadName(env, k, name, text);
    ClassesOf(LowerAll(name));
    var k1 := Emitted(k, k.core.(node := V(DiscardWs), hs := ClassOf(LowerAll(name))),
                      [Span(HeaderField, name), HeaderFieldComplete], |name| + 1);
    ValueBegins(env.strict, k.core, k1.core);
    var k2 := ReadLines(env, k1, lines, rest);
    r := ValueOver(env, k2, rest);
    assert k.trace + [Span(HeaderField, name), HeaderFieldComplete] + LineSpans(lines) + [HeaderValueComplete]
        == k.trace + ([Span(HeaderField, name), HeaderFieldComplete] + LineSpans(lines) + [HeaderValueComplete]);
  }

  lemma ValueBegins(strict: bool, k: Core, m: Core)
    requires k.node == N(FieldStart) && k.index == 0 && Coherent(strict, k) && m == k.(node := V(DiscardWs), hs := m.hs)
    ensures Coherent(strict, m)
  {
  }

  /** A line end before the value is skipped, with the space or tab of the next line. */
  lemma LeadingFold(env: Env, k: Config, b: byte, rest: seq<byte>)
    requires Ready(k) && k.core.node == V(DiscardWs) && (b == ' ' || b == '\t')
    ensures Run(env, k, CRLF + [b] + rest) == Run(env, Past(k, k.core, 3), rest)
  {
    hide Run, Rank, LineStep, UrlStep, NameStep, BodyStep, ListByte;
    var buf := CRLF + [b] + rest;
    assert buf[1..] == [LF] + ([b] + rest) && buf[1..][1..] == [b] + rest && buf[1..][1..][1..] == rest;
    Move(env, k, buf, To(k.core, V(DiscardWsAlmostDone)), true);
    Move(env, Past(k, To(k.core, V(DiscardWsAlmostDone)), 1), buf[1..], To(k.core, V(DiscardLws)), true);
    Move(env, Past(k, To(k.core, V(DiscardLws)), 2), buf[1..][1..], k.core, true);
  }

  /** A Content-Length that goes on over the line is refused, whatever follows. */
  lemma FoldedLength(env: Env, k: Config, b: byte, rest: seq<byte>)
    requires Ready(k) && k.core.node == V(ValueLws) && k.core.hs == ContentLength && k.core.flags.contentLength
    requires b == ' ' || b == '\t'
    ensures Run(env, k, [b] + rest).stop == 4
  {
    hide Run, Rank, LineStep, UrlStep, NameStep, BodyStep, ListByte;
    var buf := [b] + rest;
    RunOne(env, k, buf, Go(To(k.core, V(SpanStartValue)), false));
    var k1 := k.(core := To(k.core, V(SpanStartValue)));
    RunOne(env, k1, buf, Open(HeaderValue, To(k.core, V(LoadHeaderState))));
    var k2 := k.(core := To(k.core, V(LoadHeaderState)), span := Some(OpenSpan(HeaderValue, [])));
    RunOne(env, k2, buf, FailAt(k2.core, 4));
  }
}
