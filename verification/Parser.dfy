/**
  The parser object and its entry points: 3rd/llhttp/llhttp.c:7851-7945 and 14915-14947,
  3rd/llhttp/api.c:47-233.  The object consumes buffers in place, calls the application back, and is
  proved against the reference semantics of module Semantics.
*/
module Parser {
  import opened Http
  import opened Machine
  import opened Automaton
  import opened Semantics
  import opened Invariants
  import opened Simd

  // ---------------------------------------------------------------- the application's side

  /** One callback: a piece of a span (the last piece when the span ends there) or a notification. */
  datatype Call = Piece(kind: SpanKind, data: seq<byte>, last: bool) | Told(event: Event)

  /** The pieces of each span joined: the finished events and the bytes of the span still open. */
  datatype Joined = Joined(trace: seq<Event>, pending: seq<byte>)

  function Join(calls: seq<Call>): Joined {
    if calls == [] then Joined([], []) else
    var j := Join(calls[..|calls| - 1]);
    match calls[|calls| - 1]
    case Told(event) => Joined(j.trace + [event], [])
    case Piece(kind, data, last) =>
      if last then Joined(j.trace + [Span(kind, j.pending + data)], []) else Joined(j.trace, j.pending + data)
  }

  lemma JoinAppend(calls: seq<Call>, c: Call)
    ensures Join(calls + [c]) ==
            var j := Join(calls);
            match c
            case Told(event) => Joined(j.trace + [event], [])
            case Piece(kind, data, last) =>
              if last then Joined(j.trace + [Span(kind, j.pending + data)], []) else Joined(j.trace, j.pending + data)
  {
    assert (calls + [c])[..|calls|] == calls;
  }

  /** What the application answers to a callback, given everything it was told up to and including it. */
  type App = seq<Call> -> int

  /** The error that an answer other than 0 to a notification turns into; None where the answer is ignored. */
  function FaultOf(event: Event): Option<nat> {
    match event
    case MessageBegin => Some(16)
    case HeadersComplete => Some(17)
    case MessageComplete => Some(18)
    case ChunkHeader(_) => Some(19)
    case ChunkComplete => Some(20)
    case _ => None
  }

  /** The answers that let the parser go on. */
  predicate LetsGoOn(c: Call, answer: int) {
    match c
    case Piece(_, _, _) => answer == 0
    case Told(HeadersComplete) => answer == 0 || answer == 1 || answer == 2
    case Told(event) => FaultOf(event).Some? ==> answer == 0
  }

  /** A refused piece and a paused notification leave a parser that can be resumed. */
  predicate Resumable(c: Call, answer: int) { c.Piece? || answer == 21 }

  /** The error of a call that an answer has ended. */
  function ErrorFor(c: Call, answer: int): int
    requires !LetsGoOn(c, answer)
  {
    match c
    case Piece(_, _, _) => if answer == -1 then 24 else answer
    case Told(event) => if answer == 21 then 21 else FaultOf(event).value
  }

  /** Every callback from the `from`-th on let the parser go on. */
  predicate Heeded(app: App, calls: seq<Call>, from: nat) {
    forall i :: from <= i < |calls| ==> LetsGoOn(calls[i], app(calls[..i + 1]))
  }

  /**
    How a call ended with an error, by the callbacks after `before`: either every one let the parser go on, and the
    automaton itself stopped; or the last one did not, and the error and whether it is final are its answer's.
  */
  predicate Outcome(app: App, before: seq<Call>, calls: seq<Call>, automaton: bool, error: int, final: bool) {
    && before <= calls
    && if automaton then Heeded(app, calls, |before|)
       else
         && |before| < |calls| && Heeded(app, calls[..|calls| - 1], |before|)
         && var c, answer := calls[|calls| - 1], app(calls);
            !LetsGoOn(c, answer) && error == ErrorFor(c, answer) && (final <==> !Resumable(c, answer))
  }

  lemma HeededLater(app: App, a: seq<Call>, b: seq<Call>, c: seq<Call>)
    requires a <= b <= c && Heeded(app, b, |a|) && Heeded(app, c, |b|)
    ensures Heeded(app, c, |a|)
  {
    forall i | |a| <= i < |c| ensures LetsGoOn(c[i], app(c[..i + 1])) {
      if i < |b| { assert c[..i + 1] == b[..i + 1]; }
    }
  }

  lemma OutcomeLater(app: App, a: seq<Call>, b: seq<Call>, c: seq<Call>, automaton: bool, error: int, final: bool)
    requires a <= b && Heeded(app, b, |a|) && Outcome(app, b, c, automaton, error, final)
    ensures Outcome(app, a, c, automaton, error, final)
  {
    HeededLater(app, a, b, if automaton then c else c[..|c| - 1]);
  }

  lemma HeededNone(app: App, calls: seq<Call>)
    ensures Heeded(app, calls, |calls|)
  {
  }

  /** One more callback, and whether it lets the parser go on. */
  lemma HeededOne(app: App, before: seq<Call>, c: Call)
    ensures Heeded(app, before + [c], |before|) <==> LetsGoOn(c, app(before + [c]))
    ensures Heeded(app, before, |before|) && (before + [c])[..|before|] == before
  {
    assert (before + [c])[..|before| + 1] == before + [c] && (before + [c])[|before|] == c;
  }

  /** One more callback, for a piece of a span. */
  lemma HeededPiece(app: App, a: seq<Call>, b: seq<Call>, c: seq<Call>, error: int)
    requires a <= b && Heeded(app, b, |a|) && |c| == |b| + 1 && b <= c && c[|b|].Piece?
    requires error == if app(c) == -1 then 24 else app(c)
    ensures error == 0 ==> a <= c && Heeded(app, c, |a|)
    ensures error != 0 ==> Outcome(app, a, c, false, error, false)
  {
    assert c == b + [c[|b|]];
    HeededOne(app, b, c[|b|]);
    if error == 0 {
      HeededLater(app, a, b, c);
    } else {
      OutcomeLater(app, a, b, c, false, error, false);
    }
    hide Heeded;
  }

  /** The table's notifications turn into these errors. */
  lemma NotifyFaults(strict: bool, k: Core, c: Option<byte>)
    ensures var a := Step(strict, k, c); a.Notify? ==> a.fault == FaultOf(a.event)
  {
    hide LineByte, UrlByte, NameByte, ValueByte, BodyByte, FaultOf;
    FaultNumbers();
    if c.Some? { BytesNotifyNothing(strict, k, c.value); }
  }

  lemma FaultNumbers()
    ensures FaultOf(MessageBegin) == Some(HPE_CB_MESSAGE_BEGIN)
    ensures FaultOf(MessageComplete) == Some(HPE_CB_MESSAGE_COMPLETE)
    ensures forall size :: FaultOf(ChunkHeader(size)) == Some(HPE_CB_CHUNK_HEADER)
    ensures FaultOf(ChunkComplete) == Some(HPE_CB_CHUNK_COMPLETE)
    ensures FaultOf(UrlComplete) == FaultOf(StatusComplete) == None
    ensures FaultOf(HeaderFieldComplete) == FaultOf(HeaderValueComplete) == None
  {
  }

  /** No byte by itself notifies of anything. */
  lemma BytesNotifyNothing(strict: bool, k: Core, b: byte)
    ensures forall n :: !LineByte(k, n, b).Notify?
    ensures forall n :: !UrlByte(k, n, b).Notify?
    ensures forall n :: !NameByte(strict, k, n, b).Notify?
    ensures forall n :: !ValueByte(strict, k, n, b).Notify?
    ensures forall n :: !BodyByte(strict, k, n, b).Notify?
  {
    forall n: LineNode ensures !LineByte(k, n, b).Notify? { LineNotifiesNothing(k, n, b); }
    forall n: UrlNode ensures !UrlByte(k, n, b).Notify? { UrlNotifiesNothing(k, n, b); }
    forall n: NameNode ensures !NameByte(strict, k, n, b).Notify? { NameNotifiesNothing(strict, k, n, b); }
    forall n: ValueNode ensures !ValueByte(strict, k, n, b).Notify? { ValueNotifiesNothing(strict, k, n, b); }
    forall n: BodyNode ensures !BodyByte(strict, k, n, b).Notify? { BodyNotifiesNothing(strict, k, n, b); }
    hide LineByte, UrlByte, NameByte, ValueByte, BodyByte;
  }

  lemma LineNotifiesNothing(k: Core, n: LineNode, b: byte)
    ensures !LineByte(k, n, b).Notify?
  {
    hide MatcherOf, Machine.Apply, MethodCode, IsMethodPrefix, IsDigit, DigitVal;
  }

  lemma UrlNotifiesNothing(k: Core, n: UrlNode, b: byte)
    ensures !UrlByte(k, n, b).Notify?
  {
    hide MatcherOf, Machine.Apply;
  }

  lemma NameNotifiesNothing(strict: bool, k: Core, n: NameNode, b: byte)
    ensures !NameByte(strict, k, n, b).Notify?
  {
    hide MatcherOf, Machine.Apply, Lower, IsFieldByte;
  }

  lemma ValueNotifiesNothing(strict: bool, k: Core, n: ValueNode, b: byte)
    ensures !ValueByte(strict, k, n, b).Notify?
  {
    hide MatcherOf, Machine.Apply, Lower, IsValueByte, Settle, IsDigit, DigitVal;
  }

  lemma BodyNotifiesNothing(strict: bool, k: Core, n: BodyNode, b: byte)
    ensures !BodyByte(strict, k, n, b).Notify?
  {
    hide MatcherOf, Machine.Apply, IsHex, HexVal;
  }

  function AnswerOf(code: int): HeadersAnswer {
    if code == 1 then SkipBody else if code == 2 then SkipBodyAndUpgrade else Proceed
  }

  /**
    The application decides about the headers by what it was told, not by how that was cut into
    pieces; pausing there instead means to proceed later.
  */
  ghost predicate Follows(app: App, answer: seq<Event> -> HeadersAnswer) {
    forall calls: seq<Call> ::
      var code := app(calls + [Told(HeadersComplete)]);
      0 <= code <= 2 || code == HPE_PAUSED ==> AnswerOf(code) == answer(Join(calls).trace)
  }

  /** The application never fails: it lets the parser go on or pauses it. */
  ghost predicate Tame(app: App) {
    forall calls: seq<Call>, c: Call ::
      var code := app(calls + [c]);
      code == 0 || code == HPE_PAUSED || (c == Told(HeadersComplete) && (code == 1 || code == 2))
  }

  lemma FollowsAt(app: App, answer: seq<Event> -> HeadersAnswer, calls: seq<Call>)
    requires Follows(app, answer)
    ensures var code := app(calls + [Told(HeadersComplete)]);
            0 <= code <= 2 || code == HPE_PAUSED ==> AnswerOf(code) == answer(Join(calls).trace)
  {
  }

  lemma TameAt(app: App, calls: seq<Call>, c: Call)
    ensures Tame(app) ==>
              var code := app(calls + [c]);
              code == 0 || code == HPE_PAUSED || (c == Told(HeadersComplete) && (code == 1 || code == 2))
  {
  }

  // ---------------------------------------------------------------- stretches of bytes taken at once

  lemma GoIsMove(env: Env, k: Config, next: Core, take: bool, buf: seq<byte>, p: nat, q: nat)
    requires p <= |buf| && q == (if take then p + 1 else p) && q <= |buf|
    ensures Advance(env, k, Go(next, take), Head(buf[p..])) == Moved(k, next, buf[p..q])
    ensures take ==> buf[p..][1..] == buf[q..]
  {
    assert take ==> buf[p..q] == [buf[p]];
    if k.span.Some? { assert k.span.value.data + [] == k.span.value.data; }
  }

  /** The bytes that extend a partial match. */
  predicate Matches(m: Matcher, at: nat, data: seq<byte>)
    requires m.Seq?
  {
    at + |data| <= |m.text| && forall i :: 0 <= i < |data| ==> Apply(m.fold, data[i]) == m.text[at + i]
  }

  lemma MatchStep(strict: bool, k: Core, b: byte)
    requires MatcherOf(k.node).Seq? && k.index + 1 < |MatcherOf(k.node).text|
    requires Apply(MatcherOf(k.node).fold, b) == MatcherOf(k.node).text[k.index]
    ensures Step(strict, k, Some(b)) == Go(k.(index := k.index + 1), true)
  {
  }

  lemma MatcherNotEmpty(n: Node)
    requires MatcherOf(n).Seq?
    ensures 0 < |MatcherOf(n).text| && n != B(ChunkDataAlmostDone)
  {
  }

  lemma MatchGlide(env: Env, k: Config, buf: seq<byte>, n: nat)
    requires k.stop == 0 && MatcherOf(k.core.node).Seq? && n <= |buf|
    requires k.core.index + n < |MatcherOf(k.core.node).text| && Matches(MatcherOf(k.core.node), k.core.index, buf[..n])
    ensures Run(env, k, buf) == Run(env, Moved(k, k.core.(index := k.core.index + n), buf[..n]), buf[n..])
  {
    hide Step, MatcherOf;
    var cores := (i: nat) => k.core.(index := k.core.index + i);
    forall i | 0 <= i < n ensures Step(env.strict, cores(i), Some(buf[..n][i])) == Go(cores(i + 1), true) {
      MatchStep(env.strict, cores(i), buf[..n][i]);
    }
    assert cores(0) == k.core && buf == buf[..n] + buf[n..];
    RunGlide(env, k, cores, buf[..n], buf[n..]);
  }

  /** The states the SSE4.2 build scans by blocks, and the bytes their tables accept. */
  predicate Scanning(n: Node) { n == V(Value) || n == N(FieldGeneral) || n == U(UrlPath) }

  predicate Accepted(strict: bool, n: Node, b: byte) {
    if n == V(Value) then IsValueByte(b) else if n == N(FieldGeneral) then IsFieldByte(strict, b) else IsUrlPathByte(b)
  }

  function FirstRanges(strict: bool, n: Node): Ranges {
    if n == V(Value) then VALUE_RANGES else if n == N(FieldGeneral) then FieldRanges(strict) else URL_PATH_RANGES
  }

  /** Where a scan goes at the first byte outside its ranges. */
  function ScanExit(n: Node): Node {
    if n == V(Value) then V(ValueOtherwise) else if n == N(FieldGeneral) then N(FieldGeneralOtherwise)
        else U(UrlQueryOrFragment)
  }

  lemma RangesAccept(strict: bool, n: Node, b: byte)
    requires Scanning(n)
    ensures Accepted(strict, n, b) <==>
            InRanges(FirstRanges(strict, n), b) || (n == N(FieldGeneral) && InRanges(TILDE_RANGES, b))
  {
    ValueRanges(b);
    UrlPathRanges(b);
    FieldNameRanges(strict, b);
  }

  lemma ScanStops(strict: bool, k: Core, b: byte)
    requires Scanning(k.node) && !Accepted(strict, k.node, b)
    ensures Step(strict, k, Some(b)) == Go(To(k, ScanExit(k.node)), false)
  {
  }

  lemma ScanStep(strict: bool, k: Core, b: byte)
    requires Scanning(k.node) && Accepted(strict, k.node, b)
    ensures Step(strict, k, Some(b)) == Go(k, true)
  {
  }

  lemma ScanGlide(env: Env, k: Config, buf: seq<byte>, n: nat)
    requires k.stop == 0 && Scanning(k.core.node) && n <= |buf|
    requires forall i :: 0 <= i < n ==> Accepted(env.strict, k.core.node, buf[i])
    ensures Run(env, k, buf) == Run(env, Moved(k, k.core, buf[..n]), buf[n..])
  {
    hide Step, Scanning, Accepted, Run, Moved;
    var cores := (i: nat) => k.core;
    forall i | 0 <= i < n ensures Step(env.strict, cores(i), Some(buf[..n][i])) == Go(cores(i + 1), true) {
      ScanStep(env.strict, k.core, buf[i]);
    }
    assert buf == buf[..n] + buf[n..];
    RunGlide(env, k, cores, buf[..n], buf[n..]);
  }

  lemma AnsweredIs(k: Core)
    ensures Answered(k, AnswerOf(1)) == k.(flags := k.flags.(skipBody := true))
    ensures Answered(k, AnswerOf(2)) == k.(flags := k.flags.(skipBody := true), line := k.line.(upgrade := true))
    ensures forall code :: code != 1 && code != 2 ==> Answered(k, AnswerOf(code)) == k
  {
  }

  lemma AnsweredCoherent(strict: bool, k: Core, answer: HeadersAnswer)
    requires Coherent(strict, k) && k.index == 0
    ensures var r := Answered(k, answer);
            Coherent(strict, r) && r.node == k.node && r.index == 0 && Coherent(strict, r.(node := Error))
  {
  }

  // ---------------------------------------------------------------- the parser object

  /**
    How the last call ended.  Deferred: a callback stopped the parser between two states and it can go
    on.  Refused: a callback failed for good.  Stopped: the automaton itself reported an error.
  */
  datatype Verdict = Running | Deferred | Refused | Stopped

  datatype MatchStatus = MatchComplete | MatchPause | MatchMismatch

  class Parser {
    // llhttp__internal_s; errorPos is an offset in the buffer of the failing call, spanPos in the current one
    var current: Node
    var index: nat
    var contentLength: nat
    var headerState: HeaderState
    var flags: Flags
    var line: Line
    var spanOpen: bool
    var spanPos: nat
    var spanKind: SpanKind
    var error: int
    var errorPos: int

    const strict: bool  // LLHTTP_STRICT_MODE
    const sse: bool     // __SSE4_2__
    const app: App

    ghost const answer: seq<Event> -> HeadersAnswer
    var calls: seq<Call>           // every callback so far: all the application can have learnt
    ghost var trace: seq<Event>    // the same with the pieces of spans joined
    ghost var pending: seq<byte>   // the pieces of the open span
    ghost var fed: nat             // bytes consumed so far
    ghost var verdict: Verdict

    ghost predicate Valid()
      reads this
    {
      && ValidWith(Core())
      && (error == 0 || error == HPE_PAUSED || error == HPE_PAUSED_UPGRADE ==> !current.Error?)
    }

    /** The record of the callbacks agrees with the ghost trace. */
    ghost predicate Consistent()
      reads this
    {
      && Follows(app, answer)
      && Join(calls) == Joined(trace, pending)
      && (!spanOpen ==> pending == [])
    }

    /** Validity of the object once its registers are those of `k`. */
    ghost predicate ValidWith(k: Core)
      reads this
    {
      && Consistent()
      && Coherent(strict, k)
      && (!k.node.Error? ==> (if spanOpen then Some(spanKind) else None) == SpanAt(k.node))
    }

    function Core(): Core
      reads this
    {
      Machine.Core(current, index, contentLength, headerState, flags, line)
    }

    ghost function Env(): Env
    {
      Automaton.Env(strict, answer)
    }

    /** The parser as a configuration of the reference semantics. */
    ghost function View(): Config
      reads this
    {
      Config(Core(), if spanOpen then Some(OpenSpan(spanKind, pending)) else None, trace, fed, 0)
    }

    /** The configuration inside a call, `p` bytes into `buf`, `base` bytes having been consumed before. */
    ghost function Inside(buf: seq<byte>, p: nat, base: nat): Config
      requires spanOpen ==> spanPos <= p <= |buf|
      reads this
    {
      Config(Core(), if spanOpen then Some(OpenSpan(spanKind, pending + buf[spanPos..p])) else None, trace, base + p, 0)
    }

    /** llhttp_init */
    constructor (ty: MsgType, strict: bool, sse: bool, app: App, ghost answer: seq<Event> -> HeadersAnswer)
      requires Follows(app, answer)
      ensures Valid() && this.strict == strict && this.sse == sse && this.app == app && this.answer == answer
      ensures error == 0 && calls == [] && View() == Initial(ty, Lenient(false, false, false))
    {
      this.strict, this.sse, this.app, this.answer := strict, sse, app, answer;
      current, index, contentLength, headerState, flags := L(Start), 0, 0, General, NoFlags;
      line := InitialLine(ty, Lenient(false, false, false));
      spanOpen, spanPos, spanKind, error, errorPos := false, 0, Url, 0, 0;
      calls, trace, pending, fed, verdict := [], [], [], 0, Running;
    }

    method Store(k: Core)
      modifies this`current, this`index, this`contentLength, this`headerState, this`flags, this`line
      ensures Core() == k
    {
      current, index, contentLength, headerState, flags, line := k.node, k.index, k.length, k.hs, k.flags, k.line;
    }

    /** One of the three matchers, on the bytes from `p` on. */
    method MatchSequence(fold: Fold, text: seq<byte>, buf: seq<byte>, p: nat) returns (status: MatchStatus, q: nat)
      requires p <= |buf| && index < |text|
      modifies this`index
      ensures p <= q <= |buf| && old(index) + (q - p) <= |text|
      ensures forall i :: p <= i < q ==> Apply(fold, buf[i]) == text[old(index) + (i - p)]
      ensures status.MatchPause? ==> q == |buf| && index == old(index) + (q - p) < |text|
      ensures status.MatchComplete? ==>
          q < |buf| && old(index) + (q - p) == |text| - 1 && Apply(fold, buf[q]) == text[|text| - 1] && index == 0
      ensures status.MatchMismatch? ==>
          && q < |buf| && old(index) + (q - p) < |text| && Apply(fold, buf[q]) != text[old(index) + (q - p)]
          && index == 0
    {
      var at := index;
      q := p;
      while q < |buf|
        invariant p <= q <= |buf| && at == old(index) + (q - p) < |text|
        invariant forall i :: p <= i < q ==> Apply(fold, buf[i]) == text[old(index) + (i - p)]
      {
        if Apply(fold, buf[q]) == text[at] {
          at := at + 1;
          if at == |text| {
            index := 0;
            return MatchComplete, q;
          }
        } else {
          index := 0;
          return MatchMismatch, q;
        }
        q := q + 1;
      }
      index := at;
      return MatchPause, q;
    }

    // ---- callbacks

    /** A notification: on_message_begin, on_headers_complete and so on. */
    method Tell(event: Event) returns (code: int)
      requires Join(calls) == Joined(trace, pending)
      modifies this`calls, this`trace, this`pending
      ensures pending == [] && trace == old(trace) + [event] && Join(calls) == Joined(trace, pending)
      ensures calls == old(calls) + [Told(event)] && code == app(calls)
    {
      JoinAppend(calls, Told(event));
      calls, trace, pending := calls + [Told(event)], trace + [event], [];
      code := app(calls);
    }

    /** The span callback on the bytes from spanPos to `p`, which end the span or the buffer. */
    method Report(buf: seq<byte>, p: nat, last: bool) returns (code: int)
      requires spanOpen && spanPos <= p <= |buf| && Join(calls) == Joined(trace, pending)
      modifies this`calls, this`trace, this`pending, this`spanOpen
      ensures Join(calls) == Joined(trace, pending)
      ensures var data := old(pending) + buf[spanPos..p];
              if last then !spanOpen && pending == [] && trace == old(trace) + [Span(spanKind, data)]
              else spanOpen && pending == data && trace == old(trace)
      ensures calls == old(calls) + [Piece(spanKind, buf[spanPos..p], last)]
      ensures var raw := app(calls); code == if raw == -1 then 24 else raw
    {
      var piece := Piece(spanKind, buf[spanPos..p], last);
      JoinAppend(calls, piece);
      ghost var data := pending + buf[spanPos..p];
      if last {
        trace, pending, spanOpen := trace + [Span(spanKind, data)], [], false;
      } else {
        pending := data;
      }
      calls := calls + [piece];
      code := app(calls);
      if code == -1 { code := HPE_USER; }
    }

    // ---- the main loop

    /**
      Between two transitions, `p` bytes into the buffer: what remains to be done leads where the
      reference run from `k0` on the whole buffer leads.
    */
    ghost predicate Along(buf: seq<byte>, p: nat, k0: Config)
      reads this
    {
      AlongWith(buf, p, Core(), k0)
    }

    ghost predicate AlongWith(buf: seq<byte>, p: nat, k: Core, k0: Config)
      reads this
    {
      && ValidWith(k) && !k.node.Error? && error == 0 && p <= |buf| && (spanOpen ==> spanPos <= p) && Since(k0)
      && Run(Env(), Inside(buf, p, k0.pos).(core := k), buf[p..]) == Run(Env(), k0, buf)
    }

    /** Within a call, the pending bytes are those of before the call until the first event. */
    ghost predicate Since(k0: Config)
      reads this
    {
      fed == k0.pos && k0.trace <= trace && pending == if trace == k0.trace then Data(k0.span) else []
    }

    /** The call has ended with an error: how the object relates to the reference run. */
    ghost predicate Ended(buf: seq<byte>, k0: Config)
      reads this
    {
      var r := Run(Env(), k0, buf);
      && Valid() && error != 0 && 0 <= errorPos <= |buf| && fed == k0.pos + errorPos
      && (Tame(app) ==> !verdict.Refused? && (verdict.Deferred? ==> error == HPE_PAUSED))
      && (match verdict
          case Running => false
          case Deferred => !current.Error? && Run(Env(), View(), buf[errorPos..]) == r
          case Refused => current.Error? && trace <= r.trace
          case Stopped => error > 0 && error != HPE_PAUSED && View().(stop := error) == Received(Env(), k0, buf))
    }

    lemma EndedIsError(buf: seq<byte>, k0: Config)
      requires Ended(buf, k0)
      ensures Valid() && error != 0
    {
    }

    lemma InsideMoved(buf: seq<byte>, p: nat, q: nat, base: nat)
      requires (spanOpen ==> spanPos <= p) && p <= q <= |buf|
      ensures Inside(buf, q, base) == Moved(Inside(buf, p, base), Core(), buf[p..q])
    {
      if spanOpen { assert pending + buf[spanPos..p] + buf[p..q] == pending + buf[spanPos..q]; }
    }

    /** consume_content_length: all that is owed or all there is, whichever is less. */
    method StepConsume(buf: seq<byte>, p: nat, ghost k0: Config) returns (q: nat)
      requires Along(buf, p, k0) && p < |buf| && Consuming(current) && 0 < contentLength
      modifies this`contentLength
      ensures Along(buf, q, k0) && p < q
    {
      hide Step, Run;
      var avail, need := |buf| - p, contentLength;
      var taken := if avail >= need then need else avail;
      ghost var k := Inside(buf, p, k0.pos);
      ConsumeGlide(Env(), k, buf[p..], taken);
      contentLength := need - taken;
      q := p + taken;
      InsideMoved(buf, p, q, k0.pos);
      assert buf[p..][..taken] == buf[p..q] && buf[p..][taken..] == buf[q..];
    }

    /** A state that runs a matcher: on a hit or a miss the table says where to go. */
    method StepMatcher(buf: seq<byte>, p: nat, ghost k0: Config) returns (ok: bool, q: nat)
      requires Along(buf, p, k0) && p < |buf| && MatcherOf(current).Seq?
      modifies this
      ensures ok ==> Along(buf, q, k0) && p <= q && (p < q || Rank(current) < Rank(old(current)))
      ensures !ok ==> Ended(buf, k0)
      ensures if ok then Obeyed(old(calls)) else StoppedBy(old(calls))
    {
      hide Step, Run, Rank, SpanAt, Follows, Tame, Join, Ended, MatcherOf;
      var m, k := MatcherOf(current), Core();
      MatcherNotEmpty(current);
      var status: MatchStatus;
      ghost var at := Inside(buf, p, k0.pos);
      status, q := MatchSequence(m.fold, m.text, buf, p);
      if status.MatchPause? {
        MatchGlide(Env(), at, buf[p..], q - p);
        InsideMoved(buf, p, q, k0.pos);
        assert buf[p..][..q - p] == buf[p..q] && buf[p..][q - p..] == buf[q..];
        ok := true;
      } else {
        MatchGlide(Env(), at, buf[p..], q - p);
        assert buf[p..][..q - p] == buf[p..q] && buf[p..][q - p..] == buf[q..];
        var reached := k.(index := k.index + (q - p));
        InsideMoved(buf, p, q, k0.pos);
        StepShape(strict, reached, Some(buf[q]));
        ok, q := Perform(buf, q, reached, Step(strict, reached, Some(buf[q])), k0);
      }
    }

    /** Every callback since then let the parser go on. */
    ghost predicate Obeyed(before: seq<Call>)
      reads this
    {
      before <= calls && Heeded(app, calls, |before|)
    }

    /** The error is the automaton's own, or that of the last callback's answer. */
    ghost predicate StoppedBy(before: seq<Call>)
      reads this
    {
      Outcome(app, before, calls, verdict.Stopped?, error, current.Error?)
    }

    /** Stops the call at `at` for a reason given by `why`. */
    method Halt(code: int, at: nat, ghost why: Verdict, ghost base: nat)
      modifies this`error, this`errorPos, this`verdict, this`fed
      ensures error == code && errorPos == at && verdict == why && fed == base + at
    {
      error, errorPos, verdict, fed := code, at, why, base + at;
    }

    /** Fires the callback of a closed span; whatever it answers, the next state is where to go on. */
    method PerformClose(buf: seq<byte>, p: nat, q: nat, next: Core, ghost k0: Config) returns (ok: bool)
      requires Consistent() && error == 0 && spanOpen && spanPos <= p <= q <= |buf| && k0.trace <= trace
      requires fed == k0.pos
      requires Coherent(strict, next) && !next.node.Error? && SpanAt(next.node) == None
      requires Run(Env(), Config(next, None, trace + [Span(spanKind, pending + buf[spanPos..p])], k0.pos + q, 0),
                 buf[q..])
            == Run(Env(), k0, buf)
      modifies this
      ensures ok ==> Along(buf, q, k0)
      ensures !ok ==> Ended(buf, k0)
      ensures calls == old(calls) + [Piece(old(spanKind), buf[old(spanPos)..p], true)] && Core() == next
      ensures ok <==> app(calls) == 0
      ensures !ok ==> error == (if app(calls) == -1 then 24 else app(calls)) && verdict.Deferred?
    {
      hide Step, Run, SpanAt, Coherent, Follows, Tame, Join;
      TameAt(app, calls, Piece(spanKind, buf[spanPos..p], true));
      var code := Report(buf, p, true);
      Store(next);
      ok := code == 0;
      if !ok { Halt(code, q, Deferred, k0.pos); }
    }

    /** Fires a plain callback and obeys its answer. */
    method PerformNotify(buf: seq<byte>, p: nat, event: Event, next: Core, fault: Option<nat>, ghost k0: Config)
      returns (ok: bool)
      requires Consistent() && error == 0 && !spanOpen && p <= |buf| && event != HeadersComplete
      requires fault.Some? ==> HPE_CB_MESSAGE_BEGIN <= fault.value <= HPE_CB_CHUNK_COMPLETE
      requires k0.trace <= trace && fed == k0.pos
      requires Coherent(strict, next) && next.index == 0 && !next.node.Error? && SpanAt(next.node) == None
      requires Run(Env(), Config(next, None, trace + [event], k0.pos + p, 0), buf[p..]) == Run(Env(), k0, buf)
      modifies this
      ensures ok ==> Along(buf, p, k0) && Core() == next
      ensures !ok ==> Ended(buf, k0)
      ensures calls == old(calls) + [Told(event)]
      ensures ok <==> fault.None? || app(calls) == 0
      ensures !ok && app(calls) == 21 ==> error == 21 && Core() == next && verdict.Deferred?
      ensures !ok && app(calls) != 21 ==> error == fault.value && current.Error? && verdict.Refused?
    {
      hide Step, Run, SpanAt, Follows, Tame, Join;
      TameAt(app, calls, Told(event));
      RunExtends(Env(), Config(next, None, trace + [event], k0.pos + p, 0), buf[p..]);
      var code := Tell(event);
      Store(next);
      ok := fault.None? || code == 0;
      if !ok {
        if code == HPE_PAUSED {
          Halt(HPE_PAUSED, p, Deferred, k0.pos);
        } else {
          current := Error;
          Halt(fault.value, p, Refused, k0.pos);
        }
      }
    }

    /** Asks the application about the headers: go on, skip the body, or expect an upgrade. */
    method PerformAsk(buf: seq<byte>, p: nat, next: Core, ghost k0: Config) returns (ok: bool)
      requires Consistent() && error == 0 && !spanOpen && p <= |buf| && k0.trace <= trace && fed == k0.pos
      requires Coherent(strict, next) && next.index == 0 && !next.node.Error? && SpanAt(next.node) == None
      requires Run(Env(), Config(Answered(next, answer(trace)), None, trace + [HeadersComplete], k0.pos + p, 0),
                 buf[p..])
            == Run(Env(), k0, buf)
      modifies this
      ensures ok ==> Along(buf, p, k0) && current == next.node
      ensures !ok ==> Ended(buf, k0)
      ensures calls == old(calls) + [Told(HeadersComplete)]
      ensures ok <==> app(calls) == 0 || app(calls) == 1 || app(calls) == 2
      ensures app(calls) == 0 ==> Core() == next
      ensures app(calls) == 1 ==> Core() == next.(flags := next.flags.(skipBody := true))
      ensures app(calls) == 2 ==>
          Core() == next.(flags := next.flags.(skipBody := true), line := next.line.(upgrade := true))
      ensures !ok && app(calls) == 21 ==> error == 21 && Core() == next && verdict.Deferred?
      ensures !ok && app(calls) != 21 ==> error == 17 && current.Error? && verdict.Refused?
    {
      hide Step, Run, SpanAt, Follows, Tame, Join, Coherent, Answered, AnswerOf;
      AnsweredIs(next);
      AnsweredCoherent(strict, next, answer(trace));
      TameAt(app, calls, Told(HeadersComplete));
      FollowsAt(app, answer, calls);
      RunExtends(Env(), Config(Answered(next, answer(trace)), None, trace + [HeadersComplete], k0.pos + p, 0),
          buf[p..]);
      var code := Tell(HeadersComplete);
      AnsweredCoherent(strict, next, AnswerOf(code));
      Store(Answered(next, AnswerOf(code)));
      ok := 0 <= code <= 2;
      if !ok {
        if code == HPE_PAUSED {
          Halt(HPE_PAUSED, p, Deferred, k0.pos);
        } else {
          current, index := Error, 0;
          Halt(HPE_CB_HEADERS_COMPLETE, p, Refused, k0.pos);
        }
      }
    }

    method PerformGo(buf: seq<byte>, p: nat, q: nat, next: Core, ghost k0: Config)
      requires Consistent() && error == 0 && (spanOpen ==> spanPos <= p) && p <= q <= |buf| && Since(k0)
      requires Coherent(strict, next) && !next.node.Error?
      requires (if spanOpen then Some(spanKind) else None) == SpanAt(next.node)
      requires Run(Env(), Moved(Inside(buf, p, k0.pos), next, buf[p..q]), buf[q..]) == Run(Env(), k0, buf)
      modifies this`current, this`index, this`contentLength, this`headerState, this`flags, this`line
      ensures Along(buf, q, k0) && Core() == next
    {
      hide Step, Run, SpanAt, Coherent, Follows, Tame, Join;
      Store(next);
      InsideMoved(buf, p, q, k0.pos);
    }

    method PerformOpen(buf: seq<byte>, p: nat, kind: SpanKind, next: Core, ghost k0: Config)
      requires Consistent() && error == 0 && !spanOpen && p <= |buf| && Since(k0)
      requires Coherent(strict, next) && !next.node.Error? && SpanAt(next.node) == Some(kind)
      requires Run(Env(), Config(next, Some(OpenSpan(kind, [])), trace, k0.pos + p, 0), buf[p..]) == Run(Env(), k0, buf)
      modifies this
      ensures Along(buf, p, k0) && Core() == next && calls == old(calls)
    {
      hide Step, Run, SpanAt, Coherent, Follows, Tame, Join;
      spanOpen, spanKind, spanPos := true, kind, p;
      Store(next);
      assert pending + buf[p..p] == [];
    }

    method PerformFail(buf: seq<byte>, p: nat, code: nat, next: Core, ghost k0: Config)
      requires Consistent() && error == 0 && (spanOpen ==> spanPos <= p) && p <= |buf| && Since(k0)
      requires code != 0 && code != HPE_PAUSED && (code == HPE_PAUSED_UPGRADE ==> !next.node.Error?)
      requires Coherent(strict, next) && (next.node.Error? || (!spanOpen && SpanAt(next.node) == None))
      requires Run(Env(), k0, buf) == Inside(buf, p, k0.pos).(core := next, stop := code)
      modifies this
      ensures Ended(buf, k0) && verdict.Stopped? && calls == old(calls)
    {
      hide Step, Run, SpanAt, Coherent, Follows, Tame, Join;
      Store(next);
      Halt(code, p, Stopped, k0.pos);
    }

    /** Carries out one transition of the table, taken from the registers `k`. */
    method Perform(buf: seq<byte>, p: nat, k: Core, act: Act, ghost k0: Config) returns (ok: bool, q: nat)
      requires AlongWith(buf, p, k, k0)
      requires act == Step(strict, k, Head(buf[p..])) && !act.Wait?
      modifies this
      ensures ok ==> Along(buf, q, k0) && p <= q && (p < q || Rank(current) < Rank(k.node))
      ensures !ok ==> Ended(buf, k0)
      ensures if ok then Obeyed(old(calls)) else StoppedBy(old(calls))
    {
      hide Step, Run, Rank, SpanAt, Coherent, Follows, Tame, Join, Ended, Along, Heeded;
      NotifyFaults(strict, k, Head(buf[p..]));
      ghost var before := Inside(buf, p, k0.pos).(core := k);
      RunOne(Env(), before, buf[p..], act);
      StepKeeps(strict, k, Head(buf[p..]));
      ok, q := true, if Takes(act) then p + 1 else p;
      match act {
        case Go(next, take) =>
          GoIsMove(Env(), before, next, take, buf, p, q);
          PerformGo(buf, p, q, next, k0);
        case Open(kind, next) => PerformOpen(buf, p, kind, next, k0);
        case Close(next, take) => ok := PerformClose(buf, p, q, next, k0);
        case Notify(event, next, fault) => ok := PerformNotify(buf, p, event, next, fault, k0);
        case AskHeaders(next) => ok := PerformAsk(buf, p, next, k0);
        case Fail(code, next) =>
          PerformFail(buf, p, code, next, k0);
          ok := false;
      }
      if calls == old(calls) { HeededNone(app, calls); } else { HeededOne(app, old(calls), calls[|calls| - 1]); }
    }

    /** The block scans of the SSE4.2 build: at least sixteen bytes are left. */
    method StepRanges(buf: seq<byte>, p: nat, ghost k0: Config) returns (ok: bool, q: nat)
      requires Along(buf, p, k0) && p + 16 <= |buf| && Scanning(current)
      modifies this
      ensures ok ==> Along(buf, q, k0) && p <= q && (p < q || Rank(current) < Rank(old(current)))
      ensures !ok ==> Ended(buf, k0)
      ensures if ok then Obeyed(old(calls)) else StoppedBy(old(calls))
    {
      hide Step, Run, Rank, SpanAt, Coherent, Follows, Tame, Join, Ended, InRanges, Accepted, IsValueByte,
           IsFieldByte, IsUrlPathByte;
      var block := buf[p..p + 16];
      var n := FirstOutside(FirstRanges(strict, current), block);
      if n == 0 && current == N(FieldGeneral) { n := FirstOutside(TILDE_RANGES, block); }
      forall i | 0 <= i < n ensures Accepted(strict, current, buf[p..][i]) {
        assert buf[p..][i] == block[i];
        RangesAccept(strict, current, block[i]);
      }
      if n != 0 {
        ScanGlide(Env(), Inside(buf, p, k0.pos), buf[p..], n);
        q := p + n;
        InsideMoved(buf, p, q, k0.pos);
        assert buf[p..][..n] == buf[p..q] && buf[p..][n..] == buf[q..];
        ok := true;
      } else {
        assert !Accepted(strict, current, block[0]) by { RangesAccept(strict, current, block[0]); }
        var next := To(Core(), ScanExit(current));
        ScanStops(strict, Core(), block[0]);
        assert Head(buf[p..]) == Some(block[0]);
        ok, q := Perform(buf, p, Core(), Go(next, false), k0);
      }
    }

    /**
      llhttp__internal__run: from state to state, to one that waits for the next buffer or to an error.
      Every turn consumes bytes or goes to a state of lower rank, so every call ends.
    */
    method RunStates(buf: seq<byte>) returns (ok: bool)
      requires Valid() && error == 0 && (spanOpen ==> spanPos == 0)
      modifies this
      ensures ok ==> Valid() && error == 0 && (spanOpen ==> spanPos <= |buf|)
      ensures ok ==> fed == old(fed) && Inside(buf, |buf|, fed) == Run(Env(), old(View()), buf)
      ensures !ok ==> Ended(buf, old(View()))
      ensures if ok then Obeyed(old(calls)) else StoppedBy(old(calls))
    {
      hide Step, Run, SpanAt, Coherent, Follows, Tame, Join, Ended, Rank, Heeded, Outcome;
      ghost var k0, calls0 := View(), calls;
      HeededNone(app, calls);
      var p: nat := 0;
      assert buf[0..] == buf && (spanOpen ==> pending + buf[0..0] == pending);
      while true
        invariant Along(buf, p, k0) && Obeyed(calls0)
        decreases |buf| - p, Rank(current)
      {
        ghost var mid := calls;
        if MatcherOf(current).Seq? && p < |buf| {
          ok, p := StepMatcher(buf, p, k0);
          if !ok {
            OutcomeLater(app, calls0, mid, calls, verdict.Stopped?, error, current.Error?);
            return;
          }
          HeededLater(app, calls0, mid, calls);
        } else if Consuming(current) && 0 < contentLength && p < |buf| {
          p := StepConsume(buf, p, k0);
        } else if sse && p + 16 <= |buf| && Scanning(current) {
          ok, p := StepRanges(buf, p, k0);
          if !ok {
            OutcomeLater(app, calls0, mid, calls, verdict.Stopped?, error, current.Error?);
            return;
          }
          HeededLater(app, calls0, mid, calls);
        } else {
          var act := Step(strict, Core(), Head(buf[p..]));
          if act.Wait? {
            RunWaits(Env(), Inside(buf, p, k0.pos), buf[p..]);
            return true;
          }
          ok, p := Perform(buf, p, Core(), act, k0);
          if !ok {
            OutcomeLater(app, calls0, mid, calls, verdict.Stopped?, error, current.Error?);
            return;
          }
          HeededLater(app, calls0, mid, calls);
        }
      }
    }

    // ---- entry points

    /** The end of the buffer inside a span: its bytes so far are reported. */
    method FlushSpan(buf: seq<byte>, ghost k0: Config)
      requires Valid() && error == 0 && spanOpen && spanPos <= |buf| && fed == k0.pos
      requires Inside(buf, |buf|, fed) == Run(Env(), k0, buf)
      modifies this
      ensures Valid()
      ensures error == 0 ==> View() == Run(Env(), k0, buf) && fed == k0.pos + |buf|
      ensures error != 0 ==> Ended(buf, k0)
      ensures calls == old(calls) + [Piece(old(spanKind), buf[old(spanPos)..], false)] && current == old(current)
      ensures error == if app(calls) == -1 then 24 else app(calls)
      ensures error != 0 ==> verdict.Deferred?
    {
      hide Step, Run, SpanAt, Coherent, Follows, Tame, Join;
      TameAt(app, calls, Piece(spanKind, buf[spanPos..|buf|], false));
      RunSplit(Env(), k0, buf, []);
      assert buf + [] == buf && buf[|buf|..] == [];
      ghost var reached := Inside(buf, |buf|, fed);
      var code := Report(buf, |buf|, false);
      Halt(code, |buf|, if code == 0 then Running else Deferred, k0.pos);
      assert View() == reached;
    }

    /** The buffer is used up: an open span is reported, and a refusal of the piece ends the call. */
    method EndBuffer(buf: seq<byte>, ghost k0: Config, ghost calls0: seq<Call>)
      requires Valid() && error == 0 && (spanOpen ==> spanPos <= |buf|) && fed == k0.pos
      requires Inside(buf, |buf|, fed) == Run(Env(), k0, buf) && Obeyed(calls0)
      modifies this
      ensures Valid()
      ensures error == 0 ==> View() == Run(Env(), k0, buf) && fed == k0.pos + |buf| && Obeyed(calls0)
      ensures error != 0 ==> Ended(buf, k0) && StoppedBy(calls0)
    {
      hide Step, Run, SpanAt, Coherent, Follows, Tame, Join, Heeded, Ended, Outcome;
      if spanOpen {
        ghost var mid := calls;
        FlushSpan(buf, k0);
        HeededPiece(app, calls0, mid, calls, error);
      } else {
        fed, verdict := fed + |buf|, Running;
      }
    }

    /**
      llhttp__internal_execute.  An earlier error is returned and nothing happens.  Without an error the
      whole buffer is consumed and the object is where the reference run is.
    */
    method Execute(buf: seq<byte>) returns (err: int)
      requires Valid()
      modifies this
      ensures Valid() && err == error
      ensures old(error) != 0 ==> error == old(error) && unchanged(this)
      ensures old(error) == 0 && err == 0 ==> View() == Run(Env(), old(View()), buf) && fed == old(fed) + |buf|
      ensures old(error) == 0 && err != 0 ==> Ended(buf, old(View()))
      ensures old(error) == 0 ==> if err == 0 then Obeyed(old(calls)) else StoppedBy(old(calls))
    {
      if error != 0 { return error; }
      hide Step, Run, SpanAt, Coherent, Follows, Tame, Join, Heeded, Ended, Outcome, ValidWith, View;
      ghost var k0, calls0 := View(), calls;
      if spanOpen { spanPos := 0; }
      var ok := RunStates(buf);
      if ok {
        EndBuffer(buf, k0, calls0);
      } else {
        EndedIsError(buf, k0);
      }
      return error;
    }

    /** llhttp_pause */
    method Pause()
      requires Valid()
      modifies this`error
      ensures Valid() && View() == old(View())
      ensures error == if old(error) == 0 then 21 else old(error)
    {
      if error == 0 { error := HPE_PAUSED; }
    }

    /** llhttp_resume */
    method Resume()
      requires Valid()
      modifies this`error
      ensures Valid() && View() == old(View())
      ensures error == if old(error) == 21 then 0 else old(error)
    {
      if error == HPE_PAUSED { error := 0; }
    }

    /** llhttp_resume_after_upgrade */
    method ResumeAfterUpgrade()
      requires Valid()
      modifies this`error
      ensures Valid() && View() == old(View())
      ensures error == if old(error) == 22 then 0 else old(error)
    {
      if error == HPE_PAUSED_UPGRADE { error := 0; }
    }

    /** llhttp_reset: everything but the type, the lenient flags and the application is forgotten. */
    method Reset()
      requires Valid()
      modifies this
      ensures Valid() && error == 0 && calls == []
      ensures View() == Initial(old(line.ty), old(line.lenient))
    {
      Store(InitialCore(line.ty, line.lenient));
      spanOpen, spanPos, error, errorPos := false, 0, 0, 0;
      calls, trace, pending, fed, verdict := [], [], [], 0, Running;
    }

    /** llhttp_set_lenient_headers, llhttp_set_lenient_chunked_length and llhttp_set_lenient_keep_alive */
    method SetLenientHeaders(enabled: bool)
      requires Valid()
      modifies this`line
      ensures Valid() && line == old(line).(lenient := old(line.lenient).(headers := enabled))
    {
      line := line.(lenient := line.lenient.(headers := enabled));
    }

    method SetLenientChunkedLength(enabled: bool)
      requires Valid()
      modifies this`line
      ensures Valid() && line == old(line).(lenient := old(line.lenient).(chunkedLength := enabled))
    {
      line := line.(lenient := line.lenient.(chunkedLength := enabled));
    }

    method SetLenientKeepAlive(enabled: bool)
      requires Valid()
      modifies this`line
      ensures Valid() && line == old(line).(lenient := old(line.lenient).(keepAlive := enabled))
    {
      line := line.(lenient := line.lenient.(keepAlive := enabled));
    }

    /** llhttp_finish: the input has ended. */
    method Finish() returns (err: int)
      requires Valid()
      modifies this`calls, this`trace, this`pending
      ensures Valid()
      ensures old(error) != 0 ==> err == 0 && calls == old(calls)
      ensures old(error) == 0 && line.finish.Safe? ==> err == 0 && calls == old(calls)
      ensures old(error) == 0 && line.finish.Unsafe? ==> err == 14 && calls == old(calls)
      ensures old(error) == 0 && line.finish.SafeWithCb? ==>
          calls == old(calls) + [Told(MessageComplete)] && err == app(calls)
    {
      if error != 0 { return 0; }
      match line.finish
      case SafeWithCb => err := Tell(MessageComplete);
      case Safe => err := 0;
      case Unsafe => err := HPE_INVALID_EOF_STATE;
    }
  }

  /**
    The way the API is meant to be driven: the input is offered in pieces of any lengths, and after a
    pause the parser is resumed and offered again what it had not consumed.  Whatever the pieces and
    wherever the application pauses, the events and the state are those of one reference run over the
    whole input; an error comes at the same byte with the same code.
  */
  method Drive(parser: Parser, input: seq<byte>, lens: seq<nat>) returns (used: nat)
    requires parser.Valid() && parser.error == 0 && Tame(parser.app)
    modifies parser
    ensures parser.Valid() && used <= |input| && parser.fed == old(parser.fed) + used
    ensures parser.error == 0 ==>
        Run(parser.Env(), parser.View(), input[used..]) == Run(parser.Env(), old(parser.View()), input)
    ensures parser.error != 0 ==>
        var r := Run(parser.Env(), old(parser.View()), input);
        && r.stop == parser.error && r.pos == parser.fed && r.core == parser.Core() && r.trace == parser.trace
        && parser.pending <= Data(r.span)  // what the application holds of the span the error struck in
  {
    hide Step, Run, SpanAt, Coherent, Follows, Tame, Join, Rank;
    used := 0;
    assert input[0..] == input;
    ghost var k0 := parser.View();
    for i := 0 to |lens|
      invariant parser.Valid() && parser.error == 0 && used <= |input| && parser.fed == k0.pos + used
      invariant Run(parser.Env(), parser.View(), input[used..]) == Run(parser.Env(), k0, input)
    {
      var n := if used + lens[i] <= |input| then lens[i] else |input| - used;
      ghost var before := parser.View();
      var piece := input[used..used + n];
      var err := parser.Execute(piece);
      CutPiece(input, used, n, parser.errorPos);
      RunSplit(parser.Env(), before, piece, input[used + n..]);
      if err == 0 {
        used := used + n;
      } else if err == HPE_PAUSED {
        RunSplit(parser.Env(), parser.View(), piece[parser.errorPos..], input[used + n..]);
        used := used + parser.errorPos;
        parser.Resume();
      } else {
        StoppedStays(parser.Env(), before, piece, input[used + n..]);
        RunKeeps(parser.Env(), before, piece);
        used := used + parser.errorPos;
        return;
      }
    }
  }

  lemma CutPiece(input: seq<byte>, used: nat, n: nat, at: int)
    requires used + n <= |input|
    ensures input[used..] == input[used..used + n] + input[used + n..]
    ensures 0 <= at <= n ==> input[used..used + n][at..] + input[used + n..] == input[used + at..]
  {
  }

  lemma StoppedStays(env: Env, k: Config, a: seq<byte>, b: seq<byte>)
    requires Run(env, k, a).stop != 0
    ensures Run(env, Run(env, k, a), b) == Run(env, k, a)
  {
    hide Step;
  }
}
