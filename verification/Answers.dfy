/**
  What the application's answer to the headers does to a whole connection, on the parser object:
  3rd/llhttp/llhttp.c:13464-13534 against the headers of the message.
*/
module Answers {
  import opened Http
  import opened Machine
  import opened Automaton
  import opened Semantics
  import opened Bodies
  import opened Headers
  import opened Messages
  import opened Connections
  import opened Parser
  import opened Handover

  /** The trace as the application would learn it from notifications alone. */
  function AsTold(trace: seq<Event>): seq<Call> {
    if trace == [] then [] else AsTold(trace[..|trace| - 1]) + [Call.Told(trace[|trace| - 1])]
  }

  lemma {:induction false} ToldIsJoined(trace: seq<Event>)
    ensures Join(AsTold(trace)) == Joined(trace, [])
  {
    if trace != [] {
      var front, e := trace[..|trace| - 1], trace[|trace| - 1];
      ToldIsJoined(front);
      JoinAppend(AsTold(front), Call.Told(e));
      assert front + [e] == trace;
    }
  }

  /** The application answers every headers callback so that nothing is upgraded on its account. */
  ghost predicate NeverAsks(app: App) {
    forall calls: seq<Call> ::
      var code := app(calls + [Call.Told(HeadersComplete)]);
      code == 0 || code == 1 || code == 21
  }

  lemma NeverUpgrades(app: App, answer: seq<Event> -> HeadersAnswer)
    requires Follows(app, answer) && NeverAsks(app)
    ensures forall t :: !answer(t).SkipBodyAndUpgrade?
  {
    forall t ensures !answer(t).SkipBodyAndUpgrade? {
      ToldIsJoined(t);
      FollowsAt(app, answer, AsTold(t));
    }
  }

  /**
    If the application never answers 2, then however the input is cut and wherever it is paused, the parser
    stops for an upgrade only if the headers it has read ask for one.
  */
  method DriveWithoutAsking(parser: Parser, input: seq<byte>, lens: seq<nat>) returns (used: nat)
    requires parser.Valid() && parser.error == 0 && Tame(parser.app) && NeverAsks(parser.app) && Honest(parser.Core())
    modifies parser
    ensures parser.Valid() && used <= |input|
    ensures parser.error == 22 ==> HeadersUpgrade(parser.Core())
  {
    hide Honest, HeadersUpgrade, Run, Follows, Join;
    NeverUpgrades(parser.app, parser.answer);
    PausesHonestly(parser.Env(), parser.View(), input);
    used := Drive(parser, input, lens);
  }

  /** The application answers `code` to the headers and 0 to everything else. */
  ghost predicate AlwaysAnswers(app: App, code: int) {
    forall calls: seq<Call>, c: Call :: app(calls + [c]) == if c == Call.Told(HeadersComplete) then code else 0
  }

  lemma AlwaysThat(app: App, answer: seq<Event> -> HeadersAnswer, code: int, t: seq<Event>)
    requires Follows(app, answer) && AlwaysAnswers(app, code) && 0 <= code <= 2
    ensures Tame(app) && answer(t) == AnswerOf(code)
  {
    ToldIsJoined(t);
    FollowsAt(app, answer, AsTold(t));
  }

  /** Nothing that such an application answers ends a call. */
  lemma NothingEnds(app: App, code: int, before: seq<Call>, calls: seq<Call>, automaton: bool, error: int, final: bool)
    requires AlwaysAnswers(app, code) && 0 <= code <= 2 && Outcome(app, before, calls, automaton, error, final)
    ensures automaton
  {
    if !automaton { LastGoesOn(app, code, calls); }
  }

  lemma LastGoesOn(app: App, code: int, calls: seq<Call>)
    requires AlwaysAnswers(app, code) && 0 <= code <= 2 && calls != []
    ensures LetsGoOn(calls[|calls| - 1], app(calls))
  {
    assert calls == calls[..|calls| - 1] + [calls[|calls| - 1]];
  }

  /** A start line and headers whose body, if any, the application skips. */
  predicate IsHead(m: Message, ty: MsgType) {
    && IsStart(m.start, ty) && Readable(Clean, m.headers) && m.body == Unread
    && !(FinalCoding(m.headers).Some? && LengthDigits(m.headers).Some?)
  }

  lemma HeadIsMessage(env: Env, m: Message, ty: MsgType, lenient: Lenient)
    requires IsHead(m, ty) && !lenient.chunkedLength && !AnswerTo(env, m).Proceed?
    ensures IsMessage(env, m, ty, lenient)
  {
    hide IsStart, Readable, IsHeader, FinalCoding, LengthDigits, Upgrades;
  }

  lemma HeadEvents(m: Message, ty: MsgType)
    requires IsHead(m, ty)
    ensures MessageEvents(m) == StartEvents(m.start) + SectionEvents(m.headers) + [HeadersComplete, MessageComplete]
  {
    hide IsStart, Readable, IsHeader, FinalCoding, LengthDigits, StartEvents, SectionEvents;
    assert [HeadersComplete] + [MessageComplete] == [HeadersComplete, MessageComplete];
  }

  /** Where the reference run is after the head, if the headers are answered by 1 or 2. */
  lemma RunHead(env: Env, m: Message, ty: MsgType, lenient: Lenient, code: int)
    requires IsHead(m, ty) && !lenient.chunkedLength && (code == 1 || code == 2) && AnswerTo(env, m) == AnswerOf(code)
    ensures var r := Run(env, Initial(ty, lenient), MessageText(m, ty));
            && r.trace == StartEvents(m.start) + SectionEvents(m.headers) + [HeadersComplete, MessageComplete]
            && r.stop == if code == 2 || Upgrades(FirstLine(m, ty, lenient), m.headers) then 22 else 0
  {
    HeadIsMessage(env, m, ty, lenient);
    HeadEvents(m, ty);
    assert Skips(AnswerOf(code)) && (AnswerOf(code).SkipBodyAndUpgrade? <==> code == 2);
    hide Run, Step, IsStart, IsHeader, Readable, FinalCoding, LengthDigits, Upgrades, StartEvents, SectionEvents,
         FirstLine, AnswerTo, Persists, MessageText, MessageEvents, AnswerOf, IsMessage, LeftBehind;
    var r := ReadMessage(env, m, ty, lenient, []);
    assert MessageText(m, ty) + [] == MessageText(m, ty);
    if r.stop == 0 { BetweenWaits(env, r); } else { RunStopped(env, r, []); }
  }

  /**
    A new parser and the head of any request or response.  Answering 1, as a client does that sent HEAD, completes
    the message, and the parser stops for an upgrade exactly when the headers ask for one; answering 2 always
    stops it.
  */
  method ReadAnswered(parser: Parser, m: Message, ty: MsgType, code: int) returns (err: int)
    requires parser.Valid() && parser.error == 0 && parser.View() == Initial(ty, Lenient(false, false, false))
    requires (code == 1 || code == 2) && AlwaysAnswers(parser.app, code) && IsHead(m, ty)
    modifies parser
    ensures Join(parser.calls).trace
         == StartEvents(m.start) + SectionEvents(m.headers) + [HeadersComplete, MessageComplete]
    ensures var upgrades := Upgrades(FirstLine(m, ty, Lenient(false, false, false)), m.headers);
            err == if code == 2 || upgrades then 22 else 0
  {
    ghost var lenient := Lenient(false, false, false);
    AlwaysThat(parser.app, parser.answer, code, StartEvents(m.start) + SectionEvents(m.headers));
    RunHead(parser.Env(), m, ty, lenient, code);
    hide Run, Step, IsStart, IsHeader, Readable, FinalCoding, LengthDigits, Upgrades, StartEvents, SectionEvents,
         FirstLine, AnswerTo, MessageText, Outcome, AlwaysAnswers, Follows, Tame, Join;
    ghost var before := parser.calls;
    err := parser.Execute(MessageText(m, ty));
    if err != 0 {
      NothingEnds(parser.app, code, before, parser.calls, parser.verdict.Stopped?, err, parser.current.Error?);
    }
  }
}
