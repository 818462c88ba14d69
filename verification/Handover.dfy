/**
  When the parser hands the connection over: what the answer to the headers, the flags of the headers and the
  pause for an upgrade have to do with each other (3rd/llhttp/http.c:34-72, 3rd/llhttp/llhttp.c:13402-13534).
*/
module Handover {
  import opened Http
  import opened Machine
  import opened Numbers
  import opened Automaton
  import opened Semantics

  /** CONNECT, or both upgrade headers of a request or of a 101 response. */
  predicate HeadersUpgrade(k: Core) {
    || k.line.verb == 5
    || (k.flags.upgrade && k.flags.connUpgrade && (k.line.ty == Request || k.line.status == 101))
  }

  predicate Earned(k: Core) { k.line.upgrade ==> HeadersUpgrade(k) }

  /** From the end of the headers to the end of the message, the upgrade register is owed to the headers. */
  predicate Honest(k: Core) {
    match k.node
    case L(_) => !k.flags.trailing
    case U(_) => !k.flags.trailing
    case N(_) => k.flags.trailing ==> Earned(k)
    case V(_) => k.flags.trailing ==> Earned(k)
    case B(n) =>
      if n.HeadersAlmostDone? || n.TestFlags? then k.flags.trailing ==> Earned(k)
      else if n.OnMessageComplete1? || n.PauseUpgrade? then k.line.upgrade && HeadersUpgrade(k)
      else n.Closed? || Earned(k)
    case Error => true
  }

  /** A transition keeps that, and pauses for an upgrade only if the headers upgrade. */
  predicate KeepsHonest(a: Act) {
    match a
    case Wait => true
    case AskHeaders(next) => next.node.B? && next.node.body.AfterHeadersComplete? && Earned(next)
    case Fail(code, next) => code == 22 ==> HeadersUpgrade(next)
    case _ => Honest(a.next)
  }

  lemma LineHonest(k: Core, n: LineNode, c: Option<byte>)
    requires k.node == L(n) && Honest(k)
    ensures KeepsHonest(LineStep(k, n, c))
  {
    hide Machine.Apply, MatcherOf, MethodCode, IsMethodPrefix;
  }

  lemma UrlHonest(k: Core, n: UrlNode, c: Option<byte>)
    requires k.node == U(n) && Honest(k)
    ensures KeepsHonest(UrlStep(k, n, c))
  {
    hide Machine.Apply, MatcherOf;
  }

  /** Header lines may set flags, and leave the registers of the start line alone. */
  predicate OnlyFlags(k: Core, a: Act) {
    match a
    case Wait => true
    case AskHeaders(_) => false
    case Fail(code, _) => code != 22
    case _ =>
      && a.next.line == k.line && a.next.flags.trailing == k.flags.trailing
      && (k.flags.upgrade ==> a.next.flags.upgrade) && (k.flags.connUpgrade ==> a.next.flags.connUpgrade)
      && (a.next.node.N? || a.next.node.V? || a.next.node == B(HeadersAlmostDone))
  }

  lemma NameFlags(strict: bool, k: Core, n: NameNode, c: Option<byte>)
    requires k.node == N(n)
    ensures OnlyFlags(k, NameStep(strict, k, n, c))
  {
    hide Machine.Apply, MatcherOf;
  }

  lemma Settled(k: Core)
    ensures Settle(k).line == k.line
    ensures Settle(k).flags.trailing == k.flags.trailing
    ensures Settle(k).flags.upgrade == k.flags.upgrade
    ensures k.flags.connUpgrade ==> Settle(k).flags.connUpgrade
  {
    hide LineStep, UrlStep, NameStep, ValueStep, BodyStep, LineByte, UrlByte, NameByte, ValueByte, ListByte, BodyByte;
    match k.hs {
      case ConnKeepAlive =>
      case ConnClose =>
      case ConnUpgrade =>
      case TeChunked =>
      case _ =>
    }
  }

  lemma ListFlags(k: Core, n: ValueNode, b: byte)
    requires k.node == V(n)
    ensures OnlyFlags(k, ListByte(k, n, b))
  {
    hide Machine.Apply, MatcherOf, Lower, IsValueByte, Settle;
    Settled(k);
  }

  lemma OwnFlags(strict: bool, k: Core, n: ValueNode, b: byte)
    requires k.node == V(n) && ValueReads(n) && !IsListNode(n)
    ensures OnlyFlags(k, ValueByte(strict, k, n, b))
  {
    hide MulAdd, IsValueByte, IsDigit, DigitVal, Settle, ListByte;
    Settled(k);
  }

  lemma ValueByteFlags(strict: bool, k: Core, n: ValueNode, b: byte)
    requires k.node == V(n) && ValueReads(n)
    ensures OnlyFlags(k, ValueByte(strict, k, n, b))
  {
    hide Machine.Apply, MatcherOf, ListByte, MulAdd, IsValueByte, IsDigit, DigitVal, Settle, LineStep, UrlStep,
         NameStep, BodyStep, OnlyFlags;
    if IsListNode(n) { ListFlags(k, n, b); } else { OwnFlags(strict, k, n, b); }
  }

  lemma AutomatonFlags(k: Core)
    ensures OnlyFlags(k, ValueAutomaton(k))
  {
    match k.hs {
      case ContentLength =>
      case TransferEncoding =>
      case Upgrade =>
      case _ =>
    }
  }

  lemma ValueFlags(strict: bool, k: Core, n: ValueNode, c: Option<byte>)
    requires k.node == V(n)
    ensures OnlyFlags(k, ValueStep(strict, k, n, c))
  {
    hide ValueByte, ValueAutomaton, LineStep, UrlStep, NameStep, BodyStep;
    AutomatonFlags(k);
    if c.Some? && ValueReads(n) { ValueByteFlags(strict, k, n, c.value); }
  }

  lemma BodyHonest(strict: bool, k: Core, n: BodyNode, c: Option<byte>)
    requires k.node == B(n) && Honest(k)
    ensures KeepsHonest(BodyStep(strict, k, n, c))
  {
    hide Machine.Apply, MatcherOf;
  }

  lemma StepHonest(strict: bool, k: Core, c: Option<byte>)
    requires Honest(k)
    ensures KeepsHonest(Step(strict, k, c))
  {
    hide LineStep, UrlStep, NameStep, ValueStep, BodyStep;
    match k.node {
      case L(n) => LineHonest(k, n, c);
      case U(n) => UrlHonest(k, n, c);
      case N(n) => NameFlags(strict, k, n, c);
      case V(n) => ValueFlags(strict, k, n, c);
      case B(n) => BodyHonest(strict, k, n, c);
      case Error =>
    }
  }

  /**
    As long as the application never asks for an upgrade itself, the parser pauses for one only when the headers
    ask for it.
  */
  lemma {:induction false} PausesHonestly(env: Env, k: Config, buf: seq<byte>)
    requires k.stop == 0 && Honest(k.core) && forall t :: !env.answer(t).SkipBodyAndUpgrade?
    ensures var r := Run(env, k, buf);
            (r.stop == 0 ==> Honest(r.core)) && (r.stop == 22 ==> HeadersUpgrade(r.core))
    decreases |buf|, Rank(k.core.node)
  {
    var a := Step(env.strict, k.core, Head(buf));
    StepShape(env.strict, k.core, Head(buf));
    StepHonest(env.strict, k.core, Head(buf));
    hide Step, Rank, HeadersUpgrade;
    if !a.Wait? && !a.Fail? {
      var next := Advance(env, k, a, Head(buf));
      assert Honest(next.core) by { if a.AskHeaders? { AnswerHonest(a.next, env.answer(k.trace)); } }
      hide Honest;
      PausesHonestly(env, next, if Takes(a) then buf[1..] else buf);
    }
  }

  lemma AnswerHonest(k: Core, answer: HeadersAnswer)
    requires k.node.B? && k.node.body.AfterHeadersComplete? && Earned(k) && !answer.SkipBodyAndUpgrade?
    ensures Honest(Answered(k, answer))
  {
  }
}
