/**
  The strict build against the loose one, from the start of the header section to the end of the
  message (3rd/llhttp/llhttp.c, the states of the strict half at 1095-1124, 1160-1182, 1545-1566,
  1602-1624 and 2203-2222 against their loose counterparts).
*/
module Strict {
  import opened Http
  import opened Machine
  import opened Numbers
  import opened Automaton
  import opened Semantics
  import opened Invariants

  /** The loose state for a strict one: match index 0 and 1 at a chunk's end are two states there. */
  function Loosened(k: Core): Core {
    if k.node == B(ChunkDataAlmostDone) && k.index == 1 then k.(node := B(ChunkDataAlmostDoneSkip), index := 0) else k
  }

  function LoosenedAct(a: Act): Act {
    match a
    case Wait => a
    case Go(next, take) => Go(Loosened(next), take)
    case Open(kind, next) => Open(kind, Loosened(next))
    case Close(next, take) => Close(Loosened(next), take)
    case Notify(event, next, fault) => Notify(event, Loosened(next), fault)
    case AskHeaders(next) => AskHeaders(Loosened(next))
    case Fail(code, next) => a
  }

  function LoosenedConfig(k: Config): Config { k.(core := Loosened(k.core)) }

  function Loose(env: Env): Env { env.(strict := false) }

  /** A strict transition that is no failure, and does not send a space in a field name to one, is loose. */
  lemma NameLoosens(k: Core, n: NameNode, c: Option<byte>)
    requires Coherent(true, k) && k.node == N(n) && !(n.FieldGeneral? && c == Some(SP))
    ensures var a := NameStep(true, k, n, c); a.Fail? || NameStep(false, Loosened(k), n, c) == LoosenedAct(a)
  {
  }

  lemma ValueLoosens(k: Core, n: ValueNode, c: Option<byte>)
    requires Coherent(true, k) && k.node == V(n)
    ensures var a := ValueStep(true, k, n, c); a.Fail? || ValueStep(false, Loosened(k), n, c) == LoosenedAct(a)
  {
  }

  lemma BodyLoosens(k: Core, n: BodyNode, c: Option<byte>)
    requires Coherent(true, k) && k.node == B(n)
    ensures var a := BodyStep(true, k, n, c);
            a.Fail? || Step(false, Loosened(k), c) == LoosenedAct(a)
  {
  }

  lemma LineLoosens(k: Core, n: LineNode, c: Option<byte>)
    requires Coherent(true, k) && k.node == L(n)
    ensures LineStep(Loosened(k), n, c) == LoosenedAct(LineStep(k, n, c))
  {
    hide MatcherOf, Machine.Apply, MulAddStatus, MethodCode, IsMethodPrefix, IsDigit, DigitVal, IsRtspMethod;
  }

  lemma UrlLoosens(k: Core, n: UrlNode, c: Option<byte>)
    requires Coherent(true, k) && k.node == U(n)
    ensures UrlStep(Loosened(k), n, c) == LoosenedAct(UrlStep(k, n, c))
  {
    hide MatcherOf, Machine.Apply;
  }

  lemma StepLoosens(k: Core, c: Option<byte>)
    requires Coherent(true, k) && !(k.node == N(FieldGeneral) && c == Some(SP))
    ensures var a := Step(true, k, c); a.Fail? || Step(false, Loosened(k), c) == LoosenedAct(a)
  {
    match k.node
    case L(n) => LineLoosens(k, n, c);
    case U(n) => UrlLoosens(k, n, c);
    case N(n) => NameLoosens(k, n, c);
    case V(n) => ValueLoosens(k, n, c);
    case B(n) => BodyLoosens(k, n, c);
    case Error =>
  }

  /** The loose table has the space among the bytes of a field name; the strict parser fails there. */
  lemma SpaceInName(env: Env, k: Config, buf: seq<byte>)
    requires env.strict && k.stop == 0 && k.core.node == N(FieldGeneral) && Head(buf) == Some(SP)
    ensures Run(env, k, buf).stop == 10
  {
    var k1 := k.(core := To(k.core, N(FieldGeneralOtherwise)));
    assert Step(true, k.core, Head(buf)) == Go(k1.core, false);
    assert Step(true, k1.core, Head(buf)) == FailAt(k1.core, HPE_INVALID_HEADER_TOKEN);
    hide Step;
    RunOne(env, k, buf, Go(k1.core, false));
    RunOne(env, k1, buf, FailAt(k1.core, HPE_INVALID_HEADER_TOKEN));
  }

  lemma AdvanceLoosens(env: Env, k: Config, a: Act, c: Option<byte>)
    requires Takes(a) ==> c.Some?
    requires a.AskHeaders? ==> a.next.index == 0
    requires !a.Fail?
    ensures Advance(Loose(env), LoosenedConfig(k), LoosenedAct(a), c) == LoosenedConfig(Advance(env, k, a, c))
    ensures Takes(LoosenedAct(a)) == Takes(a)
  {
  }

  /**
    Whatever the strict parser accepts the loose one accepts, with the same events and the
    corresponding state.
  */
  lemma {:induction false} StrictRefinesLoose(env: Env, k: Config, buf: seq<byte>)
    requires env.strict && Sound(true, k) && k.stop == 0 && !k.core.node.Error?
    requires Run(env, k, buf).stop == 0
    ensures Run(Loose(env), LoosenedConfig(k), buf) == LoosenedConfig(Run(env, k, buf))
    decreases |buf|, Rank(k.core.node)
  {
    var c := Head(buf);
    var a := Step(true, k.core, c);
    StepShape(true, k.core, c);
    StepShape(false, Loosened(k.core), c);
    StepKeeps(true, k.core, c);
    if k.core.node == N(FieldGeneral) && c == Some(SP) {
      SpaceInName(env, k, buf);
      assert false;
    } else {
      StepLoosens(k.core, c);
      hide Step, Rank, Coherent, SpanAt, Loosened;
      if a.Fail? {
        assert false;
      } else if !a.Wait? {
        AdvanceLoosens(env, k, a, c);
        AnsweredSound(env, k, a, c);
        StrictRefinesLoose(env, Advance(env, k, a, c), if Takes(a) then buf[1..] else buf);
      }
    }
  }

  lemma AnsweredSound(env: Env, k: Config, a: Act, c: Option<byte>)
    requires Sound(true, k) && !k.core.node.Error? && Keeps(true, k.core, a) && !a.Fail? && !a.Wait?
    requires (Takes(a) ==> c.Some?) && !a.next.node.Error?
    ensures Sound(true, Advance(env, k, a, c)) && !Advance(env, k, a, c).core.node.Error?
    ensures Advance(env, k, a, c).stop == k.stop
  {
    hide SpanAt;
  }
}
