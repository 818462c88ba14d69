/**
  What every transition keeps: which span is open in which state, the match index inside its sequence,
  and the registers inside their C types.
*/
module Invariants {
  import opened Http
  import opened Machine
  import opened Automaton
  import opened Semantics

  /** The span that is open in a state; no state is ever reached with two different ones. */
  function SpanAt(n: Node): Option<SpanKind> {
    match n
    case L(l) => if l.ResStatus? then Some(Status) else None
    case U(u) =>
      if u.SpanStartUrlConnect? || u.SpanStartUrl? || u.UrlSkipToHttp09? || u.UrlSkipLfToHttp09? || u.OnUrlComplete09?
         || u.UrlSkipToHttp? || u.OnUrlComplete? then None else Some(Url)
    case N(f) => if f.FieldStart? || f.SpanStartField? || f.OnFieldComplete? then None else Some(HeaderField)
    case V(v) =>
      if v.DiscardWs? || v.DiscardWsAlmostDone? || v.DiscardLws? || v.SpanStartEmptyValue? || v.SpanStartValue?
         || v.LengthOverflowError? || v.LengthCharError? || v.ValueAlmostDone? || v.ValueLws? || v.OnValueComplete?
      then None else Some(HeaderValue)
    case B(b) => if b.ConsumeChunk? || b.ConsumeIdentity? || b.Eof? then Some(Body) else None
    case Error => None
  }

  predicate Coherent(strict: bool, k: Core) {
    && (k.index == 0
        || (MatcherOf(k.node).Seq? && k.index < |MatcherOf(k.node).text|)
        || (strict && k.node == B(ChunkDataAlmostDone) && k.index < 2))
    && k.length <= MAX_U64 && k.line.status <= MAX_U16 && k.line.verb <= 45 && k.line.major <= 9 && k.line.minor <= 9
  }

  /** The callbacks open and close spans exactly where SpanAt changes. */
  predicate Paired(k: Core, a: Act) {
    match a
    case Wait => true
    case Go(next, _) => SpanAt(next.node) == SpanAt(k.node)
    case Open(kind, next) => SpanAt(k.node) == None && SpanAt(next.node) == Some(kind)
    case Close(next, _) => SpanAt(k.node).Some? && SpanAt(next.node) == None
    case Notify(_, next, _) => SpanAt(k.node) == None && SpanAt(next.node) == None
    case AskHeaders(next) => SpanAt(k.node) == None && SpanAt(next.node) == None
    case Fail(_, next) => next.node.Error? || (SpanAt(k.node) == None && SpanAt(next.node) == None)
  }

  predicate Keeps(strict: bool, k: Core, a: Act) {
    && Paired(k, a)
    && (!a.Wait? ==> Coherent(strict, a.next))
    && (a.Notify? || a.AskHeaders? ==> a.next.index == 0)
  }

  lemma MethodCodeFits(p: seq<byte>, i: nat)
    requires i <= METHODS
    ensures MethodCode(p, i) <= METHODS
    decreases METHODS - i
  {
  }

  lemma LineByteKeeps(strict: bool, k: Core, n: LineNode, b: byte)
    requires Coherent(strict, k) && k.node == L(n) && LineReads(n)
    ensures Keeps(strict, k, LineByte(k, n, b))
  {
    if n.Method? {
      MethodByteKeeps(strict, k, n.prefix, b);
    } else if OfStatusLine(n) {
      StatusByteKeeps(strict, k, n, b);
    } else {
      RequestByteKeeps(strict, k, n, b);
    }
    hide Keeps, MethodByte, Coherent;
  }

  lemma MethodByteKeeps(strict: bool, k: Core, prefix: seq<byte>, b: byte)
    requires Coherent(strict, k) && k.node == L(Method(prefix))
    ensures Keeps(strict, k, MethodByte(k, prefix, b))
  {
    hide MethodCode, IsMethodPrefix, MatcherOf;
    MethodCodeFits(prefix + [b], 0);
    assert MatcherOf(L(Method(prefix))).NoMatcher? by { NoMatcherThere(prefix); }
  }

  lemma NoMatcherThere(prefix: seq<byte>)
    ensures MatcherOf(L(Method(prefix))).NoMatcher?
  {
  }

  predicate OfStatusLine(n: LineNode) {
    || n.StartRes? || n.ResMajor? || n.ResDot? || n.ResMinor? || n.ResHttpEnd? || n.ResStatusCode?
    || n.ResStatusCodeOtherwise? || n.ResStatusStart? || n.SpanStartStatus? || n.ResStatus? || n.ResLineAlmostDone?
  }

  lemma StatusByteKeeps(strict: bool, k: Core, n: LineNode, b: byte)
    requires Coherent(strict, k) && k.node == L(n) && OfStatusLine(n)
    ensures Keeps(strict, k, LineByte(k, n, b))
  {
    hide MethodByte;
  }

  lemma RequestByteKeeps(strict: bool, k: Core, n: LineNode, b: byte)
    requires Coherent(strict, k) && k.node == L(n) && LineReads(n) && !n.Method? && !OfStatusLine(n)
    ensures Keeps(strict, k, LineByte(k, n, b))
  {
    hide MethodByte;
  }

  lemma LineKeeps(strict: bool, k: Core, n: LineNode, c: Option<byte>)
    requires Coherent(strict, k) && k.node == L(n)
    ensures Keeps(strict, k, LineStep(k, n, c))
  {
    if c.Some? && LineReads(n) { LineByteKeeps(strict, k, n, c.value); }
  }

  lemma UrlKeeps(strict: bool, k: Core, n: UrlNode, c: Option<byte>)
    requires Coherent(strict, k) && k.node == U(n)
    ensures Keeps(strict, k, UrlStep(k, n, c))
  {
  }

  lemma NameKeeps(strict: bool, k: Core, n: NameNode, c: Option<byte>)
    requires Coherent(strict, k) && k.node == N(n)
    ensures Keeps(strict, k, NameStep(strict, k, n, c))
  {
    hide NameByte, Keeps, Coherent;
    if n.OnFieldComplete? {
      FieldEndKeeps(strict, k);
    } else if c.Some? {
      NameByteKeeps(strict, k, n, c.value);
    } else {
      WaitKeeps(strict, k);
    }
  }

  lemma WaitKeeps(strict: bool, k: Core)
    ensures Keeps(strict, k, Wait)
  {
  }

  lemma FieldEndKeeps(strict: bool, k: Core)
    requires Coherent(strict, k) && k.node == N(OnFieldComplete)
    ensures Keeps(strict, k, NameStep(strict, k, OnFieldComplete, None))
    ensures forall c :: NameStep(strict, k, OnFieldComplete, c) == NameStep(strict, k, OnFieldComplete, None)
  {
  }

  lemma NameByteKeeps(strict: bool, k: Core, n: NameNode, b: byte)
    requires Coherent(strict, k) && k.node == N(n)
    ensures Keeps(strict, k, NameByte(strict, k, n, b))
  {
    hide Lower, IsFieldByte;
  }

  /** Settling a list element only records what the element says. */
  lemma SettleKeeps(k: Core)
    ensures var r := Settle(k);
            && r == k.(hs := r.hs, flags := r.flags)
            && r.flags.trailing == k.flags.trailing && r.flags.contentLength == k.flags.contentLength
  {
    match k.hs {
      case ConnKeepAlive =>
      case ConnClose =>
      case ConnUpgrade =>
      case TeChunked =>
      case _ =>
    }
  }

  lemma ConnectionKeeps(strict: bool, k: Core, n: ValueNode, b: byte)
    requires Coherent(strict, k) && k.node == V(n)
    requires n.Conn? || n.Conn1? || n.Conn2? || n.Conn3? || n.ConnToken? || n.ConnWs?
    ensures Keeps(strict, k, ListByte(k, n, b))
  {
    SettleKeeps(k);
    hide Settle, Lower, IsValueByte, Machine.Apply;
  }

  lemma CodingsKeep(strict: bool, k: Core, n: ValueNode, b: byte)
    requires Coherent(strict, k) && k.node == V(n) && (n.TeChunked0? || n.TeChunkedLast? || n.TeToken? || n.TeTokenOws?)
    ensures Keeps(strict, k, ListByte(k, n, b))
  {
    hide IsValueByte, Machine.Apply;
  }

  lemma ListKeeps(strict: bool, k: Core, n: ValueNode, b: byte)
    requires Coherent(strict, k) && k.node == V(n) && IsListNode(n)
    ensures Keeps(strict, k, ListByte(k, n, b))
  {
    if n.TeChunked0? || n.TeChunkedLast? || n.TeToken? || n.TeTokenOws? {
      CodingsKeep(strict, k, n, b);
    } else {
      ConnectionKeeps(strict, k, n, b);
    }
    hide ListByte, Keeps;
  }

  lemma ValueByteKeeps(strict: bool, k: Core, n: ValueNode, b: byte)
    requires Coherent(strict, k) && k.node == V(n) && ValueReads(n)
    ensures Keeps(strict, k, ValueByte(strict, k, n, b))
  {
    if IsListNode(n) {
      ListKeeps(strict, k, n, b);
      hide ListByte, Keeps;
    } else if n.ValueLws? || n.DiscardLws? {
      LineEndKeeps(strict, k, n, b);
      hide ValueByte, Keeps;
    } else {
      PlainByteKeeps(strict, k, n, b);
      hide ValueByte, Keeps;
    }
  }

  lemma LineEndKeeps(strict: bool, k: Core, n: ValueNode, b: byte)
    requires Coherent(strict, k) && k.node == V(n) && (n.ValueLws? || n.DiscardLws?)
    ensures Keeps(strict, k, ValueByte(strict, k, n, b))
  {
    SettleKeeps(k);
    hide ListByte, Settle;
  }

  lemma PlainByteKeeps(strict: bool, k: Core, n: ValueNode, b: byte)
    requires Coherent(strict, k) && k.node == V(n) && ValueReads(n) && !IsListNode(n) && !n.ValueLws? && !n.DiscardLws?
    ensures Keeps(strict, k, ValueByte(strict, k, n, b))
  {
    hide ListByte, Settle, IsValueByte;
  }

  lemma ValueKeeps(strict: bool, k: Core, n: ValueNode, c: Option<byte>)
    requires Coherent(strict, k) && k.node == V(n)
    ensures Keeps(strict, k, ValueStep(strict, k, n, c))
  {
    if c.Some? && ValueReads(n) {
      ValueByteKeeps(strict, k, n, c.value);
      hide Keeps;
    }
    hide ValueByte;
  }

  lemma BodyByteKeeps(strict: bool, k: Core, n: BodyNode, b: byte)
    requires Coherent(strict, k) && k.node == B(n) && BodyReads(n)
    ensures Keeps(strict, k, BodyByte(strict, k, n, b))
  {
  }

  lemma BodyKeeps(strict: bool, k: Core, n: BodyNode, c: Option<byte>)
    requires Coherent(strict, k) && k.node == B(n)
    ensures Keeps(strict, k, BodyStep(strict, k, n, c))
  {
    if c.Some? && BodyReads(n) { BodyByteKeeps(strict, k, n, c.value); }
    hide BodyByte;
  }

  lemma StepKeeps(strict: bool, k: Core, c: Option<byte>)
    requires Coherent(strict, k)
    ensures Keeps(strict, k, Step(strict, k, c))
  {
    match k.node
    case L(n) => LineKeeps(strict, k, n, c);
    case U(n) => UrlKeeps(strict, k, n, c);
    case N(n) => NameKeeps(strict, k, n, c);
    case V(n) => ValueKeeps(strict, k, n, c);
    case B(n) => BodyKeeps(strict, k, n, c);
    case Error =>
  }

  /** A configuration a run can be in. */
  predicate Sound(strict: bool, k: Config) {
    && Coherent(strict, k.core)
    && (!k.core.node.Error? ==> SpanAt(k.core.node) == match k.span case Some(o) => Some(o.kind) case None => None)
  }

  /** Runs stay sound, and a span that is not closed only grows. */
  lemma {:induction false} RunKeeps(env: Env, k: Config, buf: seq<byte>)
    requires Sound(env.strict, k) && (k.stop == 0 ==> !k.core.node.Error?)
    ensures var r := Run(env, k, buf);
            && Sound(env.strict, r)
            && k.trace <= r.trace
            && (k.span.Some? && r.trace == k.trace ==> r.span.Some? && k.span.value.data <= r.span.value.data)
    decreases |buf|, Rank(k.core.node)
  {
    var a := Step(env.strict, k.core, Head(buf));
    StepShape(env.strict, k.core, Head(buf));
    StepKeeps(env.strict, k.core, Head(buf));
    hide Step, Rank, SpanAt;
    if k.stop == 0 && !a.Wait? && !a.Fail? {
      var rest := if Takes(a) then buf[1..] else buf;
      RunKeeps(env, Advance(env, k, a, Head(buf)), rest);
    }
  }

  // ---------------------------------------------------------------- spans are input

  predicate StandsAt(data: seq<byte>, input: seq<byte>, i: nat) {
    i + |data| <= |input| && input[i..i + |data|] == data
  }

  ghost predicate Within(data: seq<byte>, input: seq<byte>) { exists i: nat :: StandsAt(data, input, i) }

  /** Every reported span is a stretch of the consumed input, and the open span is its end. */
  ghost predicate FromInput(k: Config, input: seq<byte>) {
    && |input| == k.pos
    && (k.span.Some? ==> var d := k.span.value.data; |d| <= |input| && input[|input| - |d|..] == d)
    && forall e :: e in k.trace && e.Span? ==> Within(e.data, input)
  }

  lemma WithinMore(data: seq<byte>, input: seq<byte>, b: byte)
    requires Within(data, input)
    ensures Within(data, input + [b])
  {
    var i: nat :| StandsAt(data, input, i);
    assert (input + [b])[i..i + |data|] == input[i..i + |data|];
    assert StandsAt(data, input + [b], i);
  }

  lemma TakenFromInput(k: Config, input: seq<byte>, b: byte)
    requires FromInput(k, input)
    ensures FromInput(Taken(k, b), input + [b])
  {
    forall e | e in k.trace && e.Span? ensures Within(e.data, input + [b]) { WithinMore(e.data, input, b); }
    if k.span.Some? {
      var d := k.span.value.data;
      assert (input + [b])[|input| - |d|..] == input[|input| - |d|..] + [b];
    }
  }

  lemma ClosingFromInput(k: Config, input: seq<byte>)
    requires FromInput(k, input)
    ensures FromInput(Closing(k), input)
  {
    if k.span.Some? {
      var d := k.span.value.data;
      assert StandsAt(d, input, |input| - |d|);
      assert Closing(k).trace == k.trace + [Span(k.span.value.kind, d)];
    }
  }

  lemma AdvanceFromInput(env: Env, k: Config, a: Act, c: Option<byte>, input: seq<byte>)
    requires FromInput(k, input) && (Takes(a) ==> c.Some?) && (a.Notify? ==> !a.event.Span?)
    ensures FromInput(Advance(env, k, a, c), if Takes(a) then input + [c.value] else input)
  {
    match a
    case Go(next, take) => if take { TakenFromInput(k.(core := next), input, c.value); }
    case Close(next, take) =>
      ClosingFromInput(k, input);
      if take { TakenFromInput(Closing(k).(core := next), input, c.value); }
    case _ =>
  }

  /** Every run reports stretches of its input and nothing else. */
  lemma {:induction false} RunFromInput(env: Env, k: Config, buf: seq<byte>, before: seq<byte>)
    requires FromInput(k, before)
    ensures var r := Run(env, k, buf);
            k.pos <= r.pos <= k.pos + |buf| && FromInput(r, before + buf[..r.pos - k.pos])
    decreases |buf|, Rank(k.core.node)
  {
    var a := Step(env.strict, k.core, Head(buf));
    StepShape(env.strict, k.core, Head(buf));
    hide Step, Rank, FromInput;
    assert before + buf[..0] == before;
    if k.stop == 0 && !a.Wait? {
      AdvanceFromInput(env, k, a, Head(buf), before);
      if !a.Fail? {
        var rest, seen := if Takes(a) then buf[1..] else buf, if Takes(a) then before + [buf[0]] else before;
        var next := Advance(env, k, a, Head(buf));
        RunFromInput(env, next, rest, seen);
        var r := Run(env, next, rest);
        assert seen + rest[..r.pos - next.pos] == before + buf[..r.pos - k.pos];
      }
    }
  }
}
