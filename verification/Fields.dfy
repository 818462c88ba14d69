/**
  Header lines through the automaton: the field-name recognisers, the value automata, and the line end.
*/
module Fields {
  import opened Http
  import opened Machine
  import opened Automaton
  import opened Semantics
  import opened Invariants
  import opened Bodies

  // ---------------------------------------------------------------- consuming one byte

  /** The registers once `b` has been consumed by plain moves, None if that takes more than plain moves. */
  function Eat(strict: bool, k: Core, b: byte): Option<Core>
    decreases Rank(k.node)
  {
    var a := Step(strict, k, Some(b));
    StepShape(strict, k, Some(b));
    match a
    case Go(next, take) => if take then Some(next) else Eat(strict, next, b)
    case _ => None
  }

  function EatAll(strict: bool, k: Core, s: seq<byte>): Option<Core>
    decreases |s|
  {
    if s == [] then Some(k) else
    var next := Eat(strict, k, s[0]);
    if next.None? then None else EatAll(strict, next.value, s[1..])
  }

  lemma {:induction false} RunEat(env: Env, k: Config, b: byte, rest: seq<byte>)
    requires k.stop == 0 && Eat(env.strict, k.core, b).Some?
    ensures Run(env, k, [b] + rest) == Run(env, Taken(k.(core := Eat(env.strict, k.core, b).value), b), rest)
    decreases Rank(k.core.node)
  {
    var buf := [b] + rest;
    assert buf[1..] == rest;
    var a := Step(env.strict, k.core, Some(b));
    StepShape(env.strict, k.core, Some(b));
    hide Step, Run;
    RunOne(env, k, buf, a);
    if !a.take { RunEat(env, k.(core := a.next), b, rest); }
  }

  lemma {:induction false} RunEatAll(env: Env, k: Config, s: seq<byte>, rest: seq<byte>)
    requires k.stop == 0 && EatAll(env.strict, k.core, s).Some?
    ensures Run(env, k, s + rest) == Run(env, Moved(k, EatAll(env.strict, k.core, s).value, s), rest)
    decreases |s|
  {
    hide Step, Run, Eat;
    if s == [] {
      assert s + rest == rest;
      MovedNothing(k);
    } else {
      var next := Eat(env.strict, k.core, s[0]).value;
      assert s + rest == [s[0]] + (s[1..] + rest);
      RunEat(env, k, s[0], s[1..] + rest);
      RunEatAll(env, Taken(k.(core := next), s[0]), s[1..], rest);
      MovedTaken(k, next, s[0], EatAll(env.strict, next, s[1..]).value, s[1..]);
      assert [s[0]] + s[1..] == s;
    }
  }

  lemma {:induction false} EatSplit(strict: bool, k: Core, s: seq<byte>, t: seq<byte>)
    requires EatAll(strict, k, s).Some?
    ensures EatAll(strict, k, s + t) == EatAll(strict, EatAll(strict, k, s).value, t)
    decreases |s|
  {
    hide Eat;
    if s == [] {
      assert s + t == t;
    } else {
      assert (s + t)[1..] == s[1..] + t;
      EatSplit(strict, Eat(strict, k, s[0]).value, s[1..], t);
    }
  }

  // ---------------------------------------------------------------- field names

  const CONNECTION: seq<byte> := "connection"
  const PROXY_CONNECTION: seq<byte> := "proxy-connection"
  const CONTENT_LENGTH: seq<byte> := "content-length"
  const TRANSFER_ENCODING: seq<byte> := "transfer-encoding"
  const UPGRADE: seq<byte> := "upgrade"

  /** The kind of header a lower-case name is. */
  function ClassOf(name: seq<byte>): HeaderState {
    if name == CONNECTION || name == PROXY_CONNECTION then Connection
    else if name == CONTENT_LENGTH then ContentLength
    else if name == TRANSFER_ENCODING then TransferEncoding
    else if name == UPGRADE then Upgrade
    else General
  }

  /** No known name starts like this. */
  predicate Unknown(name: seq<byte>) {
    && !(name <= CONNECTION) && !(name <= PROXY_CONNECTION) && !(name <= CONTENT_LENGTH)
    && !(name <= TRANSFER_ENCODING) && !(name <= UPGRADE)
  }

  /** The known name a recogniser state is in the middle of, and how much of it has been read. */
  function Expected(n: NameNode): seq<byte> {
    if n.Field4? then CONTENT_LENGTH
    else if n.Field5? then PROXY_CONNECTION
    else if n.Field6? then TRANSFER_ENCODING
    else if n.Field7? then UPGRADE
    else CONNECTION
  }

  function Before(n: NameNode): nat {
    if n.Field? then 0 else if n.Field2? then 3 else if n.Field3? || n.Field4? then 4 else 1
  }

  /** How many bytes of the known name the state can have read of its own sequence. */
  function Room(n: NameNode): nat {
    if n.Field? || n.Field2? then 1
    else if n.Field1? then 2
    else if n.Field3? || n.Field7? then 6
    else if n.Field4? then 10
    else if n.Field5? then 15
    else 16
  }

  predicate IsNameNode(n: NameNode) {
    !n.FieldStart? && !n.SpanStartField? && !n.FieldGeneralOtherwise? && !n.OnFieldComplete?
  }

  /** What a name state says about the bytes of the name read so far. */
  predicate NameSoFar(k: Core, name: seq<byte>) {
    && k.node.N? && IsNameNode(k.node.name)
    && (var n := k.node.name;
        if n.FieldGeneral? then k.index == 0 && k.hs == General && Unknown(LowerAll(name))
        else if n.FieldColon? then k.index == 0 && k.hs != General && k.hs == ClassOf(LowerAll(name))
        else
          && k.index < Room(n) && Before(n) + k.index < |Expected(n)|
          && LowerAll(name) == Expected(n)[..Before(n) + k.index])
  }

  lemma LowerAllAppend(s: seq<byte>, b: byte)
    ensures LowerAll(s + [b]) == LowerAll(s) + [Lower(b)]
  {
  }

  predicate IsKnown(name: seq<byte>) {
    name == CONNECTION || name == PROXY_CONNECTION || name == CONTENT_LENGTH || name == TRANSFER_ENCODING
        || name == UPGRADE
  }

  /** Where two known names part: only Connection and Content-Length begin alike. */
  function Fork(a: seq<byte>, b: seq<byte>): nat {
    if (a == CONNECTION && b == CONTENT_LENGTH) || (a == CONTENT_LENGTH && b == CONNECTION) then 3 else 0
  }

  lemma KnownFork(a: seq<byte>, b: seq<byte>)
    requires IsKnown(a) && IsKnown(b) && a != b
    ensures var d := Fork(a, b); d < |a| && d < |b| && a[d] != b[d] && a[..d] == b[..d]
  {
    assert CONNECTION[..3] == CONTENT_LENGTH[..3];
  }

  /** The beginning of a known name, followed by a byte that leaves it, begins no other known name either. */
  lemma Leaves(known: seq<byte>, at: nat, l: byte, other: seq<byte>)
    requires IsKnown(known) && IsKnown(other) && at < |known| && l != known[at]
    requires other != known && at == Fork(known, other) ==> at < |other| && l != other[at]
    ensures !(known[..at] + [l] <= other)
  {
    var longer := known[..at] + [l];
    if other == known {
      Differs(longer, other, at);
    } else {
      KnownFork(known, other);
      hide IsKnown, Fork;
      var d := Fork(known, other);
      if at < d { assert known[..d][at] == other[..d][at]; }
      Differs(longer, other, if d < at then d else at);
    }
  }

  lemma KnownLetters()
    ensures CONNECTION[0] == 'c' && CONTENT_LENGTH[0] == 'c' && PROXY_CONNECTION[0] == 'p'
    ensures TRANSFER_ENCODING[0] == 't'
    ensures UPGRADE[0] == 'u' && CONNECTION[3] == 'n' && CONTENT_LENGTH[3] == 't'
  {
  }

  /** A byte that is no known name's next byte settles that the name is unknown. */
  lemma NoLonger(n: NameNode, i: nat, name: seq<byte>, l: byte)
    requires IsNameNode(n) && !n.FieldGeneral? && !n.FieldColon? && i < Room(n) && Before(n) + i < |Expected(n)|
    requires name == Expected(n)[..Before(n) + i] && l != Expected(n)[Before(n) + i]
    requires n.Field? ==> l != 'p' && l != 't' && l != 'u'
    requires n.Field2? ==> l != 't'
    ensures Unknown(name + [l])
  {
    KnownLetters();
    var at, e := Before(n) + i, Expected(n);
    Leaves(e, at, l, CONNECTION);
    Leaves(e, at, l, PROXY_CONNECTION);
    Leaves(e, at, l, CONTENT_LENGTH);
    Leaves(e, at, l, TRANSFER_ENCODING);
    Leaves(e, at, l, UPGRADE);
  }

  lemma Differs(name: seq<byte>, known: seq<byte>, i: nat)
    requires i < |name| && (i < |known| ==> name[i] != known[i])
    ensures !(name <= known)
  {
  }

  predicate InsideKnown(n: NameNode) { IsNameNode(n) && !n.FieldGeneral? && !n.FieldColon? }

  /** The states between `k` and `m` of one name: only the recogniser's own registers differ. */
  predicate SameBut(k: Core, m: Core) { m == k.(node := m.node, index := m.index, hs := m.hs) }

  /** Where a recogniser goes on the lower-case byte `l`, None if the name is not a known one. */
  function NextKnown(k: Core, l: byte): Option<Core>
    requires k.node.N? && InsideKnown(k.node.name)
  {
    var n := k.node.name;
    if n.Field? then
      if l == 'c' then Some(To(k, N(Field1))) else if l == 'p' then Some(To(k, N(Field5)))
      else if l == 't' then Some(To(k, N(Field6))) else if l == 'u' then Some(To(k, N(Field7))) else None
    else if n.Field2? then
      if l == 'n' then Some(To(k, N(Field3))) else if l == 't' then Some(To(k, N(Field4))) else None
    else if Before(n) + k.index < |Expected(n)| && l == Expected(n)[Before(n) + k.index] then
      if k.index + 1 < Room(n) then Some(k.(index := k.index + 1))
      else if n.Field1? then Some(To(k.(index := 0), N(Field2)))
      else Some(To(k.(index := 0, hs := ClassOf(Expected(n))), N(FieldColon)))
    else None
  }

  lemma MatcherText(n: NameNode)
    requires InsideKnown(n) && !n.Field? && !n.Field2?
    ensures var m := MatcherOf(N(n));
            && m.Seq? && m.fold == ToLower && |m.text| == Room(n) && Before(n) + Room(n) <= |Expected(n)|
            && (forall j :: 0 <= j < Room(n) ==> m.text[j] == Expected(n)[Before(n) + j])
            && (!n.Field1? ==> Before(n) + Room(n) == |Expected(n)|)
  {
  }

  lemma StepKnown(strict: bool, k: Core, b: byte)
    requires k.node.N? && InsideKnown(k.node.name) && k.index < Room(k.node.name)
    ensures Step(strict, k, Some(b)) ==
            (match NextKnown(k, Lower(b)) case Some(next) => Go(next, true) case None => NameMiss(k))
  {
    var n := k.node.name;
    if !n.Field? && !n.Field2? { MatcherText(n); }
    hide MatcherOf, Expected, LineStep, UrlStep, ValueStep, BodyStep, Lower;
    if n.Field3? || n.Field4? || n.Field5? || n.Field6? || n.Field7? { ClassOfExpected(n); }
    hide ClassOf;
  }

  lemma ClassOfExpected(n: NameNode)
    requires n.Field3? || n.Field4? || n.Field5? || n.Field6? || n.Field7?
    ensures ClassOf(Expected(n)) == if n.Field4? then ContentLength else if n.Field6? then TransferEncoding
                                    else if n.Field7? then Upgrade else Connection
  {
  }

  lemma MatcherGoesOn(k: Core, name: seq<byte>, b: byte)
    requires NameSoFar(k, name) && InsideKnown(k.node.name) && !k.node.name.Field? && !k.node.name.Field2?
    ensures match NextKnown(k, Lower(b))
            case Some(next) => SameBut(k, next) && NameSoFar(next, name + [b])
            case None => true
  {
    hide Unknown, LowerAll, Lower, ClassOf;
    var n, low := k.node.name, LowerAll(name);
    var at := Before(n) + k.index;
    LowerAllAppend(name, b);
    MatcherText(n);
    hide MatcherOf, Expected;
    if NextKnown(k, Lower(b)).Some? {
      NameGrows(n, low, at, Lower(b));
      if k.index + 1 == Room(n) && !n.Field1? { ClassOfExpected(n); }
    }
  }

  lemma NameGrows(n: NameNode, low: seq<byte>, at: nat, l: byte)
    requires at < |Expected(n)| && low == Expected(n)[..at] && l == Expected(n)[at]
    ensures low + [l] == Expected(n)[..at + 1] && (at + 1 == |Expected(n)| ==> low + [l] == Expected(n))
  {
  }

  /** A recogniser goes on exactly while the bytes read are the beginning of a known name. */
  lemma KnownGoesOn(k: Core, name: seq<byte>, b: byte)
    requires NameSoFar(k, name) && InsideKnown(k.node.name)
    ensures match NextKnown(k, Lower(b))
            case Some(next) => SameBut(k, next) && NameSoFar(next, name + [b])
            case None => Unknown(LowerAll(name + [b]))
  {
    hide Unknown, Lower, ClassOf;
    var n, l, low := k.node.name, Lower(b), LowerAll(name);
    LowerAllAppend(name, b);
    if NextKnown(k, l).None? {
      NoLonger(n, k.index, low, l);
    } else if n.Field? {
      assert low == [];
      FirstLetter(l);
    } else if n.Field2? {
      assert low == CONNECTION[..3];
      FourthLetter(l);
    } else {
      MatcherGoesOn(k, name, b);
    }
  }

  lemma FirstLetter(l: byte)
    ensures CONNECTION[..1] == ['c'] && PROXY_CONNECTION[..1] == ['p'] && TRANSFER_ENCODING[..1] == ['t']
    ensures UPGRADE[..1] == ['u']
    ensures [] + [l] == [l]
  {
  }

  lemma FourthLetter(l: byte)
    ensures CONNECTION[..3] + ['n'] == CONNECTION[..4] && CONNECTION[..3] + ['t'] == CONTENT_LENGTH[..4]
  {
  }

  /** No known name is a longer form of another. */
  lemma KnownIsComplete(name: seq<byte>, l: byte)
    requires ClassOf(name) != General
    ensures Unknown(name + [l])
  {
    var longer := name + [l];
    assert longer[0] == name[0] && longer[3] == name[3] && |longer| == |name| + 1;
    assert CONNECTION[3] == 'n' && CONTENT_LENGTH[3] == 't';
    var c, l := CONNECTION, CONTENT_LENGTH;
    Differs(longer, c, if |c| < |longer| && name == c then |name| else if name[0] != c[0] then 0 else 3);
    Differs(longer, l, if name == l then |name| else if name[0] != l[0] then 0 else 3);
    Differs(longer, PROXY_CONNECTION, if name == PROXY_CONNECTION then |name| else 0);
    Differs(longer, TRANSFER_ENCODING, if name == TRANSFER_ENCODING then |name| else 0);
    Differs(longer, UPGRADE, if name == UPGRADE then |name| else 0);
  }

  lemma Shorter(name: seq<byte>, l: byte, known: seq<byte>)
    requires !(name <= known)
    ensures !(name + [l] <= known)
  {
    if |name| <= |known| {
      var i :| 0 <= i < |name| && name[i] != known[i];
      assert (name + [l])[i] == name[i];
    }
  }

  lemma UnknownGrows(name: seq<byte>, l: byte)
    requires Unknown(name)
    ensures Unknown(name + [l])
  {
    Shorter(name, l, CONNECTION);
    Shorter(name, l, PROXY_CONNECTION);
    Shorter(name, l, CONTENT_LENGTH);
    Shorter(name, l, TRANSFER_ENCODING);
    Shorter(name, l, UPGRADE);
  }

  lemma GeneralEats(strict: bool, k: Core, b: byte)
    requires k.node == N(FieldGeneral) && IsTokenByte(b)
    ensures Eat(strict, k, b) == Some(k)
  {
    assert Step(strict, k, Some(b)) == Go(k, true);
  }

  lemma ColonGivesUp(strict: bool, k: Core, b: byte)
    requires k.node == N(FieldColon) && IsTokenByte(b)
    ensures Step(strict, k, Some(b)) == Go(To(k.(hs := General), N(FieldGeneral)), false)
  {
  }

  /** One more byte of a name. */
  lemma EatNameByte(strict: bool, k: Core, name: seq<byte>, b: byte)
    requires NameSoFar(k, name) && IsTokenByte(b)
    ensures var r := Eat(strict, k, b); r.Some? && SameBut(k, r.value) && NameSoFar(r.value, name + [b])
  {
    hide Step, Unknown, ClassOf, Expected, Lower, LowerAll, IsTokenByte;
    var n := k.node.name;
    LowerAllAppend(name, b);
    var general := To(k.(index := 0, hs := General), N(FieldGeneral));
    GeneralEats(strict, general, b);
    if n.FieldGeneral? {
      GeneralEats(strict, k, b);
      UnknownGrows(LowerAll(name), Lower(b));
    } else if n.FieldColon? {
      ColonGivesUp(strict, k, b);
      KnownIsComplete(LowerAll(name), Lower(b));
    } else {
      StepKnown(strict, k, b);
      KnownGoesOn(k, name, b);
    }
  }

  lemma {:induction false} EatName(strict: bool, k: Core, before: seq<byte>, name: seq<byte>)
    requires NameSoFar(k, before) && forall i :: 0 <= i < |name| ==> IsTokenByte(name[i])
    ensures var r := EatAll(strict, k, name); r.Some? && SameBut(k, r.value) && NameSoFar(r.value, before + name)
    decreases |name|
  {
    hide Step, Eat, NameSoFar;
    if name == [] {
      assert before + name == before;
    } else {
      EatNameByte(strict, k, before, name[0]);
      EatName(strict, Eat(strict, k, name[0]).value, before + [name[0]], name[1..]);
      assert before + [name[0]] + name[1..] == before + name;
    }
  }

  /** A proper beginning of a known name is not itself a known name. */
  lemma NotYet(known: seq<byte>, at: nat)
    requires IsKnown(known) && at < |known|
    ensures !IsKnown(known[..at])
  {
    if IsKnown(known[..at]) {
      KnownFork(known, known[..at]);
      assert false;
    }
  }

  /** At the colon the kind of the header is settled. */
  lemma NameEnds(strict: bool, k: Core, name: seq<byte>)
    requires NameSoFar(k, name)
    ensures k.node.name.FieldColon? || k.node.name.FieldGeneral? ==> k.hs == ClassOf(LowerAll(name))
    ensures InsideKnown(k.node.name) ==>
              ClassOf(LowerAll(name)) == General && Step(strict, k, Some(':')) == NameMiss(k)
  {
    hide Step, LowerAll, Expected;
    if InsideKnown(k.node.name) {
      var n, at := k.node.name, Before(k.node.name) + k.index;
      StepKnown(strict, k, ':');
      NoColon(n, at);
      NotYet(Expected(n), at);
    }
  }

  lemma NoColon(n: NameNode, at: nat)
    requires InsideKnown(n) && at < |Expected(n)|
    ensures Expected(n)[at] != ':' && IsKnown(Expected(n))
  {
  }

  lemma ColonCloses(env: Env, k: Config, name: seq<byte>, rest: seq<byte>)
    requires k.stop == 0 && k.span == Some(OpenSpan(HeaderField, name))
    requires k.core.node == N(FieldColon) || k.core.node == N(FieldGeneralOtherwise)
    ensures Run(env, k, [':'] + rest)
         == Run(env, k.(core := To(k.core, V(DiscardWs)), span := None,
                        trace := k.trace + [Span(HeaderField, name), HeaderFieldComplete], pos := k.pos + 1), rest)
  {
    hide Run, LineStep, UrlStep, ValueStep, BodyStep, MatcherOf;
    var buf, next := [':'] + rest, To(k.core, N(OnFieldComplete));
    assert buf[1..] == rest;
    RunOne(env, k, buf, Close(next, true));
    var k1 := Taken(Closing(k).(core := next), ':');
    RunOne(env, k1, rest, Notify(HeaderFieldComplete, To(k.core, V(DiscardWs)), None));
    assert k.trace + [Span(HeaderField, name)] + [HeaderFieldComplete]
        == k.trace + [Span(HeaderField, name), HeaderFieldComplete];
  }

  /** The colon closes the name, whatever state the name was in. */
  lemma ReadColon(env: Env, k: Config, name: seq<byte>, rest: seq<byte>)
    requires k.stop == 0 && k.span == Some(OpenSpan(HeaderField, name)) && NameSoFar(k.core, name)
    ensures Run(env, k, [':'] + rest)
         == Run(env, k.(core := k.core.(node := V(DiscardWs), index := 0, hs := ClassOf(LowerAll(name))), span := None,
                        trace := k.trace + [Span(HeaderField, name), HeaderFieldComplete], pos := k.pos + 1), rest)
  {
    hide Run, LineStep, UrlStep, ValueStep, BodyStep, Unknown, ClassOf, Expected, MatcherOf;
    var buf, settled := [':'] + rest, k.core.(index := 0, hs := ClassOf(LowerAll(name)));
    NameEnds(env.strict, k.core, name);
    if k.core.node.name.FieldColon? {
      ColonCloses(env, k, name, rest);
    } else {
      if InsideKnown(k.core.node.name) { RunOne(env, k, buf, NameMiss(k.core)); }
      var k1 := k.(core := To(settled, N(FieldGeneral)));
      RunOne(env, k1, buf, Go(To(settled, N(FieldGeneralOtherwise)), false));
      ColonCloses(env, k.(core := To(settled, N(FieldGeneralOtherwise))), name, rest);
    }
  }

  predicate IsToken(s: seq<byte>) { forall i :: 0 <= i < |s| ==> IsTokenByte(s[i]) }

  /**
    A field name of token bytes and its colon: the name is reported as it stands, and the header is
    known by its lower-case spelling and nothing else.
  */
  lemma ReadName(env: Env, k: Config, name: seq<byte>, rest: seq<byte>)
    requires Ready(k) && k.core.node == N(FieldStart) && k.core.index == 0 && IsToken(name)
    ensures Run(env, k, name + [':'] + rest)
         == Run(env, Emitted(k, k.core.(node := V(DiscardWs), hs := ClassOf(LowerAll(name))),
                             [Span(HeaderField, name), HeaderFieldComplete], |name| + 1), rest)
  {
    hide Run, Rank, Eat, EatAll, LineStep, UrlStep, ValueStep, BodyStep, ClassOf, MatcherOf, LowerAll;
    var buf := name + ([':'] + rest);
    assert name + [':'] + rest == buf;
    var k1 := k.(core := To(k.core, N(SpanStartField)));
    assert Step(env.strict, k.core, Head(buf)) == Go(k1.core, false);
    RunOne(env, k, buf, Go(k1.core, false));
    var k2 := k.(core := To(k.core, N(Field)), span := Some(OpenSpan(HeaderField, [])));
    RunOne(env, k1, buf, Open(HeaderField, k2.core));
    NameBegins(k2.core);
    EatName(env.strict, k2.core, [], name);
    assert [] + name == name;
    RunEatAll(env, k2, name, [':'] + rest);
    var core := EatAll(env.strict, k2.core, name).value;
    ReadColon(env, Moved(k2, core, name), name, rest);
  }

  lemma NameBegins(k: Core)
    requires k.node == N(Field) && k.index == 0
    ensures NameSoFar(k, [])
  {
  }

  // ---------------------------------------------------------------- field values

  /** The states inside a value other than a Content-Length. */
  predicate InValue(n: Node) { n.V? && (n.value.Value? || IsListNode(n.value)) }

  predicate IsValue(s: seq<byte>) { forall i :: 0 <= i < |s| ==> IsValueByte(s[i]) }

  /** What reading a value other than a Content-Length leaves alone. */
  predicate SameMessage(k: Core, m: Core) {
    m.line == k.line && m.length == k.length && m.flags.trailing == k.flags.trailing
  }

  predicate Stays(k: Core, a: Act) { a.Go? && InValue(a.next.node) && SameMessage(k, a.next) }

  lemma ListStays(k: Core, n: ValueNode, b: byte)
    requires k.node == V(n) && IsListNode(n) && IsValueByte(b)
    ensures Stays(k, ListByte(k, n, b))
  {
    SettleKeeps(k);
    hide Settle, MatcherOf, Machine.Apply, Lower;
  }

  lemma StepInValue(strict: bool, k: Core, b: byte)
    requires InValue(k.node) && IsValueByte(b)
    ensures Stays(k, Step(strict, k, Some(b)))
  {
    if IsListNode(k.node.value) { ListStays(k, k.node.value, b); }
    hide ListByte, LineStep, UrlStep, NameStep, BodyStep, Stays;
    if k.node.value.Value? { ValueStays(strict, k, b); }
  }

  lemma ValueStays(strict: bool, k: Core, b: byte)
    requires k.node == V(Value) && IsValueByte(b)
    ensures Stays(k, Step(strict, k, Some(b)))
  {
    hide LineStep, UrlStep, NameStep, BodyStep, ListByte;
  }

  /** Every byte the value tables accept is consumed by every value automaton. */
  lemma {:induction false} EatValueByte(strict: bool, k: Core, b: byte)
    requires InValue(k.node) && IsValueByte(b) && Coherent(strict, k)
    ensures var r := Eat(strict, k, b);
            r.Some? && InValue(r.value.node) && Coherent(strict, r.value) && SameMessage(k, r.value)
    decreases Rank(k.node)
  {
    StepInValue(strict, k, b);
    StepShape(strict, k, Some(b));
    StepKeeps(strict, k, Some(b));
    hide Step, Coherent, InValue, IsValueByte;
    var a := Step(strict, k, Some(b));
    if !a.take { EatValueByte(strict, a.next, b); }
  }

  lemma {:induction false} EatValue(strict: bool, k: Core, s: seq<byte>)
    requires InValue(k.node) && IsValue(s) && Coherent(strict, k)
    ensures var r := EatAll(strict, k, s);
            r.Some? && InValue(r.value.node) && Coherent(strict, r.value) && SameMessage(k, r.value)
    decreases |s|
  {
    hide Eat, Step, Coherent, InValue;
    if s != [] {
      EatValueByte(strict, k, s[0]);
      EatValue(strict, Eat(strict, k, s[0]).value, s[1..]);
    }
  }

  /** The registers at the end of a value: only a final `chunked` makes the header state say so. */
  function AtEnd(k: Core): Core
    requires InValue(k.node)
  {
    var n := k.node.value;
    k.(node := V(ValueOtherwise), index := 0,
       hs := if n.TeChunkedLast? then HeaderState.TeChunked
             else if n.TeChunked0? || n.TeToken? || n.TeTokenOws? then General else k.hs)
  }

  lemma StepAtEnd(strict: bool, k: Core, b: byte)
    requires InValue(k.node) && Coherent(strict, k) && (b == CR || b == LF)
    ensures var a := Step(strict, k, Some(b));
            a.Go? && !a.take && (if InValue(a.next.node) then AtEnd(a.next) == AtEnd(k) else a.next == AtEnd(k))
  {
    hide LineStep, UrlStep, NameStep, BodyStep;
    if IsListNode(k.node.value) {
      ListAtEnd(strict, k, k.node.value, b);
      hide ListByte, AtEnd;
    } else {
      hide ListByte;
    }
  }

  lemma ListAtEnd(strict: bool, k: Core, n: ValueNode, b: byte)
    requires k.node == V(n) && IsListNode(n) && Coherent(strict, k) && (b == CR || b == LF)
    ensures var a := ListByte(k, n, b);
            a.Go? && !a.take && (if InValue(a.next.node) then AtEnd(a.next) == AtEnd(k) else a.next == AtEnd(k))
  {
    match n {
      case ConnWs =>
      case TeChunkedLast =>
      case _ =>
    }
  }

  lemma {:induction false} ReadToEnd(env: Env, k: Config, buf: seq<byte>)
    requires k.stop == 0 && InValue(k.core.node) && Coherent(env.strict, k.core)
    requires buf != [] && (buf[0] == CR || buf[0] == LF)
    ensures Run(env, k, buf) == Run(env, k.(core := AtEnd(k.core)), buf)
    decreases Rank(k.core.node)
  {
    StepAtEnd(env.strict, k.core, buf[0]);
    StepShape(env.strict, k.core, Some(buf[0]));
    StepKeeps(env.strict, k.core, Some(buf[0]));
    hide Step, Run, Coherent, InValue, AtEnd;
    var a := Step(env.strict, k.core, Some(buf[0]));
    RunOne(env, k, buf, a);
    if InValue(a.next.node) { ReadToEnd(env, k.(core := a.next), buf); }
  }

  predicate Unfolded(rest: seq<byte>) { rest != [] && rest[0] != SP && rest[0] != HT }

  lemma ReadCrlf(env: Env, k: Config, value: seq<byte>, rest: seq<byte>)
    requires k.stop == 0 && k.core.node == V(ValueOtherwise) && k.span == Some(OpenSpan(HeaderValue, value))
    ensures Run(env, k, CRLF + rest)
         == Run(env, k.(core := To(k.core, V(ValueLws)), span := None, trace := k.trace + [Span(HeaderValue, value)],
                        pos := k.pos + 2), rest)
  {
    hide Run, Rank, LineStep, UrlStep, NameStep, BodyStep, ListByte;
    var buf, tail := CRLF + rest, [LF] + rest;
    assert buf[1..] == tail && tail[1..] == rest;
    RunOne(env, k, buf, Close(To(k.core, V(ValueAlmostDone)), true));
    var k1 := k.(core := To(k.core, V(ValueAlmostDone)), span := None,
                 trace := k.trace + [Span(HeaderValue, value)], pos := k.pos + 1);
    RunOne(env, k1, tail, Go(To(k.core, V(ValueLws)), true));
  }

  /** The line end after a value, when the next line does not continue it. */
  lemma ReadValueEnd(env: Env, k: Config, value: seq<byte>, rest: seq<byte>)
    requires k.stop == 0 && InValue(k.core.node) && Coherent(env.strict, k.core)
    requires k.span == Some(OpenSpan(HeaderValue, value)) && Unfolded(rest)
    ensures Run(env, k, CRLF + rest)
         == Run(env, k.(core := To(Settle(AtEnd(k.core)), N(FieldStart)), span := None,
                        trace := k.trace + [Span(HeaderValue, value), HeaderValueComplete], pos := k.pos + 2), rest)
  {
    hide Run, Rank, LineStep, UrlStep, NameStep, BodyStep, ListByte, AtEnd, Coherent;
    ReadToEnd(env, k, CRLF + rest);
    EndsOtherwise(k.core);
    var end := AtEnd(k.core);
    ReadCrlf(env, k.(core := end), value, rest);
    var k3 := k.(core := To(end, V(ValueLws)), span := None,
                 trace := k.trace + [Span(HeaderValue, value)], pos := k.pos + 2);
    RunOne(env, k3, rest, Go(To(Settle(To(end, V(ValueLws))), V(OnValueComplete)), false));
    SettleMoves(end);
    var k4 := k3.(core := To(Settle(end), V(OnValueComplete)));
    RunOne(env, k4, rest, Notify(HeaderValueComplete, To(Settle(end), N(FieldStart)), None));
    assert k.trace + [Span(HeaderValue, value)] + [HeaderValueComplete]
        == k.trace + [Span(HeaderValue, value), HeaderValueComplete];
  }

  lemma EndsOtherwise(k: Core)
    requires InValue(k.node)
    ensures AtEnd(k).node == V(ValueOtherwise)
  {
  }

  lemma SettleMoves(k: Core)
    ensures To(Settle(To(k, V(ValueLws))), V(OnValueComplete)) == To(Settle(k), V(OnValueComplete))
  {
  }

  /** The registers with which the automaton of a header's value starts. */
  function ValueOpened(k: Core): Core
    requires k.hs != ContentLength
  {
    ValueAutomaton(k).next
  }

  /** The first byte of a value opens its span and chooses the automaton. */
  lemma ReadValueStart(env: Env, k: Config, buf: seq<byte>)
    requires Ready(k) && k.core.node == V(DiscardWs) && k.core.hs != ContentLength
    requires Unfolded(buf) && buf[0] != CR && buf[0] != LF
    ensures Run(env, k, buf)
         == Run(env, k.(core := ValueOpened(k.core), span := Some(OpenSpan(HeaderValue, []))), buf)
    ensures InValue(ValueOpened(k.core).node)
  {
    hide Run, Rank, LineStep, UrlStep, NameStep, BodyStep, ListByte;
    RunOne(env, k, buf, Go(To(k.core, V(SpanStartValue)), false));
    var k1 := k.(core := To(k.core, V(SpanStartValue)));
    RunOne(env, k1, buf, Open(HeaderValue, To(k.core, V(LoadHeaderState))));
    var k2 := k.(core := To(k.core, V(LoadHeaderState)), span := Some(OpenSpan(HeaderValue, [])));
    RunOne(env, k2, buf, ValueAutomaton(k2.core));
  }

  /** The bytes of a value, up to the CR. */
  lemma ReadValueBytes(env: Env, k: Config, value: seq<byte>, tail: seq<byte>)
    requires Ready(k) && k.core.node == V(DiscardWs) && k.core.hs != ContentLength
    requires Unfolded(value) && value[0] != CR && value[0] != LF
    requires EatAll(env.strict, ValueOpened(k.core), value).Some?
    ensures Run(env, k, value + tail)
         == Run(env, k.(core := EatAll(env.strict, ValueOpened(k.core), value).value,
                        span := Some(OpenSpan(HeaderValue, value)), pos := k.pos + |value|), tail)
  {
    hide Run, Step, Eat, EatAll, ValueOpened;
    assert (value + tail)[0] == value[0];
    ReadValueStart(env, k, value + tail);
    var k1 := k.(core := ValueOpened(k.core), span := Some(OpenSpan(HeaderValue, [])));
    RunEatAll(env, k1, value, tail);
    assert [] + value == value;
  }

  lemma LineJoined(value: seq<byte>, rest: seq<byte>)
    ensures value + CRLF + rest == value + (CRLF + rest)
  {
  }

  /** Then the line end. */
  lemma ReadValueLine(env: Env, k: Config, value: seq<byte>, rest: seq<byte>, eaten: Core)
    requires Ready(k) && InValue(eaten.node) && Coherent(env.strict, eaten) && Unfolded(rest)
    requires Run(env, k, value + (CRLF + rest))
          == Run(env, k.(core := eaten, span := Some(OpenSpan(HeaderValue, value)), pos := k.pos + |value|),
                 CRLF + rest)
    ensures Run(env, k, value + CRLF + rest)
         == Run(env, Emitted(k, To(Settle(AtEnd(eaten)), N(FieldStart)),
             [Span(HeaderValue, value), HeaderValueComplete],
                             |value| + 2), rest)
  {
    hide Run, AtEnd, Coherent, InValue, Settle, To, Unfolded;
    LineJoined(value, rest);
    var k2 := k.(core := eaten, span := Some(OpenSpan(HeaderValue, value)), pos := k.pos + |value|);
    var end, events := To(Settle(AtEnd(eaten)), N(FieldStart)), [Span(HeaderValue, value), HeaderValueComplete];
    assert k2.(core := end, span := None, trace := k2.trace + events, pos := k2.pos + 2)
        == Emitted(k, end, events, |value| + 2);
    ReadValueEnd(env, k2, value, rest);
  }

  /** A whole value, once it is known where its automaton ends. */
  lemma ReadWholeValue(env: Env, k: Config, value: seq<byte>, rest: seq<byte>)
    requires Ready(k) && k.core.node == V(DiscardWs) && k.core.hs != ContentLength && Unfolded(rest)
    requires Unfolded(value) && value[0] != CR && value[0] != LF
    requires var r := EatAll(env.strict, ValueOpened(k.core), value);
             r.Some? && InValue(r.value.node) && Coherent(env.strict, r.value)
    ensures var end := To(Settle(AtEnd(EatAll(env.strict, ValueOpened(k.core), value).value)), N(FieldStart));
            var events := [Span(HeaderValue, value), HeaderValueComplete];
            Run(env, k, value + CRLF + rest) == Run(env, Emitted(k, end, events, |value| + 2), rest)
  {
    hide Run, Rank, Step, Eat, EatAll, AtEnd, Coherent, InValue, ValueOpened, Settle, To;
    ReadValueBytes(env, k, value, CRLF + rest);
    ReadValueLine(env, k, value, rest, EatAll(env.strict, ValueOpened(k.core), value).value);
  }

  /** An empty value is reported as an empty span; nothing is learnt from it. */
  lemma ReadEmptyValue(env: Env, k: Config, rest: seq<byte>)
    requires Ready(k) && k.core.node == V(DiscardWs) && Unfolded(rest)
    requires k.core.hs == General || k.core.hs == Connection || k.core.hs == TransferEncoding || k.core.hs == Upgrade
    ensures Run(env, k, CRLF + rest)
         == Run(env, Emitted(k, To(k.core, N(FieldStart)), [Span(HeaderValue, []), HeaderValueComplete], 2), rest)
  {
    hide Run, Rank, LineStep, UrlStep, NameStep, BodyStep, ListByte;
    var buf, tail := CRLF + rest, [LF] + rest;
    assert buf[1..] == tail && tail[1..] == rest;
    RunOne(env, k, buf, Go(To(k.core, V(DiscardWsAlmostDone)), true));
    var k1 := Past(k, To(k.core, V(DiscardWsAlmostDone)), 1);
    RunOne(env, k1, tail, Go(To(k.core, V(DiscardLws)), true));
    ReadEmptyRest(env, Past(k, To(k.core, V(DiscardLws)), 2), rest);
  }

  lemma EmptySpan(env: Env, k: Config, rest: seq<byte>)
    requires Ready(k) && k.core.node == V(SpanStartEmptyValue) && rest != []
    ensures Run(env, k, rest)
         == Run(env, Emitted(k, To(k.core, V(OnValueComplete)), [Span(HeaderValue, [])], 0), rest)
  {
    hide Run, Rank, LineStep, UrlStep, NameStep, BodyStep, ListByte;
    RunOne(env, k, rest, Open(HeaderValue, To(k.core, V(SpanEndEmptyValue))));
    var k1 := k.(core := To(k.core, V(SpanEndEmptyValue)), span := Some(OpenSpan(HeaderValue, [])));
    RunOne(env, k1, rest, Close(To(k.core, V(OnValueComplete)), false));
  }

  lemma ReadEmptyRest(env: Env, k: Config, rest: seq<byte>)
    requires Ready(k) && k.core.node == V(DiscardLws) && Unfolded(rest)
    requires k.core.hs == General || k.core.hs == Connection || k.core.hs == TransferEncoding || k.core.hs == Upgrade
    ensures Run(env, k, rest)
         == Run(env, Emitted(k, To(k.core, N(FieldStart)), [Span(HeaderValue, []), HeaderValueComplete], 0), rest)
  {
    hide Run, Rank, LineStep, UrlStep, NameStep, BodyStep, ListByte;
    RunOne(env, k, rest, Go(To(k.core, V(SpanStartEmptyValue)), false));
    EmptySpan(env, k.(core := To(k.core, V(SpanStartEmptyValue))), rest);
    var k3 := k.(core := To(k.core, V(OnValueComplete)), trace := k.trace + [Span(HeaderValue, [])]);
    RunOne(env, k3, rest, Notify(HeaderValueComplete, To(k.core, N(FieldStart)), None));
    assert k.trace + [Span(HeaderValue, [])] + [HeaderValueComplete]
        == k.trace + [Span(HeaderValue, []), HeaderValueComplete];
  }
}
