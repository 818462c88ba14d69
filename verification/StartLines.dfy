/**
  Start lines through the automaton: every method, and whole request and status lines.
*/
module StartLines {
  import opened Http
  import opened Machine
  import opened Numbers
  import opened Automaton
  import opened Semantics
  import opened Lengths
  import opened Bodies
  import opened Fields
  import opened Methods
  import opened Targets

  // ---------------------------------------------------------------- the method

  lemma LongName(i: nat)
    requires i < METHODS
    ensures |MethodName(i)| >= 3
  {
  }

  lemma FirstLetter(i: nat)
    requires i < METHODS
    ensures MethodName(i) != [] && IsAlpha(MethodName(i)[0])
  {
  }

  lemma FirstBytes(p: seq<byte>, s: seq<byte>)
    requires p <= s && |p| >= 3
    ensures p[0] == s[0] && p[1] == s[1] && p[2] == s[2] && (|p| > 3 ==> p[3] == s[3])
  {
  }

  lemma FreeFirst(i: nat, j: nat)
    requires i < 9 && j < METHODS && MethodName(j) <= MethodName(i)
    ensures i == j || (i == 41 && j == 1)
  {
    LongName(i);
    LongName(j);
    FirstBytes(MethodName(j), MethodName(i));
  }

  lemma FreeSecond(i: nat, j: nat)
    requires 9 <= i < 18 && j < METHODS && MethodName(j) <= MethodName(i)
    ensures i == j || (i == 41 && j == 1)
  {
    LongName(i);
    LongName(j);
    FirstBytes(MethodName(j), MethodName(i));
    assert |MethodName(j)| > 4 ==> MethodName(j)[4] == MethodName(i)[4];
  }

  lemma FreeThird(i: nat, j: nat)
    requires 18 <= i < 27 && j < METHODS && MethodName(j) <= MethodName(i)
    ensures i == j || (i == 41 && j == 1)
  {
    LongName(i);
    LongName(j);
    FirstBytes(MethodName(j), MethodName(i));
  }

  lemma FreeFourth(i: nat, j: nat)
    requires 27 <= i < 36 && j < METHODS && MethodName(j) <= MethodName(i)
    ensures i == j || (i == 41 && j == 1)
  {
    LongName(i);
    LongName(j);
    FirstBytes(MethodName(j), MethodName(i));
  }

  lemma FreeFifth(i: nat, j: nat)
    requires 36 <= i < 42 && j < METHODS && MethodName(j) <= MethodName(i)
    ensures i == j || (i == 41 && j == 1)
  {
    LongName(i);
    LongName(j);
    FirstBytes(MethodName(j), MethodName(i));
  }

  lemma FreeLast(i: nat, j: nat)
    requires 42 <= i < METHODS && j < METHODS && MethodName(j) <= MethodName(i)
    ensures i == j || (i == 41 && j == 1)
  {
    LongName(i);
    LongName(j);
    FirstBytes(MethodName(j), MethodName(i));
  }

  /** No method is a proper beginning of another, save for GET of GET_PARAMETER. */
  lemma PrefixFree(i: nat, j: nat)
    requires i < METHODS && j < METHODS && MethodName(j) <= MethodName(i)
    ensures i == j || (i == 41 && j == 1)
  {
    hide MethodName;
    if i < 9 { FreeFirst(i, j); } else if i < 18 { FreeSecond(i, j); } else if i < 27 { FreeThird(i, j); }
    else if i < 36 { FreeFourth(i, j); } else if i < 42 { FreeFifth(i, j); } else { FreeLast(i, j); }
  }

  /** The trie takes `name` to the method `code`: no proper beginning of it ends a method. */
  predicate IsMethod(name: seq<byte>, code: nat) {
    && code < METHODS && name == MethodName(code) && name != [] && IsAlpha(name[0]) && MethodCode(name) == code
    && (name == "GET" ==> code == 1)
    && forall n :: 0 < n < |name| ==>
         if name[..n] == "GET" then name[n] == '_' else MethodCode(name[..n]) == METHODS
  }

  lemma {:induction false} CodeFrom(i: nat, n: nat, j: nat)
    requires i < METHODS && 0 < n <= |MethodName(i)| && j <= METHODS
    requires MethodName(i)[..n] != "GET" && (n == |MethodName(i)| ==> j <= i)
    ensures MethodCode(MethodName(i)[..n], j) == if n == |MethodName(i)| then i else METHODS
    decreases METHODS - j
  {
    hide MethodName;
    var p := MethodName(i)[..n];
    if j < METHODS {
      if MethodName(j) == p {
        assert MethodName(j) <= MethodName(i);
        PrefixFree(i, j);
        GetLetters();
      } else {
        CodeFrom(i, n, j + 1);
      }
    }
  }

  lemma GetLetters()
    ensures MethodName(1) == "GET" && MethodName(41)[3] == '_' && MethodCode("GET") == 1
    ensures forall i: nat :: i < METHODS && MethodName(i) == "GET" ==> i == 1
  {
  }

  lemma EveryName(code: nat)
    requires code < METHODS
    ensures IsMethod(MethodName(code), code)
  {
    FirstLetter(code);
    GetLetters();
    hide MethodName, MethodCode;
    var name := MethodName(code);
    forall n | 0 < n < |name|
      ensures if name[..n] == "GET" then name[n] == '_' else MethodCode(name[..n]) == METHODS
    {
      if name[..n] == "GET" { PrefixFree(code, 1); } else { CodeFrom(code, n, 0); }
    }
    assert name[..|name|] == name;
    if name != "GET" { CodeFrom(code, |name|, 0); }
  }

  /** The trie has every method under its spelling and its number, and no other word. */
  lemma EveryMethod(m: HttpMethod)
    ensures IsMethod(Spelling(m), Number(m))
  {
    TableRow(m);
    EveryName(Number(m));
    hide MethodName, MethodCode, Spelling, Number;
  }

  lemma FirstRows(m: HttpMethod)
    requires Number(m) < 23
    ensures MethodName(Number(m)) == Spelling(m)
  {
  }

  lemma LastRows(m: HttpMethod)
    requires Number(m) >= 23
    ensures Number(m) < METHODS && MethodName(Number(m)) == Spelling(m)
  {
  }

  lemma TableRow(m: HttpMethod)
    ensures Number(m) < METHODS && MethodName(Number(m)) == Spelling(m)
  {
    hide MethodName, Number, Spelling;
    if Number(m) < 23 { FirstRows(m); } else { LastRows(m); }
  }

  lemma BeginsMethod(name: seq<byte>, code: nat, n: nat)
    requires IsMethod(name, code) && n <= |name|
    ensures IsMethodPrefix(name[..n])
  {
    assert name[..n] <= MethodName(code);
  }

  /** The core after the first `n` bytes of a name. */
  function Named(k: Core, name: seq<byte>, code: nat, n: nat): Core
    requires n <= |name|
  {
    if n == |name| && name != "GET" then k.(node := L(ReqFirstSpace), line := k.line.(verb := code))
    else To(k, L(Method(name[..n])))
  }

  lemma LongerPrefix(name: seq<byte>, code: nat, n: nat)
    requires IsMethod(name, code) && n < |name|
    ensures var longer := name[..n] + [name[n]];
            && longer == name[..n + 1] && IsMethodPrefix(longer) && (name[..n] == "GET" ==> name[n] == '_')
            && (longer != "GET" ==> MethodCode(longer) == if n + 1 == |name| then code else METHODS)
            && (n + 1 == |name| ==> longer == name)
  {
    hide MethodCode, IsMethodPrefix, MethodName;
    assert name[..n] + [name[n]] == name[..n + 1];
    assert name[..|name|] == name;
    BeginsMethod(name, code, n + 1);
  }

  lemma StepMethod(strict: bool, k: Core, name: seq<byte>, code: nat, n: nat)
    requires IsMethod(name, code) && n < |name| && k.node == L(Method(name[..n]))
    ensures Step(strict, k, Some(name[n])) == Go(Named(k, name, code, n + 1), true)
  {
    LongerPrefix(name, code, n);
    assert code < METHODS;
    hide MethodCode, IsMethodPrefix, IsMethod, UrlStep, NameStep, ValueStep, BodyStep, MethodName;
    assert Step(strict, k, Some(name[n])) == MethodByte(k, name[..n], name[n]);
    hide Step;
  }

  lemma {:induction false} EatMethod(strict: bool, k: Core, name: seq<byte>, code: nat, n: nat)
    requires IsMethod(name, code) && n < |name| && k.node == L(Method(name[..n]))
    ensures EatAll(strict, k, name[n..]) == Some(Named(k, name, code, |name|))
    decreases |name| - n
  {
    StepMethod(strict, k, name, code, n);
    hide Step, IsMethod;
    var next := Named(k, name, code, n + 1);
    assert Eat(strict, k, name[n]) == Some(next);
    assert name[n..][0] == name[n] && name[n..][1..] == name[n + 1..];
    if n + 1 < |name| { EatMethod(strict, next, name, code, n + 1); } else { assert name[..n + 1] == name; }
  }

  /** The space after the method, which is also what ends GET. */
  lemma EatSpace(strict: bool, k: Core, code: nat)
    requires k.node == L(ReqFirstSpace) || (k.node == L(Method("GET")) && code == 1)
    requires k.node == L(ReqFirstSpace) ==> k.line.verb == code
    ensures Eat(strict, k, SP) == Some(k.(node := L(ReqSpaces), line := k.line.(verb := code)))
  {
    var named := k.(node := L(ReqFirstSpace), line := k.line.(verb := code));
    assert Step(strict, named, Some(SP)) == Go(To(named, L(ReqSpaces)), true) by {
      hide UrlStep, NameStep, ValueStep, BodyStep, MethodByte;
    }
    if k.node != L(ReqFirstSpace) {
      assert Step(strict, k, Some(SP)) == Go(named, false) by {
        hide MethodCode, IsMethodPrefix, UrlStep, NameStep, ValueStep, BodyStep;
      }
    }
    hide Step;
  }

  // ---------------------------------------------------------------- the version

  function VersionText(p: Protocol, major: byte, minor: byte): seq<byte> { Prefix(p) + [major, '.', minor] }

  /** The state that runs the matcher of a protocol's name, and the one after it. */
  function NameState(p: Protocol): LineNode {
    match p case HTTP => ReqHttpStart1 case ICE => ReqHttpStart2 case RTSP => ReqHttpStart3
  }

  function ChoiceState(p: Protocol): LineNode {
    match p case HTTP => LoadMethodHttp case ICE => LoadMethodIce case RTSP => LoadMethodRtsp
  }

  /** After the first `n` bytes of the protocol and its slash. */
  function InProtocol(k: Core, p: Protocol, n: nat): Core {
    if n == 0 then k
    else if n < |Prefix(p)| then k.(node := L(NameState(p)), index := n - 1)
    else To(k, L(ChoiceState(p)))
  }

  lemma EatProtocolByte(strict: bool, k: Core, p: Protocol, n: nat)
    requires k.node == L(ReqHttpStart) && k.index == 0 && n < |Prefix(p)|
    ensures Eat(strict, InProtocol(k, p, n), Prefix(p)[n]) == Some(InProtocol(k, p, n + 1))
  {
    hide UrlStep, NameStep, ValueStep, BodyStep;
    assert Step(strict, InProtocol(k, p, n), Some(Prefix(p)[n])) == Go(InProtocol(k, p, n + 1), true);
  }

  lemma {:induction false} EatProtocol(strict: bool, k: Core, p: Protocol, n: nat)
    requires k.node == L(ReqHttpStart) && k.index == 0 && n <= |Prefix(p)|
    ensures EatAll(strict, InProtocol(k, p, n), Prefix(p)[n..]) == Some(To(k, L(ChoiceState(p))))
    decreases |Prefix(p)| - n
  {
    if n < |Prefix(p)| {
      EatProtocolByte(strict, k, p, n);
      hide Eat, Prefix, InProtocol;
      EatProtocol(strict, k, p, n + 1);
      assert Prefix(p)[n..][1..] == Prefix(p)[n + 1..];
    }
  }

  /** What the parser does once it knows both the method and the protocol. */
  lemma Choose(strict: bool, k: Core, m: HttpMethod, p: Protocol, c: Option<byte>)
    requires k.node == L(ChoiceState(p)) && k.line.verb == Number(m)
    ensures Step(strict, k, c) == if Speaks(p, m) then Go(To(k, L(ReqMajor)), false) else FailAt(k, 8)
  {
    hide UrlStep, NameStep, ValueStep, BodyStep, LineByte;
    NumberSays(m);
    hide Number;
  }

  /** Where the numbers of the protocols' own methods lie. */
  lemma RtspNumbers(m: HttpMethod)
    ensures IsRtspOnly(m) <==> Number(m) >= 35
    ensures Number(m) <= 45
  {
  }

  lemma HttpNumbers(m: HttpMethod)
    ensures m == SOURCE <==> Number(m) == 33
    ensures m == PRI <==> Number(m) == 34
    ensures m == CONNECT <==> Number(m) == 5
  {
  }

  lemma SharedNumbers(m: HttpMethod)
    ensures m == GET <==> Number(m) == 1
    ensures m == POST <==> Number(m) == 3
    ensures m == OPTIONS <==> Number(m) == 6
  {
  }

  lemma NumberSays(m: HttpMethod)
    ensures IsRtspOnly(m) <==> Number(m) >= 35
    ensures Number(m) <= 45
    ensures m == SOURCE <==> Number(m) == 33
    ensures m == PRI <==> Number(m) == 34
    ensures m == CONNECT <==> Number(m) == 5
    ensures m == GET <==> Number(m) == 1
    ensures m == POST <==> Number(m) == 3
    ensures m == OPTIONS <==> Number(m) == 6
  {
    hide Number, IsRtspOnly;
    RtspNumbers(m);
    HttpNumbers(m);
    SharedNumbers(m);
  }

  lemma EatVersionNumbers(strict: bool, k: Core, major: byte, minor: byte)
    requires k.node == L(ReqMajor) && IsDigit(major) && IsDigit(minor)
    ensures EatAll(strict, k, [major, '.', minor])
         == Some(To(SetVersion(k, DigitVal(major), DigitVal(minor)),
                    L(if k.line.verb == METHOD_PRI then PriUpgrade else ReqHttpComplete)))
  {
    hide UrlStep, NameStep, ValueStep, BodyStep, DigitVal;
    var a, b := DigitVal(major), DigitVal(minor);
    var k1 := To(SetVersion(k, a, k.line.minor), L(ReqDot));
    var end := To(SetVersion(k, a, b), L(if k.line.verb == METHOD_PRI then PriUpgrade else ReqHttpComplete));
    assert Step(strict, k, Some(major)) == Go(k1, true);
    assert Step(strict, k1, Some('.')) == Go(To(k1, L(ReqMinor)), true);
    assert Step(strict, To(k1, L(ReqMinor)), Some(minor)) == Go(end, true);
    hide Step;
    var s := [major, '.', minor];
    assert Eat(strict, k, s[0]) == Some(k1) && Eat(strict, k1, s[1]) == Some(To(k1, L(ReqMinor)));
    assert Eat(strict, To(k1, L(ReqMinor)), s[2]) == Some(end);
    hide Eat;
    assert s[1..] == ['.', minor] && ['.', minor][1..] == [minor] && [minor][1..] == [];
    assert EatAll(strict, To(k1, L(ReqMinor)), [minor]) == Some(end);
    assert EatAll(strict, k1, ['.', minor]) == Some(end);
  }

  lemma EatNumbers(strict: bool, k: Core, m: HttpMethod, p: Protocol, major: byte, minor: byte)
    requires k.node == L(ChoiceState(p)) && k.line.verb == Number(m) && Speaks(p, m)
    requires IsDigit(major) && IsDigit(minor)
    ensures EatAll(strict, k, [major, '.', minor])
         == Some(To(SetVersion(k, DigitVal(major), DigitVal(minor)),
                    L(if m == PRI then PriUpgrade else ReqHttpComplete)))
  {
    hide Step, Number, ChoiceState, Speaks, DigitVal, IsDigit;
    Choose(strict, k, m, p, Some(major));
    NumberSays(m);
    var s := [major, '.', minor];
    assert Eat(strict, k, major) == Eat(strict, To(k, L(ReqMajor)), major);
    hide Eat;
    assert s[0] == major && EatAll(strict, k, s) == EatAll(strict, To(k, L(ReqMajor)), s);
    EatVersionNumbers(strict, To(k, L(ReqMajor)), major, minor);
  }

  lemma EatLineEnd(strict: bool, k: Core)
    requires k.node == L(ReqHttpComplete)
    ensures EatAll(strict, k, CRLF) == Some(To(k, N(FieldStart)))
  {
    hide UrlStep, NameStep, ValueStep, BodyStep;
    assert Step(strict, k, Some(CR)) == Go(To(k, L(ReqHttpComplete1)), true);
    assert Step(strict, To(k, L(ReqHttpComplete1)), Some(LF)) == Go(To(k, N(FieldStart)), true);
    hide Step;
    assert CRLF[1..] == [LF] && [LF][1..] == [];
    assert EatAll(strict, To(k, L(ReqHttpComplete1)), [LF]) == Some(To(k, N(FieldStart)));
  }

  lemma EatVersion(strict: bool, k: Core, m: HttpMethod, p: Protocol, major: byte, minor: byte)
    requires k.node == L(ReqHttpStart) && k.index == 0 && k.line.verb == Number(m) && m != PRI && Speaks(p, m)
    requires IsDigit(major) && IsDigit(minor)
    ensures EatAll(strict, k, VersionText(p, major, minor) + CRLF)
         == Some(To(SetVersion(k, DigitVal(major), DigitVal(minor)), N(FieldStart)))
  {
    hide Step, Eat, EatAll, Number, Prefix, ChoiceState, Speaks;
    var k1 := To(k, L(ChoiceState(p)));
    var k2 := To(SetVersion(k1, DigitVal(major), DigitVal(minor)), L(ReqHttpComplete));
    EatProtocol(strict, k, p, 0);
    assert Prefix(p)[0..] == Prefix(p);
    EatNumbers(strict, k1, m, p, major, minor);
    EatSplit(strict, k, Prefix(p), [major, '.', minor]);
    EatLineEnd(strict, k2);
    EatSplit(strict, k, VersionText(p, major, minor), CRLF);
  }

  // ---------------------------------------------------------------- the request line

  function RequestLine(m: HttpMethod, target: Target, p: Protocol, major: byte, minor: byte): seq<byte> {
    Spelling(m) + [SP] + (TargetText(target) + ([SP] + (VersionText(p, major, minor) + CRLF)))
  }

  function AfterRequestLine(k: Core, code: nat, major: nat, minor: nat): Core {
    k.(node := N(FieldStart), line := k.line.(finish := Unsafe, verb := code, major := major, minor := minor))
  }

  lemma ReadStart(env: Env, k: Config, buf: seq<byte>)
    requires Ready(k) && k.core.node == L(Start) && !k.core.line.ty.Both? && buf != [] && buf[0] != CR && buf[0] != LF
    ensures var core := k.core.(node := L(if k.core.line.ty.Request? then Method([]) else StartRes),
                                line := k.core.line.(finish := Unsafe));
            Run(env, k, buf) == Run(env, Emitted(k, core, [MessageBegin], 0), buf)
  {
    hide Run, Rank, UrlStep, NameStep, ValueStep, BodyStep;
    var core := k.core.(line := k.core.line.(finish := Unsafe));
    Move(env, k, buf, To(core, L(OnMessageBegin)), false);
    Notified(env, Past(k, To(core, L(OnMessageBegin)), 0), buf, MessageBegin, To(core, L(LoadType)),
        Some(HPE_CB_MESSAGE_BEGIN));
    var next := L(if core.line.ty.Request? then Method([]) else StartRes);
    Move(env, Emitted(k, To(core, L(LoadType)), [MessageBegin], 0), buf, To(core, next), false);
  }

  /** From the start of a request line: every method by its spelling, and the number it is stored as. */
  lemma ReadMethod(env: Env, k: Config, m: HttpMethod, rest: seq<byte>)
    requires Ready(k) && k.core.node == L(Start) && k.core.line.ty.Request?
    ensures var text := Spelling(m) + [SP];
            var next := k.core.(node := L(ReqSpaces), line := k.core.line.(finish := Unsafe, verb := Number(m)));
            Run(env, k, text + rest) == Run(env, Emitted(k, next, [MessageBegin], |text|), rest)
  {
    hide Run, Spelling, Number;
    SpellingBegins(m);
    var buf := Spelling(m) + [SP] + rest;
    assert buf[0] == Spelling(m)[0];
    ReadStart(env, k, buf);
    ReadWord(env, Emitted(k, k.core.(node := L(Method([])), line := k.core.line.(finish := Unsafe)), [MessageBegin], 0),
        m, rest);
  }

  lemma SpellingBegins(m: HttpMethod)
    ensures Spelling(m) != [] && IsAlpha(Spelling(m)[0])
  {
    hide Spelling, Number, MethodName, MethodCode;
    EveryMethod(m);
  }

  lemma ReadWord(env: Env, k: Config, m: HttpMethod, rest: seq<byte>)
    requires Ready(k) && k.core.node == L(Method([]))
    ensures var text := Spelling(m) + [SP];
            var next := k.core.(node := L(ReqSpaces), line := k.core.line.(verb := Number(m)));
            Run(env, k, text + rest) == Run(env, Past(k, next, |text|), rest)
  {
    hide Run, Rank, Step, Eat, MethodName, Spelling, Number;
    var name, code, core := Spelling(m), Number(m), k.core;
    EveryMethod(m);
    assert name[..0] == [] && name[0..] == name;
    EatMethod(env.strict, core, name, code, 0);
    var named := Named(core, name, code, |name|);
    assert name[..|name|] == name;
    EatSpace(env.strict, named, code);
    EatSplit(env.strict, core, name, [SP]);
    assert [SP][1..] == [];
    hide EatAll, IsMethod;
    RunEatAll(env, k, name + [SP], rest);
  }

  function RequestEvents(target: Target): seq<Event> { [MessageBegin, Span(Url, TargetText(target)), UrlComplete] }

  /** A request line from the target on. */
  function LineTail(target: Target, p: Protocol, major: byte, minor: byte): seq<byte> {
    TargetText(target) + ([SP] + (VersionText(p, major, minor) + CRLF))
  }

  lemma ReadVersion(env: Env, k: Config, m: HttpMethod, p: Protocol, major: byte, minor: byte, rest: seq<byte>)
    requires Ready(k) && k.core.node == L(ReqHttpStart) && k.core.index == 0 && k.core.line.verb == Number(m)
    requires m != PRI && Speaks(p, m) && IsDigit(major) && IsDigit(minor)
    ensures var text := VersionText(p, major, minor) + CRLF;
            var core := To(SetVersion(k.core, DigitVal(major), DigitVal(minor)), N(FieldStart));
            Run(env, k, text + rest) == Run(env, Past(k, core, |text|), rest)
  {
    hide Run, Rank, Step, Eat, EatAll, Number, VersionText, Speaks, IsDigit, DigitVal;
    EatVersion(env.strict, k.core, m, p, major, minor);
    RunEatAll(env, k, VersionText(p, major, minor) + CRLF, rest);
  }

  lemma ReadLineTail(env: Env, k: Config, m: HttpMethod, target: Target, p: Protocol, major: byte, minor: byte,
      rest: seq<byte>)
    requires Ready(k) && k.core.node == L(ReqSpaces) && k.core.index == 0 && k.core.line.verb == Number(m)
    requires m != PRI && Speaks(p, m) && IsTarget(target, m == CONNECT) && IsDigit(major) && IsDigit(minor)
    ensures var text := LineTail(target, p, major, minor);
            var core := To(SetVersion(k.core, DigitVal(major), DigitVal(minor)), N(FieldStart));
            Run(env, k, text + rest)
              == Run(env, Emitted(k, core, [Span(Url, TargetText(target)), UrlComplete], |text|), rest)
  {
    hide Run, Number, IsTarget, TargetText, VersionText, Speaks, IsDigit, DigitVal, Emitted, Past, LineTail, SetVersion;
    NumberSays(m);
    var url, last := TargetText(target), VersionText(p, major, minor) + CRLF;
    TailParts(target, p, major, minor, rest);
    ReadTarget(env, k, target, last + rest);
    var before, events := To(k.core, L(ReqHttpStart)), [Span(Url, url), UrlComplete];
    var core := To(SetVersion(k.core, DigitVal(major), DigitVal(minor)), N(FieldStart));
    EmittedPast(k, before, core, events, |url| + 1, |last|);
    VersionMoves(k.core, DigitVal(major), DigitVal(minor));
    ReadVersion(env, Emitted(k, before, events, |url| + 1), m, p, major, minor, rest);
  }

  lemma TailParts(target: Target, p: Protocol, major: byte, minor: byte, rest: seq<byte>)
    ensures var url, last := TargetText(target), VersionText(p, major, minor) + CRLF;
            && LineTail(target, p, major, minor) + rest == url + ([SP] + (last + rest))
            && |LineTail(target, p, major, minor)| == |url| + 1 + |last|
  {
    hide TargetText, VersionText;
  }

  lemma EmittedPast(k: Config, before: Core, core: Core, events: seq<Event>, n: nat, m: nat)
    ensures Past(Emitted(k, before, events, n), core, m) == Emitted(k, core, events, n + m)
    ensures var r := Emitted(k, before, events, n); r.core == before && (Ready(k) ==> Ready(r))
  {
  }

  lemma VersionMoves(k: Core, major: nat, minor: nat)
    ensures To(SetVersion(To(k, L(ReqHttpStart)), major, minor), N(FieldStart))
         == To(SetVersion(k, major, minor), N(FieldStart))
  {
  }

  /**
    A request line with any method, any target, and any version of a protocol that has the method: the message
    begins, the target is reported as the URL, and the registers hold the method's number and the version.
  */
  lemma ReadRequestLine(env: Env, k: Config, m: HttpMethod, target: Target, p: Protocol, major: byte, minor: byte,
      rest: seq<byte>)
    requires Ready(k) && k.core.node == L(Start) && k.core.index == 0 && k.core.line.ty.Request?
    requires m != PRI && Speaks(p, m) && IsTarget(target, m == CONNECT) && IsDigit(major) && IsDigit(minor)
    ensures var text := RequestLine(m, target, p, major, minor);
            var core := AfterRequestLine(k.core, Number(m), DigitVal(major), DigitVal(minor));
            Run(env, k, text + rest) == Run(env, Emitted(k, core, RequestEvents(target), |text|), rest)
  {
    hide Run, Spelling, Number, IsTarget, TargetText, VersionText, Speaks, IsDigit, DigitVal, LineTail;
    var name, tail := Spelling(m) + [SP], LineTail(target, p, major, minor);
    var core := k.core.(node := L(ReqSpaces), line := k.core.line.(finish := Unsafe, verb := Number(m)));
    LineParts(m, target, p, major, minor, rest);
    ReadMethod(env, k, m, tail + rest);
    var k2 := Emitted(k, core, [MessageBegin], |name|);
    ReadLineTail(env, k2, m, target, p, major, minor, rest);
    assert k.trace + [MessageBegin] + [Span(Url, TargetText(target)), UrlComplete] == k.trace + RequestEvents(target);
  }

  lemma LineParts(m: HttpMethod, target: Target, p: Protocol, major: byte, minor: byte, rest: seq<byte>)
    ensures var name, tail := Spelling(m) + [SP], LineTail(target, p, major, minor);
            && RequestLine(m, target, p, major, minor) + rest == name + (tail + rest)
            && |RequestLine(m, target, p, major, minor)| == |name| + |tail|
  {
    hide Spelling, TargetText, VersionText;
  }

  // ---------------------------------------------------------------- the status line

  function StatusLine(major: byte, minor: byte, digits: seq<byte>, reason: seq<byte>): seq<byte> {
    VersionText(HTTP, major, minor) + [SP] + (digits + ([SP] + (reason + CRLF)))
  }

  function AfterStatusLine(k: Core, major: nat, minor: nat, status: nat): Core {
    k.(node := N(FieldStart), line := k.line.(finish := Unsafe, major := major, minor := minor, status := status))
  }

  function InStartRes(k: Core, n: nat): Core {
    if n < 5 then k.(index := n) else To(k, L(ResMajor))
  }

  lemma EatStartResByte(strict: bool, k: Core, n: nat)
    requires k.node == L(StartRes) && k.index == 0 && n < 5
    ensures Eat(strict, InStartRes(k, n), "HTTP/"[n]) == Some(InStartRes(k, n + 1))
  {
    hide UrlStep, NameStep, ValueStep, BodyStep;
    assert Step(strict, InStartRes(k, n), Some("HTTP/"[n])) == Go(InStartRes(k, n + 1), true);
  }

  lemma {:induction false} EatStartRes(strict: bool, k: Core, n: nat)
    requires k.node == L(StartRes) && k.index == 0 && n <= 5
    ensures EatAll(strict, InStartRes(k, n), "HTTP/"[n..]) == Some(To(k, L(ResMajor)))
    decreases 5 - n
  {
    if n < 5 {
      EatStartResByte(strict, k, n);
      hide Eat;
      EatStartRes(strict, k, n + 1);
      assert "HTTP/"[n..][1..] == "HTTP/"[n + 1..];
    }
  }

  lemma EatResNumbers(strict: bool, k: Core, major: byte, minor: byte)
    requires k.node == L(ResMajor) && IsDigit(major) && IsDigit(minor)
    ensures EatAll(strict, k, [major, '.', minor, SP])
         == Some(To(SetVersion(k.(line := k.line.(status := 0)), DigitVal(major), DigitVal(minor)), L(ResStatusCode)))
  {
    hide UrlStep, NameStep, ValueStep, BodyStep, DigitVal;
    var a, b := DigitVal(major), DigitVal(minor);
    var k1 := To(SetVersion(k, a, k.line.minor), L(ResDot));
    var k2 := To(SetVersion(k, a, b), L(ResHttpEnd));
    var end := To(k2.(line := k2.line.(status := 0)), L(ResStatusCode));
    assert Step(strict, k, Some(major)) == Go(k1, true);
    assert Step(strict, k1, Some('.')) == Go(To(k1, L(ResMinor)), true);
    assert Step(strict, To(k1, L(ResMinor)), Some(minor)) == Go(k2, true);
    assert Step(strict, k2, Some(SP)) == Go(end, true);
    hide Step;
    var s := [major, '.', minor, SP];
    assert Eat(strict, k, s[0]) == Some(k1) && Eat(strict, k1, s[1]) == Some(To(k1, L(ResMinor)));
    assert Eat(strict, To(k1, L(ResMinor)), s[2]) == Some(k2) && Eat(strict, k2, s[3]) == Some(end);
    hide Eat;
    assert s[1..] == ['.', minor, SP] && s[1..][1..] == [minor, SP] && [minor, SP][1..] == [SP] && [SP][1..] == [];
    assert EatAll(strict, k2, [SP]) == Some(end);
    assert EatAll(strict, To(k1, L(ResMinor)), [minor, SP]) == Some(end);
    assert EatAll(strict, k1, ['.', minor, SP]) == Some(end);
  }

  lemma EatAfterCode(strict: bool, k: Core)
    requires k.node == L(ResStatusCode)
    ensures Eat(strict, k, SP) == Some(To(k, L(ResStatusStart)))
  {
    hide UrlStep, NameStep, ValueStep, BodyStep;
    assert Step(strict, k, Some(SP)) == Go(To(k, L(ResStatusCodeOtherwise)), false);
    assert Step(strict, To(k, L(ResStatusCodeOtherwise)), Some(SP)) == Go(To(k, L(ResStatusStart)), true);
  }

  /** The reason phrase: a span, unless it is empty. */
  function ReasonEvents(reason: seq<byte>): seq<Event> {
    (if reason == [] then [] else [Span(Status, reason)]) + [StatusComplete]
  }

  predicate IsReason(reason: seq<byte>) { CR !in reason && LF !in reason }

  lemma ReadLineFeed(env: Env, k: Config, rest: seq<byte>)
    requires Ready(k) && k.core.node == L(ResLineAlmostDone)
    ensures Run(env, k, [LF] + rest) == Run(env, Emitted(k, To(k.core, N(FieldStart)), [StatusComplete], 1), rest)
  {
    hide Run, Rank, UrlStep, NameStep, ValueStep, BodyStep;
    assert ([LF] + rest)[1..] == rest;
    Move(env, k, [LF] + rest, To(k.core, L(OnStatusComplete)), true);
    RunOne(env, Past(k, To(k.core, L(OnStatusComplete)), 1), rest,
        Notify(StatusComplete, To(k.core, N(FieldStart)), None));
  }

  lemma {:induction false} EatReason(strict: bool, k: Core, s: seq<byte>)
    requires k.node == L(ResStatus) && IsReason(s)
    ensures EatAll(strict, k, s) == Some(k)
    decreases |s|
  {
    if s != [] {
      assert s[0] in s;
      assert Step(strict, k, Some(s[0])) == Go(k, true) by { hide UrlStep, NameStep, ValueStep, BodyStep; }
      assert Eat(strict, k, s[0]) == Some(k) by { hide Step; }
      hide Eat;
      EatReason(strict, k, s[1..]);
    }
  }

  lemma PhraseBegins(env: Env, k: Config, buf: seq<byte>)
    requires Ready(k) && k.core.node == L(ResStatusStart) && buf != [] && buf[0] != CR && buf[0] != LF
    ensures Run(env, k, buf) == Run(env, k.(core := To(k.core, L(ResStatus)), span := Some(OpenSpan(Status, []))), buf)
  {
    hide Run, Rank, UrlStep, NameStep, ValueStep, BodyStep;
    Move(env, k, buf, To(k.core, L(SpanStartStatus)), false);
    RunOne(env, Past(k, To(k.core, L(SpanStartStatus)), 0), buf, Open(Status, To(k.core, L(ResStatus))));
  }

  lemma PhraseEnds(env: Env, k: Config, reason: seq<byte>, rest: seq<byte>)
    requires k.stop == 0 && k.core.node == L(ResStatus) && k.span == Some(OpenSpan(Status, reason))
    ensures var next := k.(core := To(k.core, L(ResLineAlmostDone)), span := None);
            Run(env, k, [CR] + rest) == Run(env, Emitted(next, next.core, [Span(Status, reason)], 1), rest)
  {
    hide Run, Rank, UrlStep, NameStep, ValueStep, BodyStep;
    assert ([CR] + rest)[1..] == rest;
    RunOne(env, k, [CR] + rest, Close(To(k.core, L(ResLineAlmostDone)), true));
  }

  lemma ReadPhrase(env: Env, k: Config, reason: seq<byte>, rest: seq<byte>)
    requires Ready(k) && k.core.node == L(ResStatusStart) && IsReason(reason) && reason != []
    ensures Run(env, k, reason + [CR] + rest)
         == Run(env, Emitted(k, To(k.core, L(ResLineAlmostDone)), [Span(Status, reason)], |reason| + 1), rest)
  {
    hide Run, Rank, Step, Eat, EatAll;
    var core, tail := To(k.core, L(ResStatus)), [CR] + rest;
    var buf := reason + tail;
    assert reason + [CR] + rest == buf && buf[0] in reason;
    PhraseBegins(env, k, buf);
    var k1 := k.(core := core, span := Some(OpenSpan(Status, [])));
    EatReason(env.strict, core, reason);
    RunEatAll(env, k1, reason, tail);
    assert [] + reason == reason;
    PhraseEnds(env, Moved(k1, core, reason), reason, rest);
  }

  lemma ReadReason(env: Env, k: Config, reason: seq<byte>, rest: seq<byte>)
    requires Ready(k) && k.core.node == L(ResStatusStart) && IsReason(reason)
    ensures Run(env, k, reason + CRLF + rest)
         == Run(env, Emitted(k, To(k.core, N(FieldStart)), ReasonEvents(reason), |reason| + 2), rest)
  {
    hide Run, Rank, UrlStep, NameStep, ValueStep, BodyStep;
    var tail := [LF] + rest;
    var buf := reason + [CR] + tail;
    assert reason + CRLF + rest == buf;
    var next := To(k.core, L(ResLineAlmostDone));
    if reason == [] {
      assert buf == [CR] + tail && buf[1..] == tail;
      Move(env, k, buf, next, true);
      ReadLineFeed(env, Past(k, next, 1), rest);
      assert [] + [StatusComplete] == [StatusComplete];
    } else {
      ReadPhrase(env, k, reason, tail);
      ReadLineFeed(env, Emitted(k, next, [Span(Status, reason)], |reason| + 1), rest);
      assert k.trace + [Span(Status, reason)] + [StatusComplete] == k.trace + ReasonEvents(reason);
    }
  }

  lemma EatStatusVersion(strict: bool, k: Core, major: byte, minor: byte)
    requires k.node == L(StartRes) && k.index == 0 && IsDigit(major) && IsDigit(minor)
    ensures EatAll(strict, k, VersionText(HTTP, major, minor) + [SP])
         == Some(To(SetVersion(k.(line := k.line.(status := 0)), DigitVal(major), DigitVal(minor)), L(ResStatusCode)))
  {
    hide Step, Eat, EatAll;
    EatStartRes(strict, k, 0);
    assert "HTTP/"[0..] == "HTTP/";
    EatResNumbers(strict, To(k, L(ResMajor)), major, minor);
    EatSplit(strict, k, "HTTP/", [major, '.', minor, SP]);
    assert VersionText(HTTP, major, minor) + [SP] == "HTTP/" + [major, '.', minor, SP];
  }

  lemma ReadCode(env: Env, k: Config, digits: seq<byte>, rest: seq<byte>)
    requires Ready(k) && k.core.node == L(ResStatusCode) && k.core.line.status == 0
    requires AllDigits(digits) && Denotes(10, DigitVals(digits)) <= 999
    ensures var line := k.core.line.(status := Denotes(10, DigitVals(digits)));
            var next := k.core.(node := L(ResStatusStart), line := line);
            Run(env, k, digits + [SP] + rest) == Run(env, Past(k, next, |digits| + 1), rest)
  {
    hide Run, Rank, Step, Eat, DigitVals, Denotes;
    var status := Denotes(10, DigitVals(digits));
    var tail := [SP] + rest;
    assert digits + [SP] + rest == digits + tail;
    assert Extended(10, 0, DigitVals(digits)) == status;
    ReadStatus(env, k, digits, tail);
    var k1 := Past(k, k.core.(line := k.core.line.(status := status)), |digits|);
    EatAfterCode(env.strict, k1.core);
    RunEat(env, k1, SP, rest);
  }

  /** A status line with any version, any code up to 999 and any reason phrase, possibly empty. */
  lemma ReadStatusLine(env: Env, k: Config, major: byte, minor: byte, digits: seq<byte>, reason: seq<byte>,
      rest: seq<byte>)
    requires Ready(k) && k.core.node == L(Start) && k.core.index == 0 && k.core.line.ty.Response?
    requires IsDigit(major) && IsDigit(minor) && IsReason(reason)
    requires AllDigits(digits) && Denotes(10, DigitVals(digits)) <= 999
    ensures var text := StatusLine(major, minor, digits, reason);
            var core := AfterStatusLine(k.core, DigitVal(major), DigitVal(minor), Denotes(10, DigitVals(digits)));
            Run(env, k, text + rest) == Run(env, Emitted(k, core, [MessageBegin] + ReasonEvents(reason), |text|), rest)
  {
    hide Run, Rank, Step, Eat, EatAll, DigitVals, Denotes, IsReason, ReasonEvents;
    var text, version := StatusLine(major, minor, digits, reason), VersionText(HTTP, major, minor) + [SP];
    var afterVersion, afterCode := digits + [SP] + (reason + CRLF + rest), reason + CRLF + rest;
    assert text + rest == version + afterVersion;
    assert (text + rest)[0] == 'H';
    ReadStart(env, k, text + rest);
    var core := k.core.(node := L(StartRes), line := k.core.line.(finish := Unsafe));
    var k1 := Emitted(k, core, [MessageBegin], 0);
    EatStatusVersion(env.strict, core, major, minor);
    RunEatAll(env, k1, version, afterVersion);
    var core2 := To(SetVersion(core.(line := core.line.(status := 0)), DigitVal(major), DigitVal(minor)),
        L(ResStatusCode));
    var k2 := Past(k1, core2, |version|);
    ReadCode(env, k2, digits, afterCode);
    var status := Denotes(10, DigitVals(digits));
    var k3 := Past(k2, core2.(node := L(ResStatusStart), line := core2.line.(status := status)), |digits| + 1);
    ReadReason(env, k3, reason, rest);
    assert k.trace + [MessageBegin] + ReasonEvents(reason) == k.trace + ([MessageBegin] + ReasonEvents(reason));
  }
}
