/**
  What a start line is taken for: the words that are methods, the methods of each protocol, the preface of HTTP/2,
  and requests and responses told apart (3rd/llhttp/llhttp.c:10622-10814, 11012-13105).
*/
module Detection {
  import opened Http
  import opened Machine
  import opened Automaton
  import opened Semantics
  import opened Bodies
  import opened Fields
  import opened Methods
  import opened Targets
  import opened StartLines

  // ---------------------------------------------------------------- words that are methods

  lemma NoSpaceInFirst(code: nat)
    requires code < 23
    ensures SP !in MethodName(code)
  {
  }

  lemma NoSpaceInLast(code: nat)
    requires 23 <= code < METHODS
    ensures SP !in MethodName(code)
  {
  }

  lemma NoSpaceIn(code: nat)
    requires code < METHODS
    ensures SP !in MethodName(code)
  {
    hide MethodName;
    if code < 23 { NoSpaceInFirst(code); } else { NoSpaceInLast(code); }
  }

  /** A word with a space in it neither is a method nor begins one. */
  lemma SpaceEndsWord(p: seq<byte>)
    ensures MethodCode(p + [SP]) == METHODS && !IsMethodPrefix(p + [SP])
  {
    forall i: nat | i < METHODS ensures !(p + [SP] <= MethodName(i)) {
      NoSpaceIn(i);
      assert (p + [SP])[|p|] == SP;
      if |p| < |MethodName(i)| { assert MethodName(i)[|p|] in MethodName(i); }
    }
    hide MethodName;
    NoCode(p + [SP], 0);
  }

  lemma {:induction false} NoCode(p: seq<byte>, i: nat)
    requires i <= METHODS && forall j: nat :: j < METHODS ==> MethodName(j) != p
    ensures MethodCode(p, i) == METHODS
    decreases METHODS - i
  {
    hide MethodName;
    if i < METHODS { NoCode(p, i + 1); }
  }

  lemma {:induction false} CodeNames(p: seq<byte>, i: nat)
    requires i <= METHODS && MethodCode(p, i) < METHODS
    ensures MethodName(MethodCode(p, i)) == p
    decreases METHODS - i
  {
    hide MethodName;
    if i < METHODS && MethodName(i) != p { CodeNames(p, i + 1); }
  }

  lemma FirstNumbered(code: nat) returns (m: HttpMethod)
    requires code < 23
    ensures Number(m) == code
  {
    match code
    case 0 => m := DELETE; case 1 => m := GET; case 2 => m := HEAD; case 3 => m := POST; case 4 => m := PUT;
    case 5 => m := CONNECT; case 6 => m := OPTIONS; case 7 => m := TRACE; case 8 => m := COPY; case 9 => m := LOCK;
    case 10 => m := MKCOL; case 11 => m := MOVE; case 12 => m := PROPFIND; case 13 => m := PROPPATCH;
    case 14 => m := SEARCH; case 15 => m := UNLOCK; case 16 => m := BIND; case 17 => m := REBIND;
    case 18 => m := UNBIND; case 19 => m := ACL; case 20 => m := REPORT; case 21 => m := MKACTIVITY;
    case _ => m := CHECKOUT;
  }

  lemma LastNumbered(code: nat) returns (m: HttpMethod)
    requires 23 <= code < 46
    ensures Number(m) == code
  {
    match code
    case 23 => m := MERGE; case 24 => m := MSEARCH; case 25 => m := NOTIFY; case 26 => m := SUBSCRIBE;
    case 27 => m := UNSUBSCRIBE; case 28 => m := PATCH; case 29 => m := PURGE; case 30 => m := MKCALENDAR;
    case 31 => m := LINK; case 32 => m := UNLINK; case 33 => m := SOURCE; case 34 => m := PRI;
    case 35 => m := DESCRIBE; case 36 => m := ANNOUNCE; case 37 => m := SETUP; case 38 => m := PLAY;
    case 39 => m := PAUSE; case 40 => m := TEARDOWN; case 41 => m := GET_PARAMETER; case 42 => m := SET_PARAMETER;
    case 43 => m := REDIRECT; case 44 => m := RECORD; case _ => m := FLUSH;
  }

  /** The method of a number. */
  lemma Numbered(code: nat) returns (m: HttpMethod)
    requires code < METHODS
    ensures Number(m) == code
  {
    hide Number;
    if code < 23 { m := FirstNumbered(code); } else { m := LastNumbered(code); }
  }

  ghost predicate IsSpelled(w: seq<byte>) { exists m :: Spelling(m) == w }

  lemma CodeIsSpelled(w: seq<byte>)
    requires MethodCode(w) < METHODS
    ensures IsSpelled(w)
  {
    CodeNames(w, 0);
    var m := Numbered(MethodCode(w));
    TableRow(m);
    hide MethodName, Spelling, Number, MethodCode;
  }

  /** After a whole method: only a space goes on. */
  lemma WordEnds(env: Env, k: Config, s: seq<byte>)
    requires Ready(k) && k.core.node == L(ReqFirstSpace) && s != [] && (s[0] == SP ==> s == [SP])
    ensures var r := Run(env, k, s); if s == [SP] then r.stop == 0 else r.stop == 6
  {
    hide Run, Rank, UrlStep, NameStep, ValueStep, BodyStep;
    var a := Step(env.strict, k.core, Some(s[0]));
    RunOne(env, k, s, a);
    if s[0] == SP {
      var k1 := Past(k, To(k.core, L(ReqSpaces)), 1);
      assert Step(env.strict, k1.core, None) == Wait;
      assert s[1..] == [];
      RunNothing(env, k1);
    }
  }

  lemma RunNothing(env: Env, k: Config)
    requires k.stop == 0 && Step(env.strict, k.core, None).Wait?
    ensures Run(env, k, []) == k
  {
    hide Step;
  }

  /** The rest of a word, after the beginning `p` of a method. */
  lemma {:induction false} RestOfWord(env: Env, k: Config, p: seq<byte>, s: seq<byte>)
    requires Ready(k) && k.core.node == L(Method(p)) && SP !in s
    ensures var r := Run(env, k, s + [SP]);
            (r.stop == 0 || r.stop == 6) && (r.stop == 0 ==> IsSpelled(p + s))
    decreases |s|
  {
    hide Run, Rank, MethodCode, IsMethodPrefix, IsSpelled, Step;
    var buf := s + [SP];
    var b := buf[0];
    StepsByTrie(env.strict, k.core, p, b);
    GetLetters();
    hide MethodName;
    if p == "GET" && b != '_' {
      var next := k.core.(node := L(ReqFirstSpace), line := k.core.line.(verb := 1));
      Move(env, k, buf, next, false);
      assert b == SP ==> s == [] by { if s != [] { assert b in s; } }
      WordEnds(env, Past(k, next, 0), buf);
      if s == [] { assert p + s == p; CodeIsSpelled(p); }
    } else if s == [] {
      assert b == SP;
      SpaceEndsWord(p);
      assert p + [SP] != "GET" by { assert (p + [SP])[|p|] == SP; }
      RunOne(env, k, buf, FailAt(k.core, HPE_INVALID_METHOD));
    } else {
      var s' := s[1..];
      assert b == s[0] && b in s && buf[1..] == s' + [SP] && p + s == p + [b] + s';
      assert forall c :: c in s' ==> c in s;
      if p + [b] != "GET" && MethodCode(p + [b]) < METHODS {
        var next := k.core.(node := L(ReqFirstSpace), line := k.core.line.(verb := MethodCode(p + [b])));
        Move(env, k, buf, next, true);
        assert (s' + [SP])[0] == SP ==> s' == [] by { if s' != [] { assert s'[0] in s'; } }
        WordEnds(env, Past(k, next, 1), s' + [SP]);
        if s' == [] { assert p + s == p + [b]; CodeIsSpelled(p + [b]); }
      } else if IsMethodPrefix(p + [b]) {
        Move(env, k, buf, To(k.core, L(Method(p + [b]))), true);
        RestOfWord(env, Past(k, To(k.core, L(Method(p + [b]))), 1), p + [b], s');
      } else {
        RunOne(env, k, buf, FailAt(k.core, HPE_INVALID_METHOD));
      }
    }
  }

  lemma StepsByTrie(strict: bool, k: Core, p: seq<byte>, b: byte)
    requires k.node == L(Method(p))
    ensures Step(strict, k, Some(b)) == MethodByte(k, p, b)
  {
    hide UrlStep, NameStep, ValueStep, BodyStep, MethodByte;
  }

  /** A request parser takes a word and the space after it if and only if it spells a method. */
  lemma OnlyMethods(env: Env, k: Config, w: seq<byte>)
    requires Ready(k) && k.core.node == L(Method([])) && SP !in w
    ensures Run(env, k, w + [SP]).stop == if IsSpelled(w) then 0 else 6
  {
    hide Run, Rank, Step, MethodName, Spelling, Number;
    assert [] + w == w;
    RestOfWord(env, k, [], w);
    if IsSpelled(w) {
      var m :| Spelling(m) == w;
      ReadWord(env, k, m, []);
      assert w + [SP] + [] == w + [SP];
      var next := k.core.(node := L(ReqSpaces), line := k.core.line.(verb := Number(m)));
      SpacesWait(env, Past(k, next, |w| + 1));
    }
  }

  lemma SpacesWait(env: Env, k: Config)
    requires Ready(k) && k.core.node == L(ReqSpaces)
    ensures Run(env, k, []) == k
  {
    hide Run;
    assert Step(env.strict, k.core, None) == Wait;
    RunNothing(env, k);
  }

  // ---------------------------------------------------------------- methods and protocols

  /** A method and a protocol that does not have it are refused before the version. */
  lemma WrongProtocol(env: Env, k: Config, m: HttpMethod, p: Protocol)
    requires Ready(k) && k.core.node == L(ReqHttpStart) && k.core.index == 0 && k.core.line.verb == Number(m)
    ensures Run(env, k, Prefix(p)).stop == if Speaks(p, m) then 0 else 8
  {
    hide Run, Rank, Step, Eat, EatAll, Number, Prefix, ChoiceState, Speaks;
    EatProtocol(env.strict, k.core, p, 0);
    assert Prefix(p)[0..] == Prefix(p) && Prefix(p) + [] == Prefix(p);
    RunEatAll(env, k, Prefix(p), []);
    var k1 := Past(k, To(k.core, L(ChoiceState(p))), |Prefix(p)|);
    Choose(env.strict, k1.core, m, p, None);
    if Speaks(p, m) {
      var k2 := Past(k1, To(k1.core, L(ReqMajor)), 0);
      Move(env, k1, [], k2.core, false);
      MajorWaits(env, k2);
    } else {
      RunOne(env, k1, [], FailAt(k1.core, 8));
    }
  }

  lemma MajorWaits(env: Env, k: Config)
    requires Ready(k) && k.core.node == L(ReqMajor)
    ensures Run(env, k, []) == k
  {
    hide Run;
    assert Step(env.strict, k.core, None) == Wait;
    RunNothing(env, k);
  }

  // ---------------------------------------------------------------- the preface of HTTP/2

  const PriWord: seq<byte> := "PRI "
  const AfterVersion: seq<byte> := "\r\n\r\nSM\r\n\r\n"

  lemma {:induction false} EatPreface(strict: bool, k: Core, n: nat)
    requires k.node == L(PriUpgrade) && k.index == 0 && n < |AfterVersion|
    ensures EatAll(strict, k.(index := n), AfterVersion[n..]) == Some(To(k, L(PriDone)))
    decreases |AfterVersion| - n
  {
    PrefaceByte(strict, k, n);
    hide Step, AfterVersion;
    var next := if n + 1 < |AfterVersion| then k.(index := n + 1) else To(k, L(PriDone));
    assert Eat(strict, k.(index := n), AfterVersion[n]) == Some(next);
    assert AfterVersion[n..][0] == AfterVersion[n] && AfterVersion[n..][1..] == AfterVersion[n + 1..];
    hide Eat;
    if n + 1 < |AfterVersion| { EatPreface(strict, k, n + 1); }
  }

  lemma PrefaceByte(strict: bool, k: Core, n: nat)
    requires k.node == L(PriUpgrade) && k.index == 0 && n < |AfterVersion|
    ensures Step(strict, k.(index := n), Some(AfterVersion[n]))
         == Go(if n + 1 < |AfterVersion| then k.(index := n + 1) else To(k, L(PriDone)), true)
  {
    hide UrlStep, NameStep, ValueStep, BodyStep;
  }

  lemma PrefaceEnds(env: Env, k: Config, buf: seq<byte>)
    requires Ready(k) && k.core.node == L(PriDone)
    ensures Run(env, k, buf) == k.(core := To(k.core, Error), stop := 23)
  {
    hide Run, UrlStep, NameStep, ValueStep, BodyStep;
    RunOne(env, k, buf, FailAt(k.core, 23));
  }

  /** From the protocol on: the version, the two line ends and the rest of the preface stop the parser with 23. */
  lemma PrefaceStops(env: Env, k: Config, major: byte, minor: byte, rest: seq<byte>)
    requires Ready(k) && k.core.node == L(ReqHttpStart) && k.core.index == 0 && k.core.line.verb == Number(PRI)
    requires IsDigit(major) && IsDigit(minor)
    ensures var r := Run(env, k, VersionText(HTTP, major, minor) + AfterVersion + rest);
            r.stop == 23 && r.trace == k.trace && r.pos == k.pos + 18
  {
    hide Run, Rank, Step, Eat, EatAll, Number, AfterVersion, DigitVal, IsDigit;
    PrefaceLength(major, minor);
    var version := VersionText(HTTP, major, minor);
    var k1 := To(k.core, L(LoadMethodHttp));
    var k2 := To(SetVersion(k1, DigitVal(major), DigitVal(minor)), L(PriUpgrade));
    EatProtocol(env.strict, k.core, HTTP, 0);
    assert Prefix(HTTP)[0..] == Prefix(HTTP);
    EatNumbers(env.strict, k1, PRI, HTTP, major, minor);
    EatSplit(env.strict, k.core, Prefix(HTTP), [major, '.', minor]);
    EatPreface(env.strict, k2, 0);
    assert AfterVersion[0..] == AfterVersion;
    EatSplit(env.strict, k.core, version, AfterVersion);
    RunEatAll(env, k, version + AfterVersion, rest);
    PrefaceEnds(env, Past(k, To(k2, L(PriDone)), 18), rest);
  }

  lemma PrefaceLength(major: byte, minor: byte)
    ensures AfterVersion != [] && |VersionText(HTTP, major, minor) + AfterVersion| == 18
  {
  }

  /** The preface of HTTP/2, with any target and any version, ends the parsing before any header. */
  lemma Http2Preface(env: Env, k: Config, target: Target, major: byte, minor: byte, rest: seq<byte>)
    requires Ready(k) && k.core.node == L(Start) && k.core.index == 0 && k.core.line.ty.Request?
    requires IsTarget(target, false) && IsDigit(major) && IsDigit(minor)
    ensures var last := VersionText(HTTP, major, minor) + AfterVersion + rest;
            var line := PriWord + (TargetText(target) + ([SP] + last));
            var r := Run(env, k, line);
            r.stop == 23 && r.trace == k.trace + RequestEvents(target)
  {
    hide Run, IsTarget, TargetText, VersionText, IsDigit, AfterVersion;
    var url, last := TargetText(target), VersionText(HTTP, major, minor) + AfterVersion + rest;
    assert Spelling(PRI) + [SP] == PriWord && Number(PRI) == 34;
    ReadMethod(env, k, PRI, url + ([SP] + last));
    var core := k.core.(node := L(ReqSpaces), line := k.core.line.(finish := Unsafe, verb := 34));
    var k1 := Emitted(k, core, [MessageBegin], 4);
    ReadTarget(env, k1, target, last);
    var k2 := Emitted(k1, To(core, L(ReqHttpStart)), [Span(Url, url), UrlComplete], |url| + 1);
    PrefaceStops(env, k2, major, minor, rest);
    assert k.trace + [MessageBegin] + [Span(Url, url), UrlComplete] == k.trace + RequestEvents(target);
  }

  // ---------------------------------------------------------------- requests and responses

  /** A parser for both looks at the first byte. */
  lemma EitherBegins(env: Env, k: Config, buf: seq<byte>)
    requires Ready(k) && k.core.node == L(Start) && k.core.line.ty.Both? && buf != [] && buf[0] != CR && buf[0] != LF
    ensures var core := k.core.(node := L(StartReqOrRes), line := k.core.line.(finish := Unsafe));
            Run(env, k, buf) == Run(env, Emitted(k, core, [MessageBegin], 0), buf)
  {
    hide Run, Rank, UrlStep, NameStep, ValueStep, BodyStep;
    var core := k.core.(line := k.core.line.(finish := Unsafe));
    Move(env, k, buf, To(core, L(OnMessageBegin)), false);
    Notified(env, Past(k, To(core, L(OnMessageBegin)), 0), buf, MessageBegin, To(core, L(LoadType)), Some(16));
    Move(env, Emitted(k, To(core, L(LoadType)), [MessageBegin], 0), buf, To(core, L(StartReqOrRes)), false);
  }

  lemma OnlyHeadHasH(m: HttpMethod)
    ensures Spelling(m) != [] && IsAlpha(Spelling(m)[0]) && (Spelling(m)[0] == 'H' <==> m == HEAD)
  {
  }

  lemma EatHead(strict: bool, k: Core)
    requires k.node == L(StartReqOrRes) && k.index == 0
    ensures EatAll(strict, k, "HEAD") == Some(k.(node := L(ReqFirstSpace), line := k.line.(ty := Request, verb := 2)))
  {
    hide UrlStep, NameStep, ValueStep, BodyStep;
    var k1, k2 := To(k, L(ReqOrResMethod1)), To(k, L(ReqOrResMethod2));
    var end := k.(node := L(ReqFirstSpace), line := k.line.(ty := Request, verb := 2));
    assert Step(strict, k, Some('H')) == Go(To(k, L(ReqOrResMethod)), false);
    assert Step(strict, To(k, L(ReqOrResMethod)), Some('H')) == Go(k1, true);
    assert Step(strict, k1, Some('E')) == Go(k2, true);
    assert Step(strict, k2, Some('A')) == Go(k2.(index := 1), true);
    assert Step(strict, k2.(index := 1), Some('D')) == Go(end, true);
    hide Step;
    EatFour(strict, k, "HEAD", k1, k2, k2.(index := 1), end);
  }

  lemma EatFour(strict: bool, k: Core, s: seq<byte>, k1: Core, k2: Core, k3: Core, k4: Core)
    requires |s| == 4 && Eat(strict, k, s[0]) == Some(k1) && Eat(strict, k1, s[1]) == Some(k2)
    requires Eat(strict, k2, s[2]) == Some(k3) && Eat(strict, k3, s[3]) == Some(k4)
    ensures EatAll(strict, k, s) == Some(k4)
  {
    hide Eat;
    assert s[3..][0] == s[3] && s[3..][1..] == [];
    assert EatAll(strict, k3, s[3..]) == Some(k4);
    assert s[2..][0] == s[2] && s[2..][1..] == s[3..];
    assert EatAll(strict, k2, s[2..]) == Some(k4);
    assert s[1..][0] == s[1] && s[1..][1..] == s[2..];
  }

  lemma EatTypePrefix(strict: bool, k: Core)
    requires k.node == L(StartReqOrRes) && k.index == 0
    ensures EatAll(strict, k, "HTTP/") == Some(k.(node := L(ResMajor), line := k.line.(ty := Response)))
  {
    hide UrlStep, NameStep, ValueStep, BodyStep;
    var k1, k2 := To(k, L(ReqOrResMethod1)), To(k, L(ReqOrResMethod3));
    var end := k.(node := L(ResMajor), line := k.line.(ty := Response));
    assert Step(strict, k, Some('H')) == Go(To(k, L(ReqOrResMethod)), false);
    assert Step(strict, To(k, L(ReqOrResMethod)), Some('H')) == Go(k1, true);
    assert Step(strict, k1, Some('T')) == Go(k2, true);
    assert Step(strict, k2, Some('T')) == Go(k2.(index := 1), true);
    assert Step(strict, k2.(index := 1), Some('P')) == Go(k2.(index := 2), true);
    assert Step(strict, k2.(index := 2), Some('/')) == Go(end, true);
    hide Step;
    EatFour(strict, k, "HTTP", k1, k2, k2.(index := 1), k2.(index := 2));
    assert Eat(strict, k2.(index := 2), '/') == Some(end);
    hide Eat;
    assert ['/'][1..] == [] && EatAll(strict, k2.(index := 2), ['/']) == Some(end);
    EatSplit(strict, k, "HTTP", ['/']);
    assert "HTTP" + ['/'] == "HTTP/";
  }

  lemma ReadHead(env: Env, k: Config, rest: seq<byte>)
    requires Ready(k) && k.core.node == L(StartReqOrRes) && k.core.index == 0
    ensures var text := Spelling(HEAD) + [SP];
            var next := k.core.(node := L(ReqSpaces), line := k.core.line.(ty := Request, verb := 2));
            Run(env, k, text + rest) == Run(env, Past(k, next, |text|), rest)
  {
    hide Run, Rank, Step, Eat, EatAll;
    var word := Spelling(HEAD);
    var named := k.core.(node := L(ReqFirstSpace), line := k.core.line.(ty := Request, verb := 2));
    assert word == "HEAD";
    EatHead(env.strict, k.core);
    EatSpace(env.strict, named, 2);
    EatSplit(env.strict, k.core, word, [SP]);
    EatOne(env.strict, named, SP);
    RunEatAll(env, k, word + [SP], rest);
  }

  lemma ReadOther(env: Env, k: Config, m: HttpMethod, rest: seq<byte>)
    requires Ready(k) && k.core.node == L(StartReqOrRes) && m != HEAD
    ensures var text := Spelling(m) + [SP];
            var next := k.core.(node := L(ReqSpaces), line := k.core.line.(ty := Request, verb := Number(m)));
            Run(env, k, text + rest) == Run(env, Past(k, next, |text|), rest)
  {
    OnlyHeadHasH(m);
    hide Run, Rank, Spelling, Number, UrlStep, NameStep, ValueStep, BodyStep;
    var buf := Spelling(m) + [SP] + rest;
    assert buf[0] == Spelling(m)[0];
    var next := k.core.(node := L(Method([])), line := k.core.line.(ty := Request));
    Move(env, k, buf, next, false);
    ReadWord(env, Past(k, next, 0), m, rest);
  }

  /** A parser for both takes any method for the beginning of a request. */
  lemma DetectRequest(env: Env, k: Config, m: HttpMethod, rest: seq<byte>)
    requires Ready(k) && k.core.node == L(Start) && k.core.index == 0 && k.core.line.ty.Both?
    ensures var text := Spelling(m) + [SP];
            var line := k.core.line.(ty := Request, finish := Unsafe, verb := Number(m));
            var next := k.core.(node := L(ReqSpaces), line := line);
            Run(env, k, text + rest) == Run(env, Emitted(k, next, [MessageBegin], |text|), rest)
  {
    OnlyHeadHasH(m);
    HeadIsTwo();
    hide Run, Spelling, Number;
    var buf := Spelling(m) + [SP] + rest;
    assert buf[0] == Spelling(m)[0];
    EitherBegins(env, k, buf);
    var k1 := Emitted(k, k.core.(node := L(StartReqOrRes), line := k.core.line.(finish := Unsafe)), [MessageBegin], 0);
    if m == HEAD { ReadHead(env, k1, rest); } else { ReadOther(env, k1, m, rest); }
  }

  lemma HeadIsTwo()
    ensures Number(HEAD) == 2
  {
  }

  lemma EatOne(strict: bool, k: Core, b: byte)
    ensures EatAll(strict, k, [b]) == Eat(strict, k, b)
  {
    hide Eat;
    assert [b][1..] == [];
  }

  /** And the name of the protocol for the beginning of a response. */
  lemma DetectResponse(env: Env, k: Config, rest: seq<byte>)
    requires Ready(k) && k.core.node == L(Start) && k.core.index == 0 && k.core.line.ty.Both?
    ensures var next := k.core.(node := L(ResMajor), line := k.core.line.(ty := Response, finish := Unsafe));
            Run(env, k, "HTTP/" + rest) == Run(env, Emitted(k, next, [MessageBegin], 5), rest)
  {
    hide Run, Rank, Step, Eat, EatAll;
    EitherBegins(env, k, "HTTP/" + rest);
    var core := k.core.(node := L(StartReqOrRes), line := k.core.line.(finish := Unsafe));
    EatTypePrefix(env.strict, core);
    RunEatAll(env, Emitted(k, core, [MessageBegin], 0), "HTTP/", rest);
  }
}
