/**
  Request targets through the URL states: paths with queries and fragments, absolute addresses, and the
  authorities of CONNECT.
*/
module Targets {
  import opened Http
  import opened Machine
  import opened Automaton
  import opened Semantics
  import opened Bodies
  import opened Fields

  /** What may follow a path. */
  datatype Tail = Tail(query: Option<seq<byte>>, fragment: Option<seq<byte>>)

  /** A path, an address with a scheme, or an authority alone. */
  datatype Target =
    | Origin(path: seq<byte>, tail: Tail)
    | Absolute(scheme: seq<byte>, authority: seq<byte>, path: seq<byte>, tail: Tail)
    | Authority(authority: seq<byte>, path: seq<byte>, tail: Tail)

  predicate IsPath(path: seq<byte>) { forall i :: 0 <= i < |path| ==> IsUrlPathByte(path[i]) }

  predicate IsTail(tail: Tail) {
    && (tail.query.Some? ==> forall i :: 0 <= i < |tail.query.value| ==> IsUrlQueryByte(tail.query.value[i]))
    && (tail.fragment.Some? ==>
          forall i :: 0 <= i < |tail.fragment.value| ==> IsUrlFragmentByte(tail.fragment.value[i]))
  }

  predicate IsScheme(s: seq<byte>) { s != [] && forall i :: 0 <= i < |s| ==> IsAlpha(s[i]) }

  /** The bytes of a server, and signs that set off a user, no two of them in a row. */
  predicate IsAuthority(s: seq<byte>) {
    && (forall i :: 0 <= i < |s| ==> IsUrlServerByte(s[i]) || s[i] == '@')
    && forall i :: 0 < i < |s| && s[i] == '@' ==> s[i - 1] != '@'
  }

  /** After an authority: a path from its slash on, or none; a fragment needs a path or a query before it. */
  predicate FollowsAuthority(path: seq<byte>, tail: Tail) {
    && (path != [] ==> path[0] == '/' && IsPath(path[1..])) && IsTail(tail)
    && (path == [] && tail.fragment.Some? ==> tail.query.Some?)
  }

  /** CONNECT has an authority, any other method a path or an address. */
  predicate IsTarget(t: Target, connect: bool) {
    match t
    case Origin(path, tail) =>
      !connect && path != [] && (path[0] == '/' || path[0] == '*') && IsPath(path[1..]) && IsTail(tail)
    case Absolute(scheme, authority, path, tail) =>
      !connect && IsScheme(scheme) && IsAuthority(authority) && FollowsAuthority(path, tail)
    case Authority(authority, path, tail) =>
      connect && IsAuthority(authority) && FollowsAuthority(path, tail) && TargetText(t) != []
  }

  function TailText(tail: Tail): seq<byte> {
    (if tail.query.Some? then ['?'] + tail.query.value else [])
      + (if tail.fragment.Some? then ['#'] + tail.fragment.value else [])
  }

  function TargetText(t: Target): seq<byte> {
    match t
    case Origin(path, tail) => path + TailText(tail)
    case Absolute(scheme, authority, path, tail) => scheme + [':', '/', '/'] + (authority + (path + TailText(tail)))
    case Authority(authority, path, tail) => authority + (path + TailText(tail))
  }

  // ---------------------------------------------------------------- bytes that stay in a state

  /** The four states that read on over bytes of their own. */
  predicate Stays(n: UrlNode, b: byte) {
    match n
    case UrlPath => IsUrlPathByte(b)
    case UrlQuery => IsUrlQueryByte(b)
    case UrlFragment => IsUrlFragmentByte(b)
    case UrlSchema => IsAlpha(b)
    case _ => false
  }

  lemma EatStays(strict: bool, k: Core, b: byte)
    requires k.node.U? && Stays(k.node.url, b)
    ensures Eat(strict, k, b) == Some(k)
  {
    hide LineStep, NameStep, ValueStep, BodyStep;
    assert Step(strict, k, Some(b)) == Go(k, true);
  }

  lemma {:induction false} EatAllStays(strict: bool, k: Core, s: seq<byte>)
    requires k.node.U? && forall i :: 0 <= i < |s| ==> Stays(k.node.url, s[i])
    ensures EatAll(strict, k, s) == Some(k)
    decreases |s|
  {
    if s != [] {
      EatStays(strict, k, s[0]);
      hide Eat, Stays;
      EatAllStays(strict, k, s[1..]);
    }
  }

  /** One byte that leads from a state to another. */
  lemma EatTo(strict: bool, k: Core, b: byte, next: UrlNode)
    requires match (k.node, b, next)
             case (U(UrlPath), '?', UrlQuery) => true
             case (U(UrlPath), '#', UrlFragment) => true
             case (U(UrlQuery), '#', UrlFragment) => true
             case (U(UrlServer), '?', UrlQuery) => true
             case (U(UrlServerWithAt), '?', UrlQuery) => true
             case (U(UrlSchema), ':', UrlSchemaDelim) => true
             case (U(UrlSchemaDelim), '/', UrlSchemaDelim1) => true
             case (U(UrlSchemaDelim1), '/', UrlServer) => true
             case _ => false
    ensures Eat(strict, k, b) == Some(To(k, U(next)))
  {
    hide LineStep, NameStep, ValueStep, BodyStep;
    if k.node == U(UrlPath) {
      assert Step(strict, k, Some(b)) == Go(To(k, U(UrlQueryOrFragment)), false);
      assert Step(strict, To(k, U(UrlQueryOrFragment)), Some(b)) == Go(To(k, U(next)), true);
    } else if k.node == U(UrlQuery) {
      assert Step(strict, k, Some(b)) == Go(To(k, U(UrlEndQuery)), false);
      assert Step(strict, To(k, U(UrlEndQuery)), Some(b)) == Go(To(k, U(next)), true);
    } else if k.node == U(UrlSchema) {
      assert Step(strict, k, Some(b)) == Go(To(k, U(UrlEndSchema)), false);
      assert Step(strict, To(k, U(UrlEndSchema)), Some(b)) == Go(To(k, U(next)), true);
    } else {
      assert Step(strict, k, Some(b)) == Go(To(k, U(next)), true);
    }
  }

  /** The first byte of a path. */
  lemma EatSlash(strict: bool, k: Core, b: byte)
    requires (k.node == U(UrlStart) && (b == '/' || b == '*'))
          || ((k.node == U(UrlServer) || k.node == U(UrlServerWithAt)) && b == '/')
    ensures Eat(strict, k, b) == Some(To(k, U(UrlPath)))
  {
    hide LineStep, NameStep, ValueStep, BodyStep;
    assert Step(strict, k, Some(b)) == Go(To(k, U(UrlStubPath)), false);
    assert Step(strict, To(k, U(UrlStubPath)), Some(b)) == Go(To(k, U(UrlPath)), true);
  }

  // ---------------------------------------------------------------- the parts of a target

  /** A byte and then more, from one state to the next. */
  lemma EatThen(strict: bool, k: Core, b: byte, s: seq<byte>, next: Core)
    requires Eat(strict, k, b) == Some(next)
    ensures EatAll(strict, k, [b] + s) == EatAll(strict, next, s)
  {
    assert ([b] + s)[1..] == s;
    hide Eat;
  }

  /** Where a target ends: at its fragment, its query, its path or its authority. */
  function TailNode(n: UrlNode, tail: Tail): UrlNode {
    if tail.fragment.Some? then UrlFragment else if tail.query.Some? then UrlQuery else n
  }

  lemma EatFragment(strict: bool, k: Core, fragment: seq<byte>)
    requires k.node == U(UrlPath) || k.node == U(UrlQuery)
    requires forall i :: 0 <= i < |fragment| ==> IsUrlFragmentByte(fragment[i])
    ensures EatAll(strict, k, ['#'] + fragment) == Some(To(k, U(UrlFragment)))
  {
    EatTo(strict, k, '#', UrlFragment);
    EatThen(strict, k, '#', fragment, To(k, U(UrlFragment)));
    EatAllStays(strict, To(k, U(UrlFragment)), fragment);
    hide Eat;
  }

  lemma EatQuery(strict: bool, k: Core, query: seq<byte>)
    requires k.node == U(UrlPath) || k.node == U(UrlServer) || k.node == U(UrlServerWithAt)
    requires forall i :: 0 <= i < |query| ==> IsUrlQueryByte(query[i])
    ensures EatAll(strict, k, ['?'] + query) == Some(To(k, U(UrlQuery)))
  {
    EatTo(strict, k, '?', UrlQuery);
    EatThen(strict, k, '?', query, To(k, U(UrlQuery)));
    EatAllStays(strict, To(k, U(UrlQuery)), query);
    hide Eat;
  }

  lemma EatTail(strict: bool, k: Core, tail: Tail)
    requires k.node == U(UrlPath) || k.node == U(UrlServer) || k.node == U(UrlServerWithAt)
    requires IsTail(tail) && (k.node != U(UrlPath) && tail.fragment.Some? ==> tail.query.Some?)
    ensures EatAll(strict, k, TailText(tail)) == Some(To(k, U(TailNode(k.node.url, tail))))
  {
    var query := if tail.query.Some? then ['?'] + tail.query.value else [];
    var fragment := if tail.fragment.Some? then ['#'] + tail.fragment.value else [];
    var m := if tail.query.Some? then To(k, U(UrlQuery)) else k;
    if tail.query.Some? { EatQuery(strict, k, tail.query.value); }
    assert EatAll(strict, k, query) == Some(m);
    if tail.fragment.Some? { EatFragment(strict, m, tail.fragment.value); }
    EatSplit(strict, k, query, fragment);
    hide Eat, EatAll;
  }

  /** A path and its tail. */
  lemma EatPath(strict: bool, k: Core, path: seq<byte>, tail: Tail)
    requires k.node == U(UrlPath) && IsPath(path) && IsTail(tail)
    ensures EatAll(strict, k, path + TailText(tail)) == Some(To(k, U(TailNode(UrlPath, tail))))
  {
    EatAllStays(strict, k, path);
    EatTail(strict, k, tail);
    EatSplit(strict, k, path, TailText(tail));
    hide Eat, EatAll, TailText;
  }

  lemma EatServerByte(strict: bool, k: Core, b: byte)
    requires k.node == U(UrlServer) || (k.node == U(UrlServerWithAt) && b != '@')
    requires IsUrlServerByte(b) || b == '@'
    ensures Eat(strict, k, b) == Some(To(k, U(if b == '@' then UrlServerWithAt else UrlServer)))
  {
    hide LineStep, NameStep, ValueStep, BodyStep;
    assert Step(strict, k, Some(b)) == Go(To(k, U(if b == '@' then UrlServerWithAt else UrlServer)), true);
  }

  function AuthorityNode(s: seq<byte>): UrlNode {
    if s != [] && s[|s| - 1] == '@' then UrlServerWithAt else UrlServer
  }

  lemma {:induction false} EatAuthority(strict: bool, k: Core, s: seq<byte>)
    requires k.node == U(UrlServer) && IsAuthority(s)
    ensures EatAll(strict, k, s) == Some(To(k, U(AuthorityNode(s))))
    decreases |s|
  {
    if s != [] {
      var front, b := s[..|s| - 1], s[|s| - 1];
      EatAuthority(strict, k, front);
      var m := To(k, U(AuthorityNode(front)));
      EatServerByte(strict, m, b);
      EatThen(strict, m, b, [], To(k, U(AuthorityNode(s))));
      EatSplit(strict, k, front, [b]);
      assert front + [b] == s && [b] + [] == [b];
      hide Eat, IsUrlServerByte;
    }
  }

  /** The state at the end of an authority and what follows it. */
  function AfterAuthority(authority: seq<byte>, path: seq<byte>, tail: Tail): UrlNode {
    TailNode(if path == [] then AuthorityNode(authority) else UrlPath, tail)
  }

  lemma EatAfterAuthority(strict: bool, k: Core, path: seq<byte>, tail: Tail)
    requires (k.node == U(UrlServer) || k.node == U(UrlServerWithAt)) && FollowsAuthority(path, tail)
    ensures EatAll(strict, k, path + TailText(tail))
         == Some(To(k, U(TailNode(if path == [] then k.node.url else UrlPath, tail))))
  {
    if path == [] {
      EatTail(strict, k, tail);
      assert path + TailText(tail) == TailText(tail);
    } else {
      EatSlash(strict, k, path[0]);
      EatPath(strict, To(k, U(UrlPath)), path[1..], tail);
      EatThen(strict, k, path[0], path[1..] + TailText(tail), To(k, U(UrlPath)));
      assert path + TailText(tail) == [path[0]] + (path[1..] + TailText(tail));
    }
    hide Eat, EatAll, TailText;
  }

  lemma EatWithAuthority(strict: bool, k: Core, authority: seq<byte>, path: seq<byte>, tail: Tail)
    requires k.node == U(UrlServer) && IsAuthority(authority) && FollowsAuthority(path, tail)
    ensures EatAll(strict, k, authority + (path + TailText(tail)))
         == Some(To(k, U(AfterAuthority(authority, path, tail))))
  {
    EatAuthority(strict, k, authority);
    EatAfterAuthority(strict, To(k, U(AuthorityNode(authority))), path, tail);
    EatSplit(strict, k, authority, path + TailText(tail));
    hide Eat, EatAll, TailText;
  }

  /** The first letter of a scheme. */
  lemma EatLetter(strict: bool, k: Core, b: byte)
    requires k.node == U(UrlStart) && IsAlpha(b)
    ensures Eat(strict, k, b) == Some(To(k, U(UrlSchema)))
  {
    hide LineStep, NameStep, ValueStep, BodyStep;
    assert Step(strict, k, Some(b)) == Go(To(k, U(UrlSchema)), false);
    assert Step(strict, To(k, U(UrlSchema)), Some(b)) == Go(To(k, U(UrlSchema)), true);
  }

  lemma EatScheme(strict: bool, k: Core, scheme: seq<byte>)
    requires k.node == U(UrlStart) && IsScheme(scheme)
    ensures EatAll(strict, k, scheme + [':', '/', '/']) == Some(To(k, U(UrlServer)))
  {
    var m := To(k, U(UrlSchema));
    EatLetter(strict, k, scheme[0]);
    EatAllStays(strict, m, scheme[1..]);
    EatThen(strict, k, scheme[0], scheme[1..], m);
    EatTo(strict, m, ':', UrlSchemaDelim);
    EatTo(strict, To(k, U(UrlSchemaDelim)), '/', UrlSchemaDelim1);
    EatTo(strict, To(k, U(UrlSchemaDelim1)), '/', UrlServer);
    EatThen(strict, m, ':', ['/', '/'], To(k, U(UrlSchemaDelim)));
    EatThen(strict, To(k, U(UrlSchemaDelim)), '/', ['/'], To(k, U(UrlSchemaDelim1)));
    EatThen(strict, To(k, U(UrlSchemaDelim1)), '/', [], To(k, U(UrlServer)));
    assert [scheme[0]] + scheme[1..] == scheme && [':'] + ['/', '/'] == [':', '/', '/'];
    assert ['/'] + ['/'] == ['/', '/'] && ['/'] + [] == ['/'];
    EatSplit(strict, k, scheme, [':', '/', '/']);
    hide Eat;
  }

  // ---------------------------------------------------------------- the whole target

  function StartNode(connect: bool): UrlNode { if connect then UrlServer else UrlStart }

  function EndNode(t: Target): UrlNode {
    match t
    case Origin(_, tail) => TailNode(UrlPath, tail)
    case Absolute(_, authority, path, tail) => AfterAuthority(authority, path, tail)
    case Authority(authority, path, tail) => AfterAuthority(authority, path, tail)
  }

  lemma EatTarget(strict: bool, k: Core, t: Target, connect: bool)
    requires k.node == U(StartNode(connect)) && IsTarget(t, connect)
    ensures EatAll(strict, k, TargetText(t)) == Some(To(k, U(EndNode(t))))
  {
    hide Eat, EatAll, TailText, IsTail, IsAuthority, FollowsAuthority, IsScheme, AfterAuthority, IsPath;
    match t
    case Origin(path, tail) =>
      EatSlash(strict, k, path[0]);
      EatPath(strict, To(k, U(UrlPath)), path[1..], tail);
      EatThen(strict, k, path[0], path[1..] + TailText(tail), To(k, U(UrlPath)));
      assert path + TailText(tail) == [path[0]] + (path[1..] + TailText(tail));
    case Absolute(scheme, authority, path, tail) =>
      EatScheme(strict, k, scheme);
      EatWithAuthority(strict, To(k, U(UrlServer)), authority, path, tail);
      EatSplit(strict, k, scheme + [':', '/', '/'], authority + (path + TailText(tail)));
    case Authority(authority, path, tail) => EatWithAuthority(strict, k, authority, path, tail);
  }

  /** The first byte of a target is no space, and so begins the URL. */
  lemma TargetBegins(t: Target, connect: bool)
    requires IsTarget(t, connect)
    ensures TargetText(t) != [] && TargetText(t)[0] != SP
  {
    var text := TargetText(t);
    match t
    case Origin(path, _) => assert text[0] == path[0];
    case Absolute(scheme, _, _, _) => assert text[0] == scheme[0];
    case Authority(authority, path, tail) =>
      if authority != [] {
        assert text[0] == authority[0];
      } else if path != [] {
        assert text[0] == path[0];
      } else {
        assert text == TailText(tail);
      }
  }

  lemma ReadTargetStart(env: Env, k: Config, buf: seq<byte>)
    requires Ready(k) && k.core.node == L(ReqSpaces) && buf != [] && buf[0] != SP
    ensures var node := U(StartNode(k.core.line.verb == METHOD_CONNECT));
            Run(env, k, buf) == Run(env, k.(core := To(k.core, node), span := Some(OpenSpan(Url, []))), buf)
  {
    hide Run, Rank, NameStep, ValueStep, BodyStep;
    var connect := k.core.line.verb == METHOD_CONNECT;
    var k1 := k.(core := To(k.core, U(if connect then SpanStartUrlConnect else SpanStartUrl)));
    RunOne(env, k, buf, Go(k1.core, false));
    RunOne(env, k1, buf, Open(Url, To(k.core, U(StartNode(connect)))));
  }

  /** The states a target can end in. */
  predicate EndsUrl(n: UrlNode) {
    n.UrlPath? || n.UrlQuery? || n.UrlFragment? || n.UrlServer? || n.UrlServerWithAt?
  }

  lemma CloseUrl(env: Env, k: Config, url: seq<byte>, buf: seq<byte>)
    requires k.stop == 0 && k.core.node.U? && EndsUrl(k.core.node.url) && k.span == Some(OpenSpan(Url, url))
    requires Head(buf) == Some(SP) || Head(buf) == Some(CR) || Head(buf) == Some(LF)
    ensures var node := if buf[0] == SP then UrlSkipToHttp
                        else if buf[0] == CR then UrlSkipLfToHttp09 else UrlSkipToHttp09;
            Run(env, k, buf)
              == Run(env, k.(core := To(k.core, U(node)), span := None, trace := k.trace + [Span(Url, url)]), buf)
  {
    hide Run, Rank, LineStep, NameStep, ValueStep, BodyStep;
    var node := if buf[0] == SP then UrlSkipToHttp else if buf[0] == CR then UrlSkipLfToHttp09 else UrlSkipToHttp09;
    var next := To(k.core, U(node));
    if k.core.node == U(UrlPath) {
      RunOne(env, k, buf, Go(To(k.core, U(UrlQueryOrFragment)), false));
      RunOne(env, k.(core := To(k.core, U(UrlQueryOrFragment))), buf, Close(next, false));
    } else {
      RunOne(env, k, buf, Close(next, false));
    }
  }

  lemma ReadTargetEnd(env: Env, k: Config, url: seq<byte>, rest: seq<byte>)
    requires k.stop == 0 && k.core.node.U? && EndsUrl(k.core.node.url) && k.span == Some(OpenSpan(Url, url))
    ensures Run(env, k, [SP] + rest)
         == Run(env, k.(core := To(k.core, L(ReqHttpStart)), span := None,
                        trace := k.trace + [Span(Url, url), UrlComplete], pos := k.pos + 1), rest)
  {
    hide Run, Rank, LineStep, NameStep, ValueStep, BodyStep;
    var buf := [SP] + rest;
    assert buf[1..] == rest;
    CloseUrl(env, k, url, buf);
    var k2 := k.(core := To(k.core, U(UrlSkipToHttp)), span := None, trace := k.trace + [Span(Url, url)]);
    RunOne(env, k2, buf, Go(To(k.core, U(OnUrlComplete)), true));
    var k3 := k2.(core := To(k.core, U(OnUrlComplete)), pos := k.pos + 1);
    RunOne(env, k3, rest, Notify(UrlComplete, To(k.core, L(ReqHttpStart)), None));
    assert k.trace + [Span(Url, url)] + [UrlComplete] == k.trace + [Span(Url, url), UrlComplete];
  }

  /** Where the parser is at the end of a target, the URL still open. */
  function AtTargetEnd(k: Config, t: Target): Config {
    k.(core := To(k.core, U(EndNode(t))), span := Some(OpenSpan(Url, TargetText(t))), pos := k.pos + |TargetText(t)|)
  }

  lemma ReadTargetText(env: Env, k: Config, t: Target, buf: seq<byte>)
    requires Ready(k) && k.core.node == L(ReqSpaces) && IsTarget(t, k.core.line.verb == METHOD_CONNECT)
    ensures Run(env, k, TargetText(t) + buf) == Run(env, AtTargetEnd(k, t), buf)
  {
    hide Run, Rank, Step, Eat, EatAll, IsTarget, TargetText, EndNode;
    var connect, url := k.core.line.verb == METHOD_CONNECT, TargetText(t);
    TargetBegins(t, connect);
    ReadTargetStart(env, k, url + buf);
    var core := To(k.core, U(StartNode(connect)));
    var k1 := k.(core := core, span := Some(OpenSpan(Url, [])));
    EatTarget(env.strict, core, t, connect);
    RunEatAll(env, k1, url, buf);
    assert Moved(k1, To(core, U(EndNode(t))), url) == AtTargetEnd(k, t) by { assert [] + url == url; }
  }

  /** Every target and the space after it: the target is reported as it stands. */
  lemma ReadTarget(env: Env, k: Config, t: Target, rest: seq<byte>)
    requires Ready(k) && k.core.node == L(ReqSpaces) && IsTarget(t, k.core.line.verb == METHOD_CONNECT)
    ensures var url := TargetText(t);
            var end := Emitted(k, To(k.core, L(ReqHttpStart)), [Span(Url, url), UrlComplete], |url| + 1);
            Run(env, k, url + ([SP] + rest)) == Run(env, end, rest)
  {
    hide Run, IsTarget, TargetText, EndNode;
    ReadTargetText(env, k, t, [SP] + rest);
    TargetEnds(t);
    ReadTargetEnd(env, AtTargetEnd(k, t), TargetText(t), rest);
  }

  /**
    Every target and the end of the line after it, as HTTP/0.9 has it: the target is reported, and header lines are
    expected next.
  */
  lemma ReadTarget09(env: Env, k: Config, t: Target, end: seq<byte>, rest: seq<byte>)
    requires Ready(k) && k.core.node == L(ReqSpaces) && k.core.index == 0
    requires IsTarget(t, k.core.line.verb == METHOD_CONNECT) && (end == [LF] || end == [CR, LF])
    ensures var url := TargetText(t);
            var core := k.core.(node := N(FieldStart), line := k.core.line.(major := 0, minor := 9));
            Run(env, k, url + (end + rest))
              == Run(env, Emitted(k, core, [Span(Url, url), UrlComplete], |url| + |end|), rest)
  {
    hide Run, IsTarget, TargetText, EndNode;
    ReadTargetText(env, k, t, end + rest);
    TargetEnds(t);
    ReadLineEnd09(env, AtTargetEnd(k, t), TargetText(t), end, rest);
  }

  lemma ReadLineEnd09(env: Env, k: Config, url: seq<byte>, end: seq<byte>, rest: seq<byte>)
    requires k.stop == 0 && k.core.node.U? && EndsUrl(k.core.node.url) && k.span == Some(OpenSpan(Url, url))
    requires k.core.index == 0 && (end == [LF] || end == [CR, LF])
    ensures var core := k.core.(node := N(FieldStart), line := k.core.line.(major := 0, minor := 9));
            Run(env, k, end + rest)
              == Run(env, k.(core := core, span := None, trace := k.trace + [Span(Url, url), UrlComplete],
                             pos := k.pos + |end|), rest)
  {
    hide Run, Step;
    CloseUrl(env, k, url, end + rest);
    var node := if end == [LF] then UrlSkipToHttp09 else UrlSkipLfToHttp09;
    var closed := k.(core := To(k.core, U(node)), span := None, trace := k.trace + [Span(Url, url)]);
    SkipLine09(env, closed, end, rest);
    var done := To(SetVersion(k.core, 0, 9), U(OnUrlComplete09));
    UrlTold09(env, Past(closed, done, |end|), rest);
    assert k.trace + [Span(Url, url)] + [UrlComplete] == k.trace + [Span(Url, url), UrlComplete];
  }

  lemma SkipLine09(env: Env, k: Config, end: seq<byte>, rest: seq<byte>)
    requires Ready(k) && k.core.index == 0
    requires (k.core.node == U(UrlSkipToHttp09) && end == [LF])
          || (k.core.node == U(UrlSkipLfToHttp09) && end == [CR, LF])
    ensures Run(env, k, end + rest)
         == Run(env, Past(k, To(SetVersion(k.core, 0, 9), U(OnUrlComplete09)), |end|), rest)
  {
    hide Run, Rank, LineStep, NameStep, ValueStep, BodyStep;
    var buf, done := end + rest, To(SetVersion(k.core, 0, 9), U(OnUrlComplete09));
    if end == [LF] {
      assert buf[1..] == rest;
      Move(env, k, buf, done, true);
    } else {
      assert buf[1..] == [LF] + rest && buf[1..][1..] == rest;
      var k1 := Past(k, k.core.(index := 1), 1);
      Move(env, k, buf, k1.core, true);
      Move(env, k1, buf[1..], done, true);
    }
  }

  lemma UrlTold09(env: Env, k: Config, rest: seq<byte>)
    requires Ready(k) && k.core.node == U(OnUrlComplete09)
    ensures Run(env, k, rest) == Run(env, Emitted(k, To(k.core, N(FieldStart)), [UrlComplete], 0), rest)
  {
    hide Run, Rank, LineStep, NameStep, ValueStep, BodyStep;
    Notified(env, k, rest, UrlComplete, To(k.core, N(FieldStart)), None);
  }

  lemma TargetEnds(t: Target)
    ensures EndsUrl(EndNode(t))
  {
  }

  // ---------------------------------------------------------------- which bytes, by their codes

  /** HT, FF and every byte above the space but DEL. */
  predicate Visible(code: int) { code == 9 || code == 12 || (33 <= code && code != 127) }

  /** The control bytes but HT, LF, FF and CR. */
  predicate Hidden(code: int) { code <= 8 || code == 11 || 14 <= code <= 31 || code == 127 }

  lemma Refused(env: Env, k: Config, b: byte)
    requires k.stop == 0 && Step(env.strict, k.core, Some(b)) == FailAt(k.core, 7)
    ensures Run(env, k, [b]).stop == 7
  {
    hide Step;
  }

  /** A path takes the visible bytes but '#' and '?', and hidden bytes are refused. */
  lemma PathBytes(env: Env, k: Config, b: byte)
    requires k.stop == 0 && k.core.node == U(UrlPath)
    ensures Eat(env.strict, k.core, b) == Some(k.core) <==> Visible(b as int) && b as int != 35 && b as int != 63
    ensures Hidden(b as int) ==> Run(env, k, [b]).stop == 7
  {
    hide Run, LineStep, NameStep, ValueStep, BodyStep;
    var k1 := k.(core := To(k.core, U(UrlQueryOrFragment)));
    if Hidden(b as int) {
      Refused(env, k1, b);
      RunOne(env, k, [b], Go(k1.core, false));
    } else if IsUrlPathByte(b) {
      assert Step(env.strict, k.core, Some(b)) == Go(k.core, true);
    } else {
      assert Step(env.strict, k.core, Some(b)) == Go(k1.core, false);
      var a := Step(env.strict, k1.core, Some(b));
      assert a.Go? ==> a.take && a.next != k.core;
    }
  }

  /** A query takes the visible bytes but '#'. */
  lemma QueryBytes(env: Env, k: Config, b: byte)
    requires k.stop == 0 && k.core.node == U(UrlQuery)
    ensures Visible(b as int) && b as int != 35 ==> Eat(env.strict, k.core, b) == Some(k.core)
    ensures b as int == 35 ==> Eat(env.strict, k.core, b) == Some(To(k.core, U(UrlFragment)))
    ensures Hidden(b as int) ==> Run(env, k, [b]).stop == 7
  {
    hide Run, LineStep, NameStep, ValueStep, BodyStep;
    if Hidden(b as int) { Refused(env, k, b); }
    if b == '#' { EatTo(env.strict, k.core, b, UrlFragment); }
  }

  /** A fragment takes all visible bytes. */
  lemma FragmentBytes(env: Env, k: Config, b: byte)
    requires k.stop == 0 && k.core.node == U(UrlFragment)
    ensures Visible(b as int) ==> Eat(env.strict, k.core, b) == Some(k.core)
    ensures Hidden(b as int) ==> Run(env, k, [b]).stop == 7
  {
    hide Run, LineStep, NameStep, ValueStep, BodyStep;
    if Hidden(b as int) { Refused(env, k, b); }
  }

  /** The letters, the digits and "!$%&'()*+,-.:;=[]_~" are the bytes of a server. */
  predicate InServer(code: int) {
    || code == 33 || 36 <= code <= 46 || 48 <= code <= 59 || code == 61 || 65 <= code <= 91 || code == 93 || code == 95
    || 97 <= code <= 122 || code == 126
  }

  /** A server takes these bytes and, once, a sign that sets off a user; it is ended by '/', '?' and the line. */
  lemma ServerBytes(env: Env, k: Config, b: byte)
    requires k.stop == 0 && (k.core.node == U(UrlServer) || k.core.node == U(UrlServerWithAt))
    ensures InServer(b as int) ==> Eat(env.strict, k.core, b) == Some(To(k.core, U(UrlServer)))
    ensures b as int == 64 && k.core.node == U(UrlServer) ==>
        Eat(env.strict, k.core, b) == Some(To(k.core, U(UrlServerWithAt)))
    ensures !InServer(b as int) && b as int !in {10, 13, 32, 47, 63, 64} ==> Run(env, k, [b]).stop == 7
    ensures b as int == 64 && k.core.node == U(UrlServerWithAt) ==> Run(env, k, [b]).stop == 7
  {
    hide Run, LineStep, NameStep, ValueStep, BodyStep;
    if !InServer(b as int) && b as int !in {10, 13, 32, 47, 63, 64} { Refused(env, k, b); }
    if b as int == 64 && k.core.node == U(UrlServerWithAt) { SecondSign(env, k); }
  }

  lemma SecondSign(env: Env, k: Config)
    requires k.stop == 0 && k.core.node == U(UrlServerWithAt)
    ensures Run(env, k, ['@']).stop == 7
  {
    hide Run, LineStep, NameStep, ValueStep, BodyStep;
    var k1 := Taken(k.(core := To(k.core, U(UrlBad))), '@');
    assert ['@'][1..] == [];
    RunOne(env, k, ['@'], Go(To(k.core, U(UrlBad)), true));
    RunOne(env, k1, [], FailAt(k1.core, 7));
  }

  lemma BadEnds(env: Env, k: Config, b: byte)
    requires k.stop == 0 && Step(env.strict, k.core, Some(b)) == Go(To(k.core, U(UrlBad)), true)
    ensures Run(env, k, [b]).stop == 7
  {
    hide Run, LineStep, NameStep, ValueStep, BodyStep;
    var k1 := Taken(k.(core := To(k.core, U(UrlBad))), b);
    assert [b][1..] == [];
    RunOne(env, k, [b], Go(To(k.core, U(UrlBad)), true));
    RunOne(env, k1, [], FailAt(k1.core, 7));
  }

  /**
    A target other than an authority begins with '*', '/' or a letter; letters go on to a colon and two slashes.
    Anything else is refused.
  */
  lemma BeginningBytes(env: Env, k: Config, b: byte)
    requires k.stop == 0
    ensures k.core.node == U(UrlStart) && !(b as int in {42, 47} || 65 <= b as int <= 90 || 97 <= b as int <= 122) ==>
              Run(env, k, [b]).stop == 7
    ensures k.core.node == U(UrlSchema) && !(b as int == 58 || 65 <= b as int <= 90 || 97 <= b as int <= 122) ==>
              Run(env, k, [b]).stop == 7
    ensures (k.core.node == U(UrlSchemaDelim) || k.core.node == U(UrlSchemaDelim1)) && b as int != 47 ==>
              Run(env, k, [b]).stop == 7
  {
    hide Run, LineStep, NameStep, ValueStep, BodyStep;
    var a := Step(env.strict, k.core, Some(b));
    if a == FailAt(k.core, 7) { Refused(env, k, b); }
    if a == Go(To(k.core, U(UrlBad)), true) { BadEnds(env, k, b); }
  }
}
