/**
  The transition table of the parser: `llhttp__internal__run` (3rd/llhttp/llhttp.c:8611-14913) one
  state at a time.  `c` is the byte under the cursor, None when the cursor is at the end of the buffer.
*/
module Automaton {
  import opened Http
  import opened Machine
  import opened Framing
  import opened Numbers

  /** How the parser is compiled and driven: LLHTTP_STRICT_MODE and the application's on_headers_complete. */
  datatype Env = Env(strict: bool, answer: seq<Event> -> HeadersAnswer)

  function Step(strict: bool, k: Core, c: Option<byte>): Act {
    match k.node
    case L(n) => LineStep(k, n, c)
    case U(n) => UrlStep(k, n, c)
    case N(n) => NameStep(strict, k, n, c)
    case V(n) => ValueStep(strict, k, n, c)
    case B(n) => BodyStep(strict, k, n, c)
    case Error => Wait
  }

  // ================================================================ start line (lines 10082-13126)

  const METHODS: nat := 46

  /** The names of the start_req trie, by their codes. */
  function MethodName(code: nat): seq<byte>
    requires code < METHODS
  {
    match code
    case 0 => "DELETE" case 1 => "GET" case 2 => "HEAD" case 3 => "POST" case 4 => "PUT" case 5 => "CONNECT"
    case 6 => "OPTIONS" case 7 => "TRACE" case 8 => "COPY" case 9 => "LOCK" case 10 => "MKCOL" case 11 => "MOVE"
    case 12 => "PROPFIND" case 13 => "PROPPATCH" case 14 => "SEARCH" case 15 => "UNLOCK" case 16 => "BIND"
    case 17 => "REBIND" case 18 => "UNBIND" case 19 => "ACL" case 20 => "REPORT" case 21 => "MKACTIVITY"
    case 22 => "CHECKOUT" case 23 => "MERGE" case 24 => "M-SEARCH" case 25 => "NOTIFY" case 26 => "SUBSCRIBE"
    case 27 => "UNSUBSCRIBE" case 28 => "PATCH" case 29 => "PURGE" case 30 => "MKCALENDAR" case 31 => "LINK"
    case 32 => "UNLINK" case 33 => "SOURCE" case 34 => "PRI" case 35 => "DESCRIBE" case 36 => "ANNOUNCE"
    case 37 => "SETUP" case 38 => "PLAY" case 39 => "PAUSE" case 40 => "TEARDOWN" case 41 => "GET_PARAMETER"
    case 42 => "SET_PARAMETER" case 43 => "REDIRECT" case 44 => "RECORD" case _ => "FLUSH"
  }

  predicate IsMethodPrefix(p: seq<byte>) {
    exists i :: 0 <= i < METHODS && p <= MethodName(i)
  }

  /** The code of the method called `p`, METHODS if there is none. */
  function MethodCode(p: seq<byte>, i: nat := 0): nat
    requires i <= METHODS
    decreases METHODS - i
  {
    if i == METHODS || MethodName(i) == p then i else MethodCode(p, i + 1)
  }

  /** A name is complete with its last byte, except GET, which waits for the '_' of GET_PARAMETER. */
  function MethodByte(k: Core, prefix: seq<byte>, b: byte): Act {
    if prefix == "GET" && b != '_' then
      Go(To(k.(line := k.line.(verb := 1)), L(ReqFirstSpace)), false)
    else if prefix + [b] != "GET" && MethodCode(prefix + [b]) < METHODS then
      Go(To(k.(line := k.line.(verb := MethodCode(prefix + [b]))), L(ReqFirstSpace)), true)
    else if IsMethodPrefix(prefix + [b]) then
      Go(To(k, L(Method(prefix + [b]))), true)
    else
      FailAt(k, HPE_INVALID_METHOD)
  }

  predicate IsRtspMethod(m: nat) { m == 1 || m == 3 || m == 6 || 35 <= m <= 45 }

  /** The end of a URL at `b`, a LF, CR or space. */
  function EndUrl(k: Core, b: byte): Act
  {
    Close(To(k, U(if b == LF then UrlSkipToHttp09 else if b == CR then UrlSkipLfToHttp09 else UrlSkipToHttp)), false)
  }

  function ServerByte(k: Core, b: byte, at: UrlNode): Act {
    if b == LF || b == CR || b == SP then EndUrl(k, b)
    else if IsUrlServerByte(b) then Go(To(k, U(UrlServer)), true)
    else if b == '/' then Go(To(k, U(UrlStubPath)), false)
    else if b == '?' then Go(To(k, U(UrlQuery)), true)
    else if b == '@' then Go(To(k, U(at)), true)
    else FailAt(k, HPE_INVALID_URL)
  }

  function SetVersion(k: Core, major: nat, minor: nat): Core {
    k.(line := k.line.(major := major, minor := minor))
  }

  function LineStep(k: Core, n: LineNode, c: Option<byte>): Act {
    match n
    case OnMessageBegin => Notify(MessageBegin, To(k, L(LoadType)), Some(HPE_CB_MESSAGE_BEGIN))
    case LoadType =>
      var next := match k.line.ty case Request => Method([]) case Response => StartRes case Both => StartReqOrRes;
      Go(To(k, L(next)), false)
    case LoadMethodHttp =>
      if k.line.verb <= 34 then Go(To(k, L(ReqMajor)), false) else FailAt(k, HPE_INVALID_CONSTANT)
    case LoadMethodIce =>
      if k.line.verb == METHOD_SOURCE then Go(To(k, L(ReqMajor)), false) else FailAt(k, HPE_INVALID_CONSTANT)
    case LoadMethodRtsp =>
      if IsRtspMethod(k.line.verb) then Go(To(k, L(ReqMajor)), false) else FailAt(k, HPE_INVALID_CONSTANT)
    case PriDone => FailAt(k, HPE_PAUSED_H2_UPGRADE)
    case ResStatusOverflow => FailAt(k, HPE_INVALID_STATUS)
    case OnStatusComplete => Notify(StatusComplete, To(k, N(FieldStart)), None)
    case _ => if c.None? then Wait else LineByte(k, n, c.value)
  }

  /** The start-line states that wait for a byte whatever the registers hold. */
  predicate LineReads(n: LineNode) {
    !(n.OnMessageBegin? || n.LoadType? || n.LoadMethodHttp? || n.LoadMethodIce? || n.LoadMethodRtsp? || n.PriDone?
      || n.ResStatusOverflow? || n.OnStatusComplete?)
  }

  function LineByte(k: Core, n: LineNode, b: byte): Act {
    match n
    case Start =>
      if b == LF || b == CR then Go(k, true)
      else Go(To(k.(line := k.line.(finish := Unsafe)), L(OnMessageBegin)), false)
    case StartReqOrRes =>
      if b == 'H' then Go(To(k, L(ReqOrResMethod)), false)
      else Go(To(k.(line := k.line.(ty := Request)), L(Method([]))), false)
    case ReqOrResMethod =>
      if b == 'H' then Go(To(k, L(ReqOrResMethod1)), true) else FailAt(k, HPE_INVALID_CONSTANT)
    case ReqOrResMethod1 =>
      if b == 'E' then Go(To(k, L(ReqOrResMethod2)), true)
      else if b == 'T' then Go(To(k, L(ReqOrResMethod3)), true)
      else FailAt(k, HPE_INVALID_CONSTANT)
    case ReqOrResMethod2 =>
      MatchByte(k, b, MatcherOf(L(n)), To(k.(line := k.line.(verb := 2, ty := Request)), L(ReqFirstSpace)),
                FailAt(k.(index := 0), HPE_INVALID_CONSTANT))
    case ReqOrResMethod3 =>
      MatchByte(k, b, MatcherOf(L(n)), To(k.(line := k.line.(ty := Response)), L(ResMajor)),
                FailAt(k.(index := 0), HPE_INVALID_CONSTANT))
    case Method(prefix) => MethodByte(k, prefix, b)
    case ReqFirstSpace =>
      if b == SP then Go(To(k, L(ReqSpaces)), true) else FailAt(k, HPE_INVALID_METHOD)
    case ReqSpaces =>
      if b == SP then Go(k, true)
      else Go(To(k, U(if k.line.verb == METHOD_CONNECT then SpanStartUrlConnect else SpanStartUrl)), false)
    case ReqHttpStart =>
      if b == SP then Go(k, true)
      else if b == 'H' then Go(To(k, L(ReqHttpStart1)), true)
      else if b == 'I' then Go(To(k, L(ReqHttpStart2)), true)
      else if b == 'R' then Go(To(k, L(ReqHttpStart3)), true)
      else FailAt(k, HPE_INVALID_CONSTANT)
    case ReqHttpStart1 =>
      MatchByte(k, b, MatcherOf(L(n)), To(k, L(LoadMethodHttp)), FailAt(k.(index := 0), HPE_INVALID_CONSTANT))
    case ReqHttpStart2 =>
      MatchByte(k, b, MatcherOf(L(n)), To(k, L(LoadMethodIce)), FailAt(k.(index := 0), HPE_INVALID_CONSTANT))
    case ReqHttpStart3 =>
      MatchByte(k, b, MatcherOf(L(n)), To(k, L(LoadMethodRtsp)), FailAt(k.(index := 0), HPE_INVALID_CONSTANT))
    case ReqMajor =>
      if IsDigit(b) then Go(To(SetVersion(k, DigitVal(b), k.line.minor), L(ReqDot)), true)
      else FailAt(k, HPE_INVALID_VERSION)
    case ReqDot =>
      if b == '.' then Go(To(k, L(ReqMinor)), true) else FailAt(k, HPE_INVALID_VERSION)
    case ReqMinor =>
      if IsDigit(b) then
        Go(To(SetVersion(k, k.line.major, DigitVal(b)),
              L(if k.line.verb == METHOD_PRI then PriUpgrade else ReqHttpComplete)), true)
      else FailAt(k, HPE_INVALID_VERSION)
    case ReqHttpComplete =>
      if b == LF then Go(To(k, N(FieldStart)), true)
      else if b == CR then Go(To(k, L(ReqHttpComplete1)), true)
      else FailAt(k, HPE_INVALID_VERSION)
    case ReqHttpComplete1 =>
      if b == LF then Go(To(k, N(FieldStart)), true) else FailAt(k, HPE_INVALID_VERSION)
    case PriUpgrade =>
      MatchByte(k, b, MatcherOf(L(n)), To(k, L(PriDone)), FailAt(k.(index := 0), HPE_INVALID_VERSION))
    case StartRes =>
      MatchByte(k, b, MatcherOf(L(n)), To(k, L(ResMajor)), FailAt(k.(index := 0), HPE_INVALID_CONSTANT))
    case ResMajor =>
      if IsDigit(b) then Go(To(SetVersion(k, DigitVal(b), k.line.minor), L(ResDot)), true)
      else FailAt(k, HPE_INVALID_VERSION)
    case ResDot =>
      if b == '.' then Go(To(k, L(ResMinor)), true) else FailAt(k, HPE_INVALID_VERSION)
    case ResMinor =>
      if IsDigit(b) then Go(To(SetVersion(k, k.line.major, DigitVal(b)), L(ResHttpEnd)), true)
      else FailAt(k, HPE_INVALID_VERSION)
    case ResHttpEnd =>
      if b == SP then Go(To(k.(line := k.line.(status := 0)), L(ResStatusCode)), true)
      else FailAt(k, HPE_INVALID_VERSION)
    case ResStatusCode =>
      if IsDigit(b) then
        var s := MulAddStatus(k.line.status, DigitVal(b));
        Go(To(k.(line := k.line.(status := s.value)), L(if s.overflow then ResStatusOverflow else ResStatusCode)), true)
      else Go(To(k, L(ResStatusCodeOtherwise)), false)
    case ResStatusCodeOtherwise =>
      if b == LF || b == CR then Go(To(k, L(ResStatusStart)), false)
      else if b == SP then Go(To(k, L(ResStatusStart)), true)
      else FailAt(k, HPE_INVALID_STATUS)
    case ResStatusStart =>
      if b == LF then Go(To(k, L(OnStatusComplete)), true)
      else if b == CR then Go(To(k, L(ResLineAlmostDone)), true)
      else Go(To(k, L(SpanStartStatus)), false)
    case SpanStartStatus => Open(Status, To(k, L(ResStatus)))
    case ResStatus =>
      if b == LF then Close(To(k, L(OnStatusComplete)), true)
      else if b == CR then Close(To(k, L(ResLineAlmostDone)), true)
      else Go(k, true)
    case ResLineAlmostDone => Go(To(k, L(OnStatusComplete)), true)
    case _ => Wait
  }

  function UrlStep(k: Core, n: UrlNode, c: Option<byte>): Act {
    match n
    case UrlBad => FailAt(k, HPE_INVALID_URL)
    case OnUrlComplete09 => Notify(UrlComplete, To(k, N(FieldStart)), None)
    case OnUrlComplete => Notify(UrlComplete, To(k, L(ReqHttpStart)), None)
    case _ => if c.None? then Wait else UrlByte(k, n, c.value)
  }

  function UrlByte(k: Core, n: UrlNode, b: byte): Act {
    match n
    case SpanStartUrlConnect => Open(Url, To(k, U(UrlServer)))
    case SpanStartUrl => Open(Url, To(k, U(UrlStart)))
    case UrlStart =>
      if b == LF || b == CR || b == SP then Go(To(k, U(UrlBad)), true)
      else if b == '*' || b == '/' then Go(To(k, U(UrlStubPath)), false)
      else if IsAlpha(b) then Go(To(k, U(UrlSchema)), false)
      else FailAt(k, HPE_INVALID_URL)
    case UrlStubPath => Go(To(k, U(UrlPath)), true)
    case UrlSchema =>
      if b == LF || b == CR || b == SP then Go(To(k, U(UrlBad)), true)
      else if b == ':' then Go(To(k, U(UrlEndSchema)), false)
      else if IsAlpha(b) then Go(k, true)
      else FailAt(k, HPE_INVALID_URL)
    case UrlEndSchema => Go(To(k, U(UrlSchemaDelim)), true)
    case UrlSchemaDelim =>
      if b == LF || b == CR || b == SP then Go(To(k, U(UrlBad)), true)
      else if b == '/' then Go(To(k, U(UrlSchemaDelim1)), true)
      else FailAt(k, HPE_INVALID_URL)
    case UrlSchemaDelim1 =>
      if b == '/' then Go(To(k, U(UrlServer)), true) else FailAt(k, HPE_INVALID_URL)
    case UrlServer => ServerByte(k, b, UrlServerWithAt)
    case UrlServerWithAt => ServerByte(k, b, UrlBad)
    case UrlPath =>
      if IsUrlPathByte(b) then Go(k, true) else Go(To(k, U(UrlQueryOrFragment)), false)
    case UrlQueryOrFragment =>
      if b == LF || b == CR || b == SP then EndUrl(k, b)
      else if b == '#' then Go(To(k, U(UrlFragment)), true)
      else if b == '?' then Go(To(k, U(UrlQuery)), true)
      else FailAt(k, HPE_INVALID_URL)
    case UrlQuery =>
      if b == LF || b == CR || b == SP then EndUrl(k, b)
      else if b == '#' then Go(To(k, U(UrlEndQuery)), false)
      else if IsUrlQueryByte(b) then Go(k, true)
      else FailAt(k, HPE_INVALID_URL)
    case UrlEndQuery => Go(To(k, U(UrlFragment)), true)
    case UrlFragment =>
      if b == LF || b == CR || b == SP then EndUrl(k, b)
      else if IsUrlFragmentByte(b) then Go(k, true)
      else FailAt(k, HPE_INVALID_URL)
    case UrlSkipToHttp09 => Go(To(SetVersion(k, 0, 9), U(OnUrlComplete09)), true)
    case UrlSkipLfToHttp09 =>
      MatchByte(k, b, MatcherOf(U(n)), To(SetVersion(k, 0, 9), U(OnUrlComplete09)),
                FailAt(k.(index := 0), HPE_INVALID_URL))
    case UrlSkipToHttp => Go(To(k, U(OnUrlComplete)), true)
    case _ => Wait
  }

  // ================================================================ header section (lines 9137-10081)

  /** The field-name recognisers: `hit` stores the kind of header, a miss leaves a general one. */
  function NameHit(k: Core, hs: HeaderState): Core { To(k.(hs := hs), N(FieldColon)) }

  function NameMiss(k: Core): Act { Go(To(k.(index := 0, hs := General), N(FieldGeneral)), false) }

  /** load_header_state_1, _3 and _4: what a finished list element means for the flags. */
  function Settle(k: Core): Core {
    match k.hs
    case ConnKeepAlive => k.(flags := k.flags.(keepAlive := true), hs := Connection)
    case ConnClose => k.(flags := k.flags.(close := true), hs := Connection)
    case ConnUpgrade => k.(flags := k.flags.(connUpgrade := true), hs := Connection)
    case TeChunked => k.(flags := k.flags.(chunked := true))
    case _ => k
  }

  /** load_header_state_2: the automaton for the value of this header. */
  function ValueAutomaton(k: Core): Act {
    match k.hs
    case Connection => Go(To(k, V(Conn)), false)
    case ContentLength =>
      if k.flags.contentLength then FailAt(k, HPE_UNEXPECTED_CONTENT_LENGTH) else Go(To(k, V(Length)), false)
    case TransferEncoding =>
      Go(To(k.(flags := k.flags.(transferEncoding := true, chunked := false)), V(TeChunked0)), false)
    case Upgrade => Go(To(k.(flags := k.flags.(upgrade := true), hs := General), V(Value)), false)
    case _ => Go(To(k, V(Value)), false)
  }

  function NameStep(strict: bool, k: Core, n: NameNode, c: Option<byte>): Act {
    match n
    case OnFieldComplete => Notify(HeaderFieldComplete, To(k, V(DiscardWs)), None)
    case _ => if c.None? then Wait else NameByte(strict, k, n, c.value)
  }

  function NameByte(strict: bool, k: Core, n: NameNode, b: byte): Act {
    match n
    case FieldStart =>
      if b == LF then Go(To(k, B(HeadersAlmostDone)), false)
      else if b == CR then Go(To(k, B(HeadersAlmostDone)), true)
      else Go(To(k, N(SpanStartField)), false)
    case SpanStartField => Open(HeaderField, To(k, N(Field)))
    case Field =>
      var l := Lower(b);
      if l == 'c' then Go(To(k, N(Field1)), true)
      else if l == 'p' then Go(To(k, N(Field5)), true)
      else if l == 't' then Go(To(k, N(Field6)), true)
      else if l == 'u' then Go(To(k, N(Field7)), true)
      else NameMiss(k)
    case Field1 => MatchByte(k, b, MatcherOf(N(n)), To(k, N(Field2)), NameMiss(k))
    case Field2 =>
      var l := Lower(b);
      if l == 'n' then Go(To(k, N(Field3)), true)
      else if l == 't' then Go(To(k, N(Field4)), true)
      else NameMiss(k)
    case Field3 => MatchByte(k, b, MatcherOf(N(n)), NameHit(k, Connection), NameMiss(k))
    case Field4 => MatchByte(k, b, MatcherOf(N(n)), NameHit(k, ContentLength), NameMiss(k))
    case Field5 => MatchByte(k, b, MatcherOf(N(n)), NameHit(k, Connection), NameMiss(k))
    case Field6 => MatchByte(k, b, MatcherOf(N(n)), NameHit(k, TransferEncoding), NameMiss(k))
    case Field7 => MatchByte(k, b, MatcherOf(N(n)), NameHit(k, Upgrade), NameMiss(k))
    case FieldColon =>
      if b == SP then Go(k, true)
      else if b == ':' then Close(To(k, N(OnFieldComplete)), true)
      else Go(To(k.(hs := General), N(FieldGeneral)), false)
    case FieldGeneral =>
      if IsFieldByte(strict, b) then Go(k, true) else Go(To(k, N(FieldGeneralOtherwise)), false)
    case FieldGeneralOtherwise =>
      if b == ':' then Close(To(k, N(OnFieldComplete)), true) else FailAt(k, HPE_INVALID_HEADER_TOKEN)
    case _ => Wait
  }

  function ValueStep(strict: bool, k: Core, n: ValueNode, c: Option<byte>): Act {
    match n
    case SpanEndEmptyValue => Close(To(k, V(OnValueComplete)), false)
    case LoadHeaderState => ValueAutomaton(k)
    case LengthOverflow => Close(To(k, V(LengthOverflowError)), false)
    case LengthOverflowError => FailAt(k, HPE_INVALID_CONTENT_LENGTH)
    case LengthCharError => FailAt(k, HPE_INVALID_CONTENT_LENGTH)
    case OnValueComplete => Notify(HeaderValueComplete, To(k, N(FieldStart)), None)
    case _ => if c.None? then Wait else ValueByte(strict, k, n, c.value)
  }

  function ValueByte(strict: bool, k: Core, n: ValueNode, b: byte): Act {
    match n
    case DiscardWs =>
      if b == HT || b == SP then Go(k, true)
      else if b == LF then Go(To(k, V(DiscardLws)), true)
      else if b == CR then Go(To(k, V(DiscardWsAlmostDone)), true)
      else Go(To(k, V(SpanStartValue)), false)
    case DiscardWsAlmostDone =>
      if strict && b != LF then FailAt(k, HPE_STRICT) else Go(To(k, V(DiscardLws)), true)
    case DiscardLws =>
      if b == HT || b == SP then Go(To(k, V(DiscardWs)), true)
      else if k.hs == ContentLength then FailAt(k, HPE_INVALID_CONTENT_LENGTH)
      else Go(To(Settle(k), V(SpanStartEmptyValue)), false)
    case SpanStartEmptyValue => Open(HeaderValue, To(k, V(SpanEndEmptyValue)))
    case SpanStartValue => Open(HeaderValue, To(k, V(LoadHeaderState)))
    case Value =>
      if IsValueByte(b) then Go(k, true) else Go(To(k, V(ValueOtherwise)), false)
    case Length =>
      if IsDigit(b) then
        var s := MulAdd(10, k.length, DigitVal(b));
        Go(To(k.(length := s.value), V(if s.overflow then LengthOverflow else Length)), true)
      else Go(To(k, V(LengthWs)), false)
    case LengthWs =>
      if b == LF || b == CR then Go(To(k.(flags := k.flags.(contentLength := true)), V(ValueOtherwise)), false)
      else if b == SP then Go(k, true)
      else Close(To(k, V(LengthCharError)), false)
    case ValueOtherwise =>
      if b == LF then Close(To(k, V(ValueAlmostDone)), false)
      else if b == CR then Close(To(k, V(ValueAlmostDone)), true)
      else if k.line.lenient.headers then Go(To(k, V(ValueLenient)), false)
      else FailAt(k, HPE_INVALID_HEADER_TOKEN)
    case ValueLenient =>
      if b == LF then Close(To(k, V(ValueAlmostDone)), false)
      else if b == CR then Close(To(k, V(ValueAlmostDone)), true)
      else Go(k, true)
    case ValueAlmostDone =>
      if b == LF then Go(To(k, V(ValueLws)), true) else FailAt(k, HPE_LF_EXPECTED)
    case ValueLws =>
      if b == HT || b == SP then Go(To(k, V(SpanStartValue)), false)
      else Go(To(Settle(k), V(OnValueComplete)), false)
    case _ => ListByte(k, n, b)
  }

  /** The value states that wait for a byte whatever the registers hold. */
  predicate ValueReads(n: ValueNode) {
    !(n.SpanEndEmptyValue? || n.LoadHeaderState? || n.LengthOverflow? || n.LengthOverflowError? || n.LengthCharError?
      || n.OnValueComplete?)
  }

  predicate IsListNode(n: ValueNode) {
    || n.Conn? || n.Conn1? || n.Conn2? || n.Conn3? || n.ConnToken? || n.ConnWs?
    || n.TeChunked0? || n.TeChunkedLast? || n.TeToken? || n.TeTokenOws?
  }

  /** The comma-separated values of Connection and Transfer-Encoding. */
  function ListByte(k: Core, n: ValueNode, b: byte): Act {
    match n
    case Conn =>
      var l := Lower(b);
      if b == HT || b == SP then Go(k, true)
      else if l == 'c' then Go(To(k, V(Conn1)), true)
      else if l == 'k' then Go(To(k, V(Conn2)), true)
      else if l == 'u' then Go(To(k, V(Conn3)), true)
      else Go(To(k, V(ConnToken)), false)
    case Conn1 =>
      MatchByte(k, b, MatcherOf(V(n)), To(k.(hs := ConnClose), V(ConnWs)), Go(To(k.(index := 0), V(ConnToken)), false))
    case Conn2 =>
      MatchByte(k, b, MatcherOf(V(n)), To(k.(hs := ConnKeepAlive), V(ConnWs)),
                Go(To(k.(index := 0), V(ConnToken)), false))
    case Conn3 =>
      MatchByte(k, b, MatcherOf(V(n)), To(k.(hs := ConnUpgrade), V(ConnWs)),
                Go(To(k.(index := 0), V(ConnToken)), false))
    case ConnToken =>
      if b == ',' then Go(To(k, V(Conn)), true)
      else if IsValueByte(b) then Go(k, true)
      else Go(To(k, V(ValueOtherwise)), false)
    case ConnWs =>
      if b == LF || b == CR then Go(To(k, V(ValueOtherwise)), false)
      else if b == SP then Go(k, true)
      else if b == ',' then Go(To(Settle(k), V(Conn)), true)
      else Go(To(k.(hs := General), V(ConnToken)), false)
    case TeChunked0 =>
      MatchByte(k, b, MatcherOf(V(n)), To(k, V(TeChunkedLast)), Go(To(k.(index := 0), V(TeToken)), false))
    case TeChunkedLast =>
      if b == LF || b == CR then Go(To(k.(hs := TeChunked), V(ValueOtherwise)), false)
      else if b == SP then Go(k, true)
      else Go(To(k, V(TeChunked0)), false)
    case TeToken =>
      if b == ',' then Go(To(k, V(TeTokenOws)), true)
      else if IsValueByte(b) then Go(k, true)
      else Go(To(k.(hs := General), V(Value)), false)
    case TeTokenOws =>
      if b == HT || b == SP then Go(k, true) else Go(To(k, V(TeChunked0)), false)
    case _ => Wait
  }

  // ================================================================ body (lines 8619-9135, 13106-13534)

  /** A chunk-size digit; the overflow is reported after the digit was consumed. */
  function SizeDigit(k: Core, b: byte): Act
    requires IsHex(b)
  {
    var s := MulAdd(16, k.length, HexVal(b));
    Go(To(k.(length := s.value), B(if s.overflow then ChunkSizeOverflow else ChunkSize)), true)
  }

  /** `llhttp__after_message_complete` and the choice that follows it. */
  function Restart(k: Core): Core {
    To(k.(flags := NoFlags, line := k.line.(finish := Safe)),
       if ShouldKeepAlive(k) || k.line.lenient.keepAlive then L(Start) else B(Closed))
  }

  function Answered(k: Core, a: HeadersAnswer): Core {
    match a
    case Proceed => k
    case SkipBody => k.(flags := k.flags.(skipBody := true))
    case SkipBodyAndUpgrade => k.(flags := k.flags.(skipBody := true), line := k.line.(upgrade := true))
  }

  function Consume(k: Core, c: Option<byte>, done: BodyNode): Act {
    if k.length == 0 then Close(To(k, B(done)), false)
    else if c.None? then Wait
    else Go(k.(length := k.length - 1), true)
  }

  function BodyStep(strict: bool, k: Core, n: BodyNode, c: Option<byte>): Act {
    match n
    case TestFlags =>
      if k.flags.trailing then Go(To(k, B(OnLastChunkComplete)), false)
      else if k.flags.contentLength && k.flags.transferEncoding && !k.line.lenient.chunkedLength then
        FailAt(k, HPE_UNEXPECTED_CONTENT_LENGTH)
      else Go(To(k.(line := k.line.(upgrade := UpgradeFlag(k))), B(OnHeadersComplete)), false)
    case OnHeadersComplete => AskHeaders(To(k, B(AfterHeadersComplete)))
    case AfterHeadersComplete => (
      match AfterHeaders(k)
      case NoBody => Go(To(k, B(OnMessageComplete)), false)
      case LeaveProtocol => Go(To(k, B(OnMessageComplete1)), false)
      case ChunkedBody => Go(To(k, B(UpdateContentLength)), false)
      case IdentityBody => Go(To(k, B(SpanStartIdentity)), false)
      case UntilEof => Go(To(k.(line := k.line.(finish := SafeWithCb)), B(SpanStartEof)), false)
      case BadTransferEncoding => FailAt(k, HPE_INVALID_TRANSFER_ENCODING))
    case UpdateContentLength => Go(To(k.(length := 0), B(ChunkSizeDigit)), false)
    case ChunkSizeOverflow => FailAt(k, HPE_INVALID_CHUNK_SIZE)
    case OnChunkHeader => Notify(ChunkHeader(k.length), To(k, B(IsEqualContentLength)), Some(HPE_CB_CHUNK_HEADER))
    case IsEqualContentLength =>
      if k.length == 0 then Go(To(k.(flags := k.flags.(trailing := true)), N(FieldStart)), false)
      else Go(To(k, B(SpanStartChunk)), false)
    case ConsumeChunk => Consume(k, c, ChunkDataAlmostDone)
    case OnChunkComplete => Notify(ChunkComplete, To(k, B(UpdateContentLength)), Some(HPE_CB_CHUNK_COMPLETE))
    case OnLastChunkComplete => Notify(ChunkComplete, To(k, B(OnMessageComplete2)), Some(HPE_CB_CHUNK_COMPLETE))
    case ConsumeIdentity => Consume(k, c, OnMessageComplete2)
    case OnMessageComplete => Notify(MessageComplete, To(k, B(AfterMessageComplete)), Some(HPE_CB_MESSAGE_COMPLETE))
    case OnMessageComplete1 => Notify(MessageComplete, To(k, B(PauseUpgrade)), Some(HPE_CB_MESSAGE_COMPLETE))
    case OnMessageComplete2 => Notify(MessageComplete, To(k, B(IsEqualUpgrade)), Some(HPE_CB_MESSAGE_COMPLETE))
    case IsEqualUpgrade => Go(To(k, B(if k.line.upgrade then PauseUpgrade else AfterMessageComplete)), false)
    case PauseUpgrade => Fail(HPE_PAUSED_UPGRADE, To(k, B(AfterMessageComplete)))
    case AfterMessageComplete => Go(Restart(k), false)
    case _ => if c.None? then Wait else BodyByte(strict, k, n, c.value)
  }

  /** The body states that wait for a byte whatever the registers hold. */
  predicate BodyReads(n: BodyNode) {
    || n.HeadersAlmostDone? || n.ChunkSizeDigit? || n.ChunkSize? || n.ChunkSizeOtherwise? || n.ChunkParameters?
    || n.ChunkSizeAlmostDone? || n.SpanStartChunk? || n.ChunkDataAlmostDone? || n.ChunkDataAlmostDoneSkip?
    || n.SpanStartIdentity? || n.SpanStartEof? || n.Eof? || n.Closed?
  }

  function BodyByte(strict: bool, k: Core, n: BodyNode, b: byte): Act {
    match n
    case HeadersAlmostDone =>
      if strict && b != LF then FailAt(k, HPE_STRICT) else Go(To(k, B(TestFlags)), true)
    case ChunkSizeDigit => if IsHex(b) then SizeDigit(k, b) else FailAt(k, HPE_INVALID_CHUNK_SIZE)
    case ChunkSize => if IsHex(b) then SizeDigit(k, b) else Go(To(k, B(ChunkSizeOtherwise)), false)
    case ChunkSizeOtherwise =>
      if b == CR then Go(To(k, B(ChunkSizeAlmostDone)), true)
      else if b == SP || b == ';' then Go(To(k, B(ChunkParameters)), true)
      else FailAt(k, HPE_INVALID_CHUNK_SIZE)
    case ChunkParameters =>
      if b == CR then Go(To(k, B(ChunkSizeAlmostDone)), true) else Go(k, true)
    case ChunkSizeAlmostDone =>
      if strict && b != LF then FailAt(k, HPE_STRICT) else Go(To(k, B(OnChunkHeader)), true)
    case SpanStartChunk => Open(Body, To(k, B(ConsumeChunk)))
    case ChunkDataAlmostDone =>
      if strict then
        MatchByte(k, b, Seq(Exact, "\r\n"), To(k, B(OnChunkComplete)), FailAt(k.(index := 0), HPE_STRICT))
      else Go(To(k, B(ChunkDataAlmostDoneSkip)), true)
    case ChunkDataAlmostDoneSkip => Go(To(k, B(OnChunkComplete)), true)
    case SpanStartIdentity => Open(Body, To(k, B(ConsumeIdentity)))
    case SpanStartEof => Open(Body, To(k, B(Eof)))
    case Eof => Go(k, true)
    case Closed => Go(k, true)
    case _ => Wait
  }
}
