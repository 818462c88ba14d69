/**
  The states of the generated parser and the shape of one transition
  (3rd/llhttp/llhttp.c:7947-8132).  A state of the C file that never becomes `_current` is kept only
  where a callback or a failure happens after a byte was consumed.
*/
module Machine {
  import opened Http

  /** The start line, apart from the URL. */
  datatype LineNode =
    | Start | OnMessageBegin | LoadType
    | StartReqOrRes | ReqOrResMethod | ReqOrResMethod1 | ReqOrResMethod2 | ReqOrResMethod3
      // the start_req trie: a trie node together with its match index is the prefix read so far
    | Method(prefix: seq<byte>)
    | ReqFirstSpace | ReqSpaces
    | ReqHttpStart | ReqHttpStart1 | ReqHttpStart2 | ReqHttpStart3 | LoadMethodHttp | LoadMethodIce | LoadMethodRtsp
    | ReqMajor | ReqDot | ReqMinor | ReqHttpComplete | ReqHttpComplete1 | PriUpgrade | PriDone
    | StartRes | ResMajor | ResDot | ResMinor | ResHttpEnd | ResStatusCode | ResStatusOverflow | ResStatusCodeOtherwise
    | ResStatusStart | SpanStartStatus | ResStatus | ResLineAlmostDone | OnStatusComplete

  /** The request target. */
  datatype UrlNode =
    | SpanStartUrlConnect | SpanStartUrl
    | UrlStart | UrlStubPath | UrlSchema | UrlEndSchema | UrlSchemaDelim | UrlSchemaDelim1
    | UrlServer | UrlServerWithAt | UrlPath | UrlQueryOrFragment | UrlQuery | UrlEndQuery | UrlFragment | UrlBad
    | UrlSkipToHttp09 | UrlSkipLfToHttp09 | OnUrlComplete09 | UrlSkipToHttp | OnUrlComplete

  /** A header field name; the same states read the trailers of a chunked body. */
  datatype NameNode =
    | FieldStart | SpanStartField | Field | Field1 | Field2 | Field3 | Field4 | Field5 | Field6 | Field7
    | FieldColon | FieldGeneral | FieldGeneralOtherwise | OnFieldComplete

  /** A header field value. */
  datatype ValueNode =
    | DiscardWs | DiscardWsAlmostDone | DiscardLws | SpanStartEmptyValue | SpanEndEmptyValue
    | SpanStartValue | LoadHeaderState | Value
    | Conn | Conn1 | Conn2 | Conn3 | ConnToken | ConnWs
    | Length | LengthWs | LengthOverflow | LengthOverflowError | LengthCharError
    | TeChunked0 | TeChunkedLast | TeToken | TeTokenOws
    | ValueOtherwise | ValueLenient | ValueAlmostDone | ValueLws | OnValueComplete

  /** From the end of the header section to the end of the message. */
  datatype BodyNode =
    | HeadersAlmostDone | TestFlags | OnHeadersComplete | AfterHeadersComplete
    | UpdateContentLength | ChunkSizeDigit | ChunkSize | ChunkSizeOverflow | ChunkSizeOtherwise | ChunkParameters
    | ChunkSizeAlmostDone | OnChunkHeader | IsEqualContentLength | SpanStartChunk | ConsumeChunk
    | ChunkDataAlmostDone | ChunkDataAlmostDoneSkip | OnChunkComplete | OnLastChunkComplete
    | SpanStartIdentity | ConsumeIdentity | SpanStartEof | Eof
    | OnMessageComplete | OnMessageComplete1 | OnMessageComplete2 | IsEqualUpgrade | PauseUpgrade
    | AfterMessageComplete | Closed

  datatype Node =
    | L(line: LineNode) | U(url: UrlNode) | N(name: NameNode) | V(value: ValueNode) | B(body: BodyNode) | Error

  /** `_current`, `_index`, `content_length`, `header_state`, `flags` and the message registers. */
  datatype Core = Core(node: Node, index: nat, length: nat, hs: HeaderState, flags: Flags, line: Line)

  function To(k: Core, n: Node): Core { k.(node := n) }

  /**
    One transition.  `take` says that the byte under the cursor is consumed.  Open, Close and Notify are
    the span and plain callbacks.  `fault` is the error a non-zero answer turns into; None marks the
    callbacks whose answer the generated code ignores.
  */
  datatype Act =
    | Wait
    | Go(next: Core, take: bool)
    | Open(kind: SpanKind, next: Core)
    | Close(next: Core, take: bool)
    | Notify(event: Event, next: Core, fault: Option<nat>)
    | AskHeaders(next: Core)
    | Fail(code: nat, next: Core)

  function Takes(a: Act): bool {
    (a.Go? || a.Close?) && a.take
  }

  function FailAt(k: Core, code: nat): Act { Fail(code, To(k, Error)) }

  // ---------------------------------------------------------------- sequence matchers

  datatype Fold = Exact | ToLower | ToLowerUnsafe

  function Apply(f: Fold, b: byte): byte {
    match f
    case Exact => b
    case ToLower => Lower(b)
    case ToLowerUnsafe => OrBit5(b)
  }

  /** A state that runs one of the three sequence matchers, and the sequence it looks for. */
  datatype Matcher = NoMatcher | Seq(fold: Fold, text: seq<byte>)

  function MatcherOf(n: Node): Matcher {
    match n
    case N(Field1) => Seq(ToLower, "on")
    case N(Field3) => Seq(ToLower, "ection")
    case N(Field4) => Seq(ToLower, "ent-length")
    case N(Field5) => Seq(ToLower, "roxy-connection")
    case N(Field6) => Seq(ToLower, "ransfer-encoding")
    case N(Field7) => Seq(ToLower, "pgrade")
    case V(Conn1) => Seq(ToLower, "lose")
    case V(Conn2) => Seq(ToLower, "eep-alive")
    case V(Conn3) => Seq(ToLower, "pgrade")
    case V(TeChunked0) => Seq(ToLowerUnsafe, "chunked")
    case L(ReqOrResMethod2) => Seq(Exact, "AD")
    case L(ReqOrResMethod3) => Seq(Exact, "TP/")
    case U(UrlSkipLfToHttp09) => Seq(Exact, "\r\n")
    case L(ReqHttpStart1) => Seq(Exact, "TTP/")
    case L(ReqHttpStart2) => Seq(Exact, "CE/")
    case L(ReqHttpStart3) => Seq(Exact, "TSP/")
    case L(PriUpgrade) => Seq(Exact, "\r\n\r\nSM\r\n\r\n")
    case L(StartRes) => Seq(Exact, "HTTP/")
    case _ => NoMatcher
  }

  /** One byte of a matcher: `hit` when the sequence is complete, `miss` on the first wrong byte. */
  function MatchByte(k: Core, b: byte, m: Matcher, hit: Core, miss: Act): Act
    requires m.Seq?
  {
    if k.index < |m.text| && Apply(m.fold, b) == m.text[k.index] then
      if k.index + 1 == |m.text| then Go(hit.(index := 0), true) else Go(k.(index := k.index + 1), true)
    else
      miss
  }
}
