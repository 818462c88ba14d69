/**
  The vocabulary of the HTTP parser: bytes and their classes, the parser's registers and the
  application-visible events (3rd/llhttp/llhttp.h).
*/
module Http {

  datatype Option<+T> = None | Some(value: T)

  /** One input byte, written as the character with that code. */
  type byte = c: char | c as int < 0x100 witness 'A'

  const CR: byte := '\r'
  const LF: byte := '\n'
  const HT: byte := '\t'
  const SP: byte := ' '
  const FF: byte := '\U{0C}'
  const DEL: byte := '\U{7F}'

  const MAX_U64: nat := 0xFFFF_FFFF_FFFF_FFFF
  const MAX_U16: nat := 0xFFFF

  // ---------------------------------------------------------------- byte classes

  predicate IsDigit(b: byte) { '0' <= b <= '9' }

  function DigitVal(b: byte): nat
    requires IsDigit(b)
  {
    b as int - '0' as int
  }

  predicate IsHex(b: byte) { IsDigit(b) || 'A' <= b <= 'F' || 'a' <= b <= 'f' }

  function HexVal(b: byte): nat
    requires IsHex(b)
  {
    if IsDigit(b) then DigitVal(b)
    else if b <= 'F' then b as int - 'A' as int + 10
    else b as int - 'a' as int + 10
  }

  predicate IsAlpha(b: byte) { 'A' <= b <= 'Z' || 'a' <= b <= 'z' }

  /** `*p >= 'A' && *p <= 'Z' ? *p | 0x20 : *p` */
  function Lower(b: byte): byte {
    if 'A' <= b <= 'Z' then (b as int + 32) as char else b
  }

  /** `*p | 0x20`: sets bit 5 of any byte. */
  function OrBit5(b: byte): byte {
    if (b as int / 32) % 2 == 0 then (b as int + 32) as char else b
  }

  function LowerAll(s: seq<byte>): (r: seq<byte>)
    ensures |r| == |s|
    ensures forall i :: 0 <= i < |s| ==> r[i] == Lower(s[i])
  {
    if s == [] then [] else [Lower(s[0])] + LowerAll(s[1..])
  }

  /** A byte the header-value tables accept. */
  predicate IsValueByte(b: byte) { b == HT || (SP <= b && b != DEL) }

  predicate IsTokenByte(b: byte) {
    || b == '!' || '#' <= b <= '\'' || b == '*' || b == '+' || b == '-' || b == '.'
    || IsDigit(b) || 'A' <= b <= 'Z' || '^' <= b <= 'z' || b == '|' || b == '~'
  }

  /** A byte the field-name table accepts: the loose table also has the space. */
  predicate IsFieldByte(strict: bool, b: byte) { IsTokenByte(b) || (!strict && b == SP) }

  predicate IsUrlPathByte(b: byte) {
    b == HT || b == FF || ('!' <= b && b != '#' && b != '?' && b != DEL)
  }

  predicate IsUrlQueryByte(b: byte) { b == HT || b == FF || ('!' <= b && b != '#' && b != DEL) }

  predicate IsUrlFragmentByte(b: byte) { b == HT || b == FF || ('!' <= b && b != DEL) }

  predicate IsUrlServerByte(b: byte) {
    || b == '!' || '$' <= b <= '.' || '0' <= b <= ';' || b == '=' || IsAlpha(b)
    || b == '[' || b == ']' || b == '_' || b == '~'
  }

  // ---------------------------------------------------------------- registers

  /** The bits of the 16-bit `flags` register. */
  datatype Flags = Flags(keepAlive: bool, close: bool, connUpgrade: bool, chunked: bool, upgrade: bool,
                         contentLength: bool, skipBody: bool, trailing: bool, transferEncoding: bool)

  const NoFlags := Flags(false, false, false, false, false, false, false, false, false)

  /** `header_state`, numbered 0 to 8 in the source. */
  datatype HeaderState = General | Connection | ContentLength | TransferEncoding | Upgrade
                       | ConnKeepAlive | ConnClose | ConnUpgrade | TeChunked

  datatype MsgType = Both | Request | Response

  datatype Finish = Safe | SafeWithCb | Unsafe

  datatype Lenient = Lenient(headers: bool, chunkedLength: bool, keepAlive: bool)

  /** The registers that describe the message as a whole. */
  datatype Line = Line(ty: MsgType, verb: nat, major: nat, minor: nat, status: nat, upgrade: bool,
                       finish: Finish, lenient: Lenient)

  const METHOD_CONNECT: nat := 5
  const METHOD_SOURCE: nat := 33
  const METHOD_PRI: nat := 34

  // ---------------------------------------------------------------- what the application sees

  datatype SpanKind = Url | Status | HeaderField | HeaderValue | Body

  datatype Event =
    | MessageBegin
    | UrlComplete
    | StatusComplete
    | HeaderFieldComplete
    | HeaderValueComplete
    | HeadersComplete
    | ChunkHeader(size: nat)
    | ChunkComplete
    | MessageComplete
    | Span(kind: SpanKind, data: seq<byte>)

  /** What the application's on_headers_complete may answer short of an error. */
  datatype HeadersAnswer = Proceed | SkipBody | SkipBodyAndUpgrade

  const HPE_STRICT: nat := 2
  const HPE_LF_EXPECTED: nat := 3
  const HPE_UNEXPECTED_CONTENT_LENGTH: nat := 4
  const HPE_INVALID_METHOD: nat := 6
  const HPE_INVALID_URL: nat := 7
  const HPE_INVALID_CONSTANT: nat := 8
  const HPE_INVALID_VERSION: nat := 9
  const HPE_INVALID_HEADER_TOKEN: nat := 10
  const HPE_INVALID_CONTENT_LENGTH: nat := 11
  const HPE_INVALID_CHUNK_SIZE: nat := 12
  const HPE_INVALID_STATUS: nat := 13
  const HPE_INVALID_EOF_STATE: nat := 14
  const HPE_INVALID_TRANSFER_ENCODING: nat := 15
  const HPE_CB_MESSAGE_BEGIN: nat := 16
  const HPE_CB_HEADERS_COMPLETE: nat := 17
  const HPE_CB_MESSAGE_COMPLETE: nat := 18
  const HPE_CB_CHUNK_HEADER: nat := 19
  const HPE_CB_CHUNK_COMPLETE: nat := 20
  const HPE_PAUSED: nat := 21
  const HPE_PAUSED_UPGRADE: nat := 22
  const HPE_PAUSED_H2_UPGRADE: nat := 23
  const HPE_USER: nat := 24
}
