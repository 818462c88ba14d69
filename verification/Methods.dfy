/**
  The request methods and the protocols they belong to, with their spellings and numbers: 3rd/llhttp/llhttp.h:222-322.
*/
module Methods {
  import opened Http

  datatype HttpMethod =
    | DELETE | GET | HEAD | POST | PUT | CONNECT | OPTIONS | TRACE | COPY | LOCK | MKCOL | MOVE | PROPFIND
    | PROPPATCH | SEARCH | UNLOCK | BIND | REBIND | UNBIND | ACL | REPORT | MKACTIVITY | CHECKOUT | MERGE
    | MSEARCH | NOTIFY | SUBSCRIBE | UNSUBSCRIBE | PATCH | PURGE | MKCALENDAR | LINK | UNLINK | SOURCE | PRI
    | DESCRIBE | ANNOUNCE | SETUP | PLAY | PAUSE | TEARDOWN | GET_PARAMETER | SET_PARAMETER | REDIRECT | RECORD
    | FLUSH

  function Spelling(m: HttpMethod): seq<byte> {
    match m
    case DELETE => "DELETE" case GET => "GET" case HEAD => "HEAD" case POST => "POST" case PUT => "PUT"
    case CONNECT => "CONNECT" case OPTIONS => "OPTIONS" case TRACE => "TRACE" case COPY => "COPY"
    case LOCK => "LOCK" case MKCOL => "MKCOL" case MOVE => "MOVE" case PROPFIND => "PROPFIND"
    case PROPPATCH => "PROPPATCH" case SEARCH => "SEARCH" case UNLOCK => "UNLOCK" case BIND => "BIND"
    case REBIND => "REBIND" case UNBIND => "UNBIND" case ACL => "ACL" case REPORT => "REPORT"
    case MKACTIVITY => "MKACTIVITY" case CHECKOUT => "CHECKOUT" case MERGE => "MERGE" case MSEARCH => "M-SEARCH"
    case NOTIFY => "NOTIFY" case SUBSCRIBE => "SUBSCRIBE" case UNSUBSCRIBE => "UNSUBSCRIBE" case PATCH => "PATCH"
    case PURGE => "PURGE" case MKCALENDAR => "MKCALENDAR" case LINK => "LINK" case UNLINK => "UNLINK"
    case SOURCE => "SOURCE" case PRI => "PRI" case DESCRIBE => "DESCRIBE" case ANNOUNCE => "ANNOUNCE"
    case SETUP => "SETUP" case PLAY => "PLAY" case PAUSE => "PAUSE" case TEARDOWN => "TEARDOWN"
    case GET_PARAMETER => "GET_PARAMETER" case SET_PARAMETER => "SET_PARAMETER" case REDIRECT => "REDIRECT"
    case RECORD => "RECORD" case FLUSH => "FLUSH"
  }

  /** The number the parser stores, and the application reads. */
  function Number(m: HttpMethod): nat {
    match m
    case DELETE => 0 case GET => 1 case HEAD => 2 case POST => 3 case PUT => 4 case CONNECT => 5 case OPTIONS => 6
    case TRACE => 7 case COPY => 8 case LOCK => 9 case MKCOL => 10 case MOVE => 11 case PROPFIND => 12
    case PROPPATCH => 13 case SEARCH => 14 case UNLOCK => 15 case BIND => 16 case REBIND => 17 case UNBIND => 18
    case ACL => 19 case REPORT => 20 case MKACTIVITY => 21 case CHECKOUT => 22 case MERGE => 23 case MSEARCH => 24
    case NOTIFY => 25 case SUBSCRIBE => 26 case UNSUBSCRIBE => 27 case PATCH => 28 case PURGE => 29
    case MKCALENDAR => 30 case LINK => 31 case UNLINK => 32 case SOURCE => 33 case PRI => 34 case DESCRIBE => 35
    case ANNOUNCE => 36 case SETUP => 37 case PLAY => 38 case PAUSE => 39 case TEARDOWN => 40
    case GET_PARAMETER => 41 case SET_PARAMETER => 42 case REDIRECT => 43 case RECORD => 44 case FLUSH => 45
  }

  datatype Protocol = HTTP | ICE | RTSP

  /** What stands before the version. */
  function Prefix(p: Protocol): seq<byte> {
    match p case HTTP => "HTTP/" case ICE => "ICE/" case RTSP => "RTSP/"
  }

  predicate IsRtspOnly(m: HttpMethod) {
    || m.DESCRIBE? || m.ANNOUNCE? || m.SETUP? || m.PLAY? || m.PAUSE? || m.TEARDOWN? || m.GET_PARAMETER?
    || m.SET_PARAMETER? || m.REDIRECT? || m.RECORD? || m.FLUSH?
  }

  /** Whether a request line of this protocol may have this method. */
  predicate Speaks(p: Protocol, m: HttpMethod) {
    match p
    case HTTP => !IsRtspOnly(m)
    case ICE => m.SOURCE?
    case RTSP => m.GET? || m.POST? || m.OPTIONS? || IsRtspOnly(m)
  }
}
