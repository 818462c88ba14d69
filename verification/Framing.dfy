/**
  The message-framing decisions of 3rd/llhttp/http.c, over the registers.
*/
module Framing {
  import opened Http
  import opened Machine

  /** `llhttp__before_headers_complete`: the value given to `upgrade`. */
  function UpgradeFlag(k: Core): bool {
    if k.flags.upgrade && k.flags.connUpgrade then
      k.line.ty.Request? || k.line.status == 101
    else
      k.line.verb == METHOD_CONNECT
  }

  /** The six return values of `llhttp__after_headers_complete`, in order. */
  datatype BodyPlan = NoBody | LeaveProtocol | ChunkedBody | IdentityBody | UntilEof | BadTransferEncoding

  function AfterHeaders(k: Core): BodyPlan {
    var hasBody := k.flags.chunked || k.length > 0;
    if k.line.upgrade && (k.line.verb == METHOD_CONNECT || k.flags.skipBody || !hasBody) then LeaveProtocol
    else if k.flags.skipBody then NoBody
    else if k.flags.chunked then ChunkedBody
    else if k.flags.transferEncoding then
      if k.line.ty.Request? && !k.line.lenient.chunkedLength then BadTransferEncoding else UntilEof
    else if !k.flags.contentLength then
      if NeedsEof(k) then UntilEof else NoBody
    else if k.length == 0 then NoBody
    else IdentityBody
  }

  /** `llhttp_message_needs_eof` */
  predicate NeedsEof(k: Core) {
    if k.line.ty.Request? then false
    else if k.line.status / 100 == 1 || k.line.status == 204 || k.line.status == 304 || k.flags.skipBody then false
    else if k.flags.transferEncoding && !k.flags.chunked then true
    else if k.flags.chunked || k.flags.contentLength then false
    else true
  }

  /** `llhttp_should_keep_alive` */
  predicate ShouldKeepAlive(k: Core) {
    if k.line.major > 0 && k.line.minor > 0 then
      !k.flags.close && !NeedsEof(k)
    else
      k.flags.keepAlive && !NeedsEof(k)
  }

  // ---------------------------------------------------------------- against section 3.3.3 of RFC 7230

  /** How the section frames a message: no body, chunks, a length, the end of the connection, or not at all. */
  datatype Rule = Bodiless | ByChunks | ByLength | ByClose | Refused

  predicate BodilessStatus(status: nat) { status / 100 == 1 || status == 204 || status == 304 }

  /** Items 1 and 3 to 7 of the section, in its order; `skipBody` is how the application marks an answer to HEAD. */
  function RfcRule(k: Core): Rule {
    if k.flags.skipBody || (!k.line.ty.Request? && BodilessStatus(k.line.status)) then Bodiless
    else if k.flags.chunked then ByChunks
    else if k.flags.transferEncoding then if k.line.ty.Request? then Refused else ByClose
    else if k.flags.contentLength then ByLength
    else if k.line.ty.Request? then Bodiless
    else ByClose
  }

  predicate Follows(plan: BodyPlan, rule: Rule, length: nat) {
    match rule
    case Bodiless => plan.NoBody?
    case ByChunks => plan.ChunkedBody?
    case ByLength => if length == 0 then plan.NoBody? else plan.IdentityBody?
    case ByClose => plan.UntilEof?
    case Refused => plan.BadTransferEncoding?
  }

  /** A response that can have no body but announces one, and whose body the application does not skip. */
  predicate AnnouncesForbiddenBody(k: Core) {
    && !k.line.ty.Request? && BodilessStatus(k.line.status) && !k.flags.skipBody
    && (k.flags.chunked || k.flags.transferEncoding || (k.flags.contentLength && k.length > 0))
  }

  /** A request whose transfer coding does not end in chunked, read with the lenient flag for that. */
  predicate LenientCoding(k: Core) {
    && k.line.ty.Request? && k.line.lenient.chunkedLength && !k.flags.skipBody
    && k.flags.transferEncoding && !k.flags.chunked
  }

  /**
    Without an upgrade, `llhttp__after_headers_complete` frames a message as the section says in all but
    two cases: a 1xx, 204 or 304 response that announces a body is read as having it, and the lenient
    flag lets a request end with its connection.
  */
  lemma FramingFollowsRfc(k: Core)
    requires !k.line.upgrade
    ensures Follows(AfterHeaders(k), RfcRule(k), k.length) <==> !AnnouncesForbiddenBody(k) && !LenientCoding(k)
  {
  }

  /**
    A connection is kept open after a message that ends with it in exactly one case: a 1xx, 204 or 304
    response with a transfer coding that does not end in chunked.
  */
  lemma KeptAliveButEndless(k: Core)
    requires ShouldKeepAlive(k) && !k.line.upgrade && !k.line.lenient.chunkedLength
    ensures AfterHeaders(k).UntilEof? <==>
            AnnouncesForbiddenBody(k) && k.flags.transferEncoding && !k.flags.chunked
  {
  }
}
