# HTTP parser, request queue, string map and form decoding

A Dafny model of the stateful code of this PHP extension and proofs about it:

* the resumable HTTP/1 parser (`3rd/llhttp`): the loose build's transition table, the parser object that
  runs it over buffers in place, the message-framing decisions, and pause, resume, reset and finish;
* the storage of pending PostgreSQL requests (`rustlib/src`) and the poll callbacks that drive them
  (`functions/db/db_async_override.c`);
* the string hash map (`functions/libs/strmap.c`);
* form decoding in place (`functions/http/request.c`) and the header printer (`functions/web/header.c`).

Check it with `dafny verify dfyconfig.toml --resource-limit 2000000`.

## How it is laid out

The parser is modelled twice.  `Automaton` is the table: `Step` gives, for a state, its registers and the
byte under the cursor, the one transition the generated C takes there (3rd/llhttp/llhttp.c:8619-14913; the
start line with all 46 methods, the URL, header fields, header values, body).  `Machine` has the states and
the three matchers' sequences, `Http` the byte classes of the lookup tables, `Numbers` the three bounded
accumulators (3rd/llhttp/llhttp.c:8284-8308, 8463-8487, 8562-8591), `Framing` the decisions of
3rd/llhttp/http.c:34-173.  `Semantics.Run` folds the table over a whole input; its events carry complete
spans.  `Parser.Parser` is the object of the C code: it works on one buffer at a time, keeps an open span
as a position in the buffer, matches, consumes and scans in bulk, and calls the application, which may
refuse or pause at any callback.  `RunStates` and `Execute` are proved to follow `Run`; everything else
about the parser is proved about `Run`.

Invariants and main results build on that: `Invariants` and `Grammar` (what every run keeps), `Lengths`, `Bodies`,
`Fields`, `Folding`, `Lists`, `Targets`, `StartLines` and `Headers` (what the parts of well-formed messages mean),
`Detection`, `Numerals` and `Edges` (what is taken and what is refused, against the spellings, numbers and byte codes
of `Methods` and `Digits`, which the table does not use), `Handover` and `Answers` (what the application's answer to
the headers does), `Messages` (whole messages), `Pipeline` and `Connections` (several on one connection), `Printer`
(the round trip of headers), `Finishing` (the end of the input), `Strict` (the strict build), `Simd` (the block scans).

`DbQueue` is the Rust storage, `PollProtocol` the callbacks as a protocol and as a class over that storage,
`PollOrder` what the protocol keeps, `PollRuns` what that means in terms of the events, `PollHistory` what the log of
a run tells, `PollHandlers` which callback serves which request.  A callback's inside is a list of further actions, so
submissions from callbacks and event loops run inside them, on any descriptor, are part of the runs.  Whether a push
onto a full deque moves it, and what lies at an address whose request has gone, are inputs.  `StringMap` and
`UrlDecoding` stand by themselves.

A function that only computes (the table, the decoders, the encoders) has no row below; the lemma or method
that states its property has.

## Where the code differs from what one would expect

* The application can tell where a buffer was cut in one case only: the parser fails inside a span that the
  cut had made it report in part (`Semantics.ReceivedSplit`, both directions).
* A 1xx, 204 or 304 response that announces a body is read as having one unless the application skips it
  (`Framing.FramingFollowsRfc`, both directions), and the connection may be kept open after one that ends
  only with it (`Framing.KeptAliveButEndless`).
* A transfer coding `chunkedchunked` counts as chunked (`Lists.ReadTransferEncoding`,
  `Lists.ChunkedMeansChunked`).
* content_length is not reset between messages.  Read with nothing left over, a message leaves the length it
  announces if its body is not read (skipped, or in another protocol), the length among its trailers if there
  is one, and 0 otherwise (`Messages.LeftBehind`, which `Messages.MessageFramed` proves of every message); so
  what a list of messages leaves is known beforehand (`Connections.ChainedMessages`).  A count left over joins
  the front of the next Content-Length (`Messages.StaleCount`, both directions) and keeps the next upgrade
  without a body from being handed over (`Messages.StaleUpgrade`, both directions);
  `Connections.CountSurvives` has two requests in which it happens.
* The strict build has no space in its field-name table and the loose one has: what the strict
  build accepts the loose one still accepts (`Strict.SpaceInName`, `Strict.StrictRefinesLoose`).
* The order of requests is lost exactly at a write while a request is outstanding or about to be, or a read
  while none is (`PollOrder.DoExactly`, `PollOrder.Protocol`).  As long as every mark is set in its own
  request, these are the re-entries of a running callback (`PollRuns.SteadyExactly`, and in terms of the events
  alone `PollRuns.ReentryWhileReading` and `PollRuns.ReentryWhileWriting`).
* Re-entry is not needed for it.  The callbacks keep the address of the oldest request while PHP code runs, and
  a push from that code can move a full deque: the mark is then lost (`PollRuns.MarkMisses`), and the next
  writable event sends the same request again (`PollRuns.LostMark`; from the tenth waiting request on,
  `PollRuns.TenWaiting`).
* A request can count as written, and be read back, although libpq never took it (`PollHistory.ReadUntaken`),
  and a descriptor that has drained is never polled again (`PollHistory.RunningHandles`).

## Model

| member | source | states |
|---|---|---|
| `Semantics.StepShape` | 3rd/llhttp/llhttp.c:8619-14913 | every state either waits for a byte, consumes one, moves to a state of lower rank, or fails with a non-zero code that is not a pause; the rank is the measure under which the goto graph is well founded |
| `Semantics.StepBlind` | 3rd/llhttp/llhttp.c:8619-14913 | at the end of a buffer a state either waits or does exactly what it would do whatever byte came next |
| `Semantics.RunSplit` | 3rd/llhttp/llhttp.c:14915-14947 | segmentation independence: for every state and every two byte strings, running on A and then on B is running once on A + B, in events, registers, error code and error position |
| `Semantics.RunConsumes` | 3rd/llhttp/llhttp.c:8619-14947 | every run ends, and one that ends without an error has consumed its whole input |
| `Semantics.ConsumeGlide` | 3rd/llhttp/llhttp.c:8700-8717 | body bytes can be consumed in bulk, any number up to those owed, with the result of consuming them one at a time |
| `Semantics.ReceivedSplit` | 3rd/llhttp/llhttp.c:14915-14947 | what the application has received after A and then B equals what it has received after A + B if and only if the parser does not fail inside a span the cut made it report in part |
| `Semantics.ReceivedAcrossCut` | 3rd/llhttp/llhttp.c:14915-14947 | so a cut that falls outside every span is never visible to the application, whatever follows it |
| `Semantics.CutSpanExample` | 3rd/llhttp/llhttp.c:10707-10761 | the exception arises: a URL cut one byte before a byte that is no URL byte |
| `Numbers.MulAddExact` | 3rd/llhttp/llhttp.c:8284-8308 | one accumulator step overflows exactly when the mathematical result needs more than 64 bits, and is exact otherwise |
| `Lengths.ReadLength` | 3rd/llhttp/llhttp.c:9467-9529 | over any digit string the Content-Length register becomes the decimal value shifted in after what it held, and the parser fails exactly when that exceeds 2^64 - 1 |
| `Lengths.ReadSize` | 3rd/llhttp/llhttp.c:8793-9038 | over any hexadecimal digit string the chunk size is the exact value, and the parser fails exactly when it exceeds 2^64 - 1 |
| `Lengths.ReadStatus` | 3rd/llhttp/llhttp.c:12743-12805 | a status code is accepted exactly up to 999, whatever its digits |
| `Invariants.StepKeeps` | 3rd/llhttp/llhttp.c:8619-14913 | every transition keeps the match index inside its sequence and the registers inside their C types, and opens and closes spans in alternation |
| `Invariants.RunKeeps` | 3rd/llhttp/llhttp.c:8619-14947 | in every reachable state the open span is the one that state calls for, no event is taken back, and an open span only grows |
| `Invariants.RunFromInput` | 3rd/llhttp/llhttp.c:14923-14943 | every span a run reports is a contiguous stretch of the consumed input, and the open span is the end of that input |
| `Simd.FirstOutside` | 3rd/llhttp/llhttp.c:7637-7678 | the block instruction yields the first byte outside every range |
| `Simd.ValueRanges` | 3rd/llhttp/llhttp.c:9574-9632 | the block ranges for header values accept exactly the bytes of the lookup table |
| `Simd.UrlPathRanges` | 3rd/llhttp/llhttp.c:10563-10621 | the block ranges for URL paths accept exactly the bytes of the lookup table |
| `Simd.FieldNameRanges` | 3rd/llhttp/llhttp.c:9761-9831 | the two block scans for field names together accept exactly the bytes of the lookup table, strict or loose |
| `Parser.Parser.constructor` | 3rd/llhttp/api.c:56-62 | llhttp_init gives the initial configuration of the reference semantics |
| `Parser.Parser.MatchSequence` | 3rd/llhttp/llhttp.c:7851-7945 | a sequence matcher stops at the first wrong byte, at the last byte of the sequence, or at the end of the buffer, and leaves the index that says which |
| `Parser.MatchGlide` | 3rd/llhttp/llhttp.c:7851-7945 | matching a stretch of bytes at once is stepping the table over each of them |
| `Parser.RangesAccept` | 3rd/llhttp/llhttp.c:7637-7678 | in each of the three scanned states the ranges accept exactly the bytes the table lets pass |
| `Parser.ScanGlide` | 3rd/llhttp/llhttp.c:9574-9632 | skipping a block of accepted bytes is stepping the table over each of them |
| `Parser.ScanStops` | 3rd/llhttp/llhttp.c:9574-9632 | at the first byte outside the ranges the table leaves the scanned state as the scan does |
| `Parser.Parser.StepConsume` | 3rd/llhttp/llhttp.c:9048-9065 | bulk consumption of min(owed, available) bytes follows the reference run |
| `Parser.Parser.StepMatcher` | 3rd/llhttp/llhttp.c:9343-9366 | a state that runs a matcher follows the reference run on a hit, a miss and a pause |
| `Parser.Parser.StepRanges` | 3rd/llhttp/llhttp.c:9574-9632 | the vectorised skip follows the reference run for every buffer of at least sixteen bytes |
| `Parser.Parser.Report` | 3rd/llhttp/api.c:289-294 | a span callback gets exactly the bytes since the span opened or the buffer began, and -1 becomes HPE_USER |
| `Parser.Parser.PerformClose` | 3rd/llhttp/llhttp.c:13692-13708 | a span callback's answer decides: 0 goes on, and anything else ends the call with that answer (24 for -1) after the next state has been stored, so that the parser can go on from there |
| `Parser.Parser.PerformNotify` | 3rd/llhttp/llhttp.c:13262-13291 | a plain callback's answer decides, where it counts: 0 goes on, 21 pauses with the next state stored, and anything else ends the call for good with the callback's own code; elsewhere it is ignored |
| `Parser.NotifyFaults` | 3rd/llhttp/llhttp.c:13195-13438 | the notifications whose answers count, and the codes of a refusal: message-begin 16, message-complete 18, chunk-header 19, chunk-complete 20; the answers to all others are ignored |
| `Parser.Parser.PerformAsk` | 3rd/llhttp/llhttp.c:13463-13496 | on_headers_complete answered 0 leaves the registers, 1 sets F_SKIPBODY, 2 sets it and the upgrade register; 21 pauses with the registers of the headers, and anything else ends the call for good with 17 |
| `Parser.Parser.RunStates` | 3rd/llhttp/llhttp.c:8619-14913 | the main loop, with matchers, bulk consumption and block scans, reaches what the reference run reaches, and terminates; it goes on as long as every callback lets it, and no further |
| `Parser.Parser.FlushSpan` | 3rd/llhttp/llhttp.c:14931-14943 | at the end of a buffer the open span's bytes are reported once, and the span stays open; an answer other than 0 is the error of the call (24 for -1) |
| `Parser.Parser.Execute` | 3rd/llhttp/llhttp.c:14915-14947 | an earlier error is returned and nothing else happens; success means that the whole buffer was consumed as the reference run consumes it and that every callback of the call let the parser go on; a failure is the automaton's own, related to the reference run, or that of the last callback's answer, all earlier ones having let it go on |
| `Parser.Parser.Pause` | 3rd/llhttp/api.c:185-193 | pausing changes nothing but the error, and only when there was none |
| `Parser.Parser.Resume` | 3rd/llhttp/api.c:195-202 | resuming clears a pause and nothing else |
| `Parser.Parser.ResumeAfterUpgrade` | 3rd/llhttp/api.c:204-211 | clears an upgrade pause and nothing else |
| `Parser.Parser.Reset` | 3rd/llhttp/api.c:135-148 | a reset parser is a new parser of the same type and leniency |
| `Parser.Parser.Finish` | 3rd/llhttp/api.c:160-182 | the three answers to the end of input, and the message-complete callback of a body delimited by it; the object stays valid |
| `Parser.Parser.SetLenientHeaders` | 3rd/llhttp/api.c:253-260 | changes one lenient flag and nothing else |
| `Parser.Parser.SetLenientChunkedLength` | 3rd/llhttp/api.c:262-269 | changes one lenient flag and nothing else |
| `Parser.Parser.SetLenientKeepAlive` | 3rd/llhttp/api.c:271-278 | changes one lenient flag and nothing else |
| `Parser.Drive` | 3rd/llhttp/api.c:150-202 | pause transparency: any cuts of the input and any set of pauses, each resumed from error_pos, give the events and the state of one uninterrupted reference run, or its error at the same byte |
| `Handover.PausesHonestly` | 3rd/llhttp/llhttp.c:13402-13534 | over any input: an application that never answers 2 is paused for an upgrade only if the method is CONNECT or both upgrade headers were read, in a request or a 101 response |
| `Answers.DriveWithoutAsking` | 3rd/llhttp/llhttp.c:13481-13496 | the same on the parser object, however the input is cut and wherever the application pauses |
| `Answers.ReadAnswered` | 3rd/llhttp/llhttp.c:13464-13534 | a new parser, the head of any request or response, and an application that always answers 1 or always 2: the message is complete at its last header byte; with 2 the parser stops for an upgrade, with 1 it does so exactly when the headers ask for one, and otherwise goes on without an error |
| `Grammar.RunGrammar` | 3rd/llhttp/llhttp.c:8619-14913 | every run produces well-formed events: body spans only between headers-complete and message-complete, a chunk's span as long as announced, chunk-header and chunk-complete alternating, and every state stands where its events say |
| `Grammar.UnsafeExactly` | 3rd/llhttp/llhttp.c:14905-14912 | `finish` is UNSAFE exactly inside an unfinished message that is not read until the end of input, or in the four states a paused callback can leave between messages |
| `Grammar.CompletedByEof` | 3rd/llhttp/llhttp.c:9077-9098 | `finish` is SAFE_WITH_CB exactly inside a body that is read until the end of input, and then a message is unfinished |
| `Grammar.RunRests` | 3rd/llhttp/llhttp.c:14915-14947 | a call without an error rests in a state that waits for a byte |
| `Grammar.FinishExactly` | 3rd/llhttp/api.c:160-182 | after any error-free input llhttp_finish reports an invalid end exactly when the events show an unfinished message that is not read until the end of input |
| `Finishing.ExecuteThenFinish` | 3rd/llhttp/api.c:150-182 | on the parser object: after a buffer without an error llhttp_finish answers HPE_INVALID_EOF_STATE exactly when the events show an unfinished message that is not read until the end of input, completes with one callback the one that is, and otherwise does nothing |
| `Bodies.ReadSpan` | 3rd/llhttp/llhttp.c:9048-9076 | a body of known length is one span of exactly that many bytes, whatever they are and whatever follows |
| `Bodies.ReadSizeLine` | 3rd/llhttp/llhttp.c:8740-9047 | a chunk-size line with any spelling of the size and any extension gives one chunk-header event with that size |
| `Numerals.ReadHexadecimal` | 3rd/llhttp/llhttp.c:8793-9038 | every number, written in hexadecimal with small or with capital letters, as the size of a chunk: below 2^64 it is announced, from there on refused with 12 |
| `Numerals.SizeRefused` | 3rd/llhttp/llhttp.c:8916-9038 | a size that begins with no hexadecimal digit is refused with 12 |
| `Numerals.SizeGoesOn` | 3rd/llhttp/llhttp.c:8766-8792 | and after its digits anything but CR, a space and a semicolon |
| `Bodies.ReadChunkData` | 3rd/llhttp/llhttp.c:8680-8739 | the data of a chunk is delivered as one span, then one chunk-complete, and the line end after it is consumed |
| `Bodies.ReadChunks` | 3rd/llhttp/llhttp.c:8680-9047 | every list of chunks is read back as exactly these chunks |
| `Bodies.ReadChunkedBody` | 3rd/llhttp/llhttp.c:8680-9047 | section 4.1 of RFC 7230: a chunked body delivers each chunk's header, data and completion, the last chunk's, and one message-complete, and consumes its encoding and nothing else |
| `Bodies.TrailersEnd` | 3rd/llhttp/llhttp.c:13202-13213 | the end of the trailer section completes the last chunk and then the message |
| `Bodies.FramedByChunks` | 3rd/llhttp/http.c:73-75 | a message whose final coding is chunked has exactly the decoded chunks as its body, and then the parser restarts or, for an upgrade, stops |
| `Bodies.FramedByLength` | 3rd/llhttp/http.c:107-113 | a message with Content-Length alone has exactly that many bytes as its body, whatever they are |
| `Bodies.FramedByNothing` | 3rd/llhttp/http.c:98-102 | a request, or a response that can have no body, with neither is empty and completes before the next byte |
| `Bodies.FramedByClose` | 3rd/llhttp/http.c:89-106 | a message that needs the end of input takes every byte as its body and is not complete before |
| `Bodies.LeftUnread` | 3rd/llhttp/http.c:60-72 | a body that is skipped, or would be in another protocol, is not read: the message completes before the next byte and its count stays behind |
| `Bodies.UpgradeStops` | 3rd/llhttp/llhttp.c:8646-8655 | a message that leaves the protocol is complete at its last header byte, and the parser stops there with the upgrade pause |
| `Bodies.RefusedCoding` | 3rd/llhttp/http.c:76-87 | a request whose transfer coding does not end in chunked is refused before any body byte is read |
| `Bodies.RefusedBoth` | 3rd/llhttp/llhttp.c:13505-13534 | both framing headers together are refused before headers-complete |
| `Bodies.BothExactly` | 3rd/llhttp/llhttp.c:13505-13534 | they are let through to headers-complete if and only if the lenient flag for lengths is set |
| `Bodies.LengthNotReached` | 3rd/llhttp/llhttp.c:9048-9065 | before the announced bytes are there nothing is complete, and the missing count is still owed |
| `Bodies.MessageEnds` | 3rd/llhttp/http.c:118-128 | after a message the flags are 0 and `finish` is SAFE, and the next state follows from keep-alive |
| `Framing.FramingFollowsRfc` | 3rd/llhttp/http.c:60-115 | without an upgrade the framing decision is that of section 3.3.3 of RFC 7230 if and only if the message is neither a 1xx, 204 or 304 response that announces a body nor a request let through by the lenient flag; the section's rules are written down independently |
| `Framing.KeptAliveButEndless` | 3rd/llhttp/http.c:131-173 | a connection is kept open after a message that ends with it in exactly one case, a 1xx, 204 or 304 response with a coding that is not chunked |
| `Headers.ReadContentLength` | 3rd/llhttp/llhttp.c:9444-9529 | a first Content-Length line sets its flag and reads its digits on after whatever the register holds, or fails exactly when the result needs more than 64 bits |
| `Numerals.ReadDecimal` | 3rd/llhttp/llhttp.c:9444-9529 | every number written in decimal, as a first Content-Length with no count left over: below 2^64 it is the count, from there on refused with 11 |
| `Numerals.LengthRefused` | 3rd/llhttp/llhttp.c:9444-9529 | any byte but a digit, a space and the line end in a Content-Length is refused with 11 |
| `Headers.SecondContentLength` | 3rd/llhttp/llhttp.c:13904-13922 | a second Content-Length line stops the parser at its value |
| `Headers.ReadHeaders` | 3rd/llhttp/llhttp.c:9137-10081 | any list of header lines, of every kind the parser tells apart and from any registers, is reported line by line, and the registers afterwards are the fold of what each line means |
| `Headers.SeenMeans` | 3rd/llhttp/llhttp.c:13939-13978 | that fold in terms of the whole list: `chunked` by the last Transfer-Encoding line's final coding, `content_length` by the one Content-Length, `upgrade` by any Upgrade line with a value, the connection flags by the options anywhere in it |
| `StartLines.PrefixFree` | 3rd/llhttp/llhttp.c:10957-12657 | no method is a proper beginning of another, save for GET of GET_PARAMETER: the trie never decides too early |
| `StartLines.EveryMethod` | 3rd/llhttp/llhttp.h:276-322 | the trie takes each of the 46 spellings of the header file to its number there, and no beginning of one to a method |
| `StartLines.ReadMethod` | 3rd/llhttp/llhttp.c:10957-12657 | from the start of a message, each of the 46 spellings and a space leave its number in the method register |
| `Detection.OnlyMethods` | 3rd/llhttp/llhttp.c:10957-12657 | a word and the space after it are taken as a method if and only if the word is one of the 46 spellings; any other word is refused with 6 |
| `Detection.WrongProtocol` | 3rd/llhttp/llhttp.c:14142-14340 | HTTP/ takes PRI and all methods but those of RTSP alone, ICE/ takes SOURCE, RTSP/ its eleven and GET, POST and OPTIONS; a method and another protocol are refused with 8 before the version |
| `Detection.Http2Preface` | 3rd/llhttp/llhttp.c:10116-10139 | the preface of HTTP/2, with any target and version, is told as a request line and stops the parser with 23 |
| `Detection.DetectRequest` | 3rd/llhttp/llhttp.c:13013-13092 | a parser for both takes any of the 46 methods for a request |
| `Detection.DetectResponse` | 3rd/llhttp/llhttp.c:13013-13092 | and the name of HTTP for a response |
| `Targets.EatTarget` | 3rd/llhttp/llhttp.c:10432-10922 | the URL states take every path or asterisk, absolute address and CONNECT authority, each with its query and fragment, to the state its last part ends in |
| `Targets.ReadTarget` | 3rd/llhttp/llhttp.c:10422-10939 | such a target and the space after it: the target is reported as the URL, byte for byte |
| `Targets.ReadTarget09` | 3rd/llhttp/llhttp.c:10082-10115 | a target that ends its line, with CR LF or LF, is version 0.9, and header lines follow |
| `Targets.PathBytes` | 3rd/llhttp/llhttp.c:10563-10621 | by their codes: a path takes the visible bytes but # and ?, and hidden ones are refused with 7 |
| `Targets.QueryBytes` | 3rd/llhttp/llhttp.c:10465-10532 | a query takes every visible byte but #, which begins the fragment |
| `Targets.FragmentBytes` | 3rd/llhttp/llhttp.c:10432-10464 | a fragment takes every visible byte |
| `Targets.ServerBytes` | 3rd/llhttp/llhttp.c:10652-10761 | the bytes of a server and its sign, by their codes; the others but those that end it are refused with 7 |
| `Targets.BeginningBytes` | 3rd/llhttp/llhttp.c:10762-10910 | a target begins with *, / or a letter, and a scheme goes on to a colon and two slashes; anything else is refused with 7 |
| `StartLines.ReadRequestLine` | 3rd/llhttp/llhttp.c:10140-12657 | a request line with any method, any such target, and any version of a protocol that has the method begins the message, reports the target as the URL and stores the method's number and the version |
| `StartLines.ReadStatusLine` | 3rd/llhttp/llhttp.c:12658-12989 | a status line with any version, any code up to 999 and any reason phrase begins the message, reports the phrase unless it is empty, and sets version and code |
| `Numerals.ReadDecimalStatus` | 3rd/llhttp/llhttp.c:12743-12989 | the same with the numbers written in decimal: they are the registers |
| `Numerals.StatusRefused` | 3rd/llhttp/llhttp.c:12717-12805 | a byte that is no digit, space or line end after a status code is refused with 13 |
| `Messages.ReadTrailers` | 3rd/llhttp/llhttp.c:8729-8739 | any list of trailer lines is reported after the last chunk's header, before the last completions; the flags gain what the lines say, and the count becomes the one announced among them |
| `Messages.RestartExactly` | 3rd/llhttp/http.c:118-173 | whether the connection stays open, in terms of the header and trailer lines together: the options anywhere in them, and whether the last coding or length still frames the message |
| `Messages.MessageFramed` | 3rd/llhttp/http.c:34-128 | section 3.3.3 of RFC 7230 on written messages, requests and responses, with trailers, upgrades and skipped bodies: for every list of header lines, every answer of the application and every count left over, the events are the headers, headers-complete, exactly the body and message-complete; the parser then stops for the upgrade, restarts or closes, and content_length is exactly LeftBehind |
| `Messages.UpgradeResumed` | 3rd/llhttp/api.c:204-211 | a parser resumed after an upgrade goes on where the message would have led without one, with the same count |
| `Messages.UpgradedRequest` | 3rd/llhttp/http.c:34-69 | a request with CONNECT, or with both upgrade headers and no body, reports its headers and its end, and the parser stops with HPE_PAUSED_UPGRADE at the last header byte |
| `Messages.MessageWithBoth` | 3rd/llhttp/llhttp.c:13505-13534 | a written message with both framing headers is refused after its headers and before headers-complete |
| `Messages.RequestWithOtherCoding` | 3rd/llhttp/http.c:76-87 | a written request whose final coding is not chunked is refused after headers-complete, before its body |
| `Messages.ResponseUntilClose` | 3rd/llhttp/http.c:89-106 | a response that nothing else frames takes every byte after its headers as body |
| `Messages.CountOverflows` | 3rd/llhttp/llhttp.c:9467-9529 | header lines that could be read from a count of 0 but not from the one left over stop the parser with HPE_INVALID_CONTENT_LENGTH |
| `Messages.StaleCount` | 3rd/llhttp/llhttp.c:9444-9529 | read with exactly the announced bytes, a message framed by Content-Length is complete if and only if no count was left over; otherwise its value overflows, or the old count times a power of ten is still owed |
| `Messages.StaleUpgrade` | 3rd/llhttp/http.c:60-72 | a request for an upgrade without a body is handed over if and only if no count was left over |
| `Connections.WholeMessage` | 3rd/llhttp/llhttp.c:8619-14913 | a written message, start line and all, gives its events in a new parser, and another message can follow if and only if it is not handed over, its connection persists and it leaves no count: conditions on its lines |
| `Connections.PipelinedMessages` | 3rd/llhttp/llhttp.c:8635-8667 | any list of such messages sent one after the other tells the application of exactly these messages, in order |
| `Connections.ChainedMessages` | 3rd/llhttp/llhttp.c:8635-8667 | any list of written messages, each read with the count the one before it leaves over, is read as these messages, in order, and content_length is exactly CountAfter at the end |
| `Connections.CountSurvives` | 3rd/llhttp/llhttp.c:8635-8667 | two written requests: the first one's trailer leaves 5, the second one's length 3 becomes 53, and 50 bytes are still owed after its body; alone the second is complete |
| `Pipeline.StepFixed` | 3rd/llhttp/llhttp.c:13093-13105 | no transition changes a fixed message type or the lenient flags |
| `Pipeline.RunShadows` | 3rd/llhttp/llhttp.c:8619-14913 | two parsers that differ only in registers that are written before they are read report the same events, stop alike and stay that close |
| `Pipeline.StartIsClean` | 3rd/llhttp/llhttp.c:13106-13163 | whenever the parser is at the start state, after any input and for any type, no flag is set, `finish` is SAFE, the match index is 0, no span is open and every message begun has been reported complete |
| `Pipeline.StartIsFresh` | 3rd/llhttp/llhttp.c:13106-13163 | at the start state with content_length 0 the parser is, up to registers that are written before they are read, a new one |
| `Pipeline.ReadPipeline` | 3rd/llhttp/llhttp.c:8635-8667 | a concatenation of whole keep-alive messages gives the concatenation of the events of each read alone, and leaves the parser ready |
| `Pipeline.RunTidy` | 3rd/llhttp/llhttp.c:8635-8645 | over any input at all, written messages or not: content_length is 0 at the start state provided no message was upgraded, skipped its body or had Content-Length in its trailers |
| `Strict.StepLoosens` | 3rd/llhttp/llhttp.c:1102-1125 | a strict transition that is no failure is the loose transition of the corresponding state, where match index 1 at a chunk's end is the second loose skip state; the one exception is a space in a field name |
| `Strict.SpaceInName` | 3rd/llhttp/llhttp.c:2203-2222 | that exception always fails in the strict parser |
| `Strict.StrictRefinesLoose` | 3rd/llhttp/llhttp.c:1102-1624 | whatever the strict header and body states accept, the loose ones accept with the same events and corresponding states |
| `Fields.KnownGoesOn` | 3rd/llhttp/llhttp.c:9832-10050 | a field-name recogniser goes on exactly while the bytes read, ignoring case, begin a known name |
| `Fields.ReadName` | 3rd/llhttp/llhttp.c:9745-10081 | a field name is reported as it stands, and its kind is that of its lower-case spelling and nothing else |
| `Fields.EatValue` | 3rd/llhttp/llhttp.c:9253-9695 | every byte the value tables accept is consumed by every value automaton |
| `Fields.ReadWholeValue` | 3rd/llhttp/llhttp.c:9178-9252 | an unfolded value is reported once and completely, and what its automaton learnt is settled at the line end |
| `Fields.ReadEmptyValue` | 3rd/llhttp/llhttp.c:9137-9177 | an empty value is an empty span |
| `Folding.ReadFolded` | 3rd/llhttp/llhttp.c:9178-9252 | a header of any kind but Content-Length whose value goes on over any number of lines, each begun by a space or a tab, is one header: its name, a value span for every line, and one completion |
| `Folding.LeadingFold` | 3rd/llhttp/llhttp.c:9147-9177 | a line end before the value is skipped, with the space or tab after it |
| `Folding.FoldedLength` | 3rd/llhttp/llhttp.c:13904-13922 | a Content-Length that goes on over the line is refused with 4 |
| `Edges.NameBytes` | 3rd/llhttp/llhttp.c:9745-9831 | by their codes: the bytes of a field name, with the space in the loose build; anything else but the colon is refused with 10 |
| `Edges.ReadKnown` | 3rd/llhttp/llhttp.c:9832-10050 | the five known names, in any mixture of small and capital letters, are taken for the kinds of header they are |
| `Edges.ReadSpaced` | 3rd/llhttp/llhttp.c:9832-9858 | spaces between a known name and its colon belong to its span, and it stays known |
| `Edges.ValueBytes` | 3rd/llhttp/llhttp.c:9574-9632 | by their codes: a value takes every byte but the control bytes, of which it takes the tab; the others are refused with 10, unless the lenient flag for headers lets them in |
| `Edges.ReadLenient` | 3rd/llhttp/llhttp.c:9214-9252 | with that flag a value is read to the end of its line, whatever is in it, and reported whole |
| `Edges.ReadAnyEnd` | 3rd/llhttp/llhttp.c:9197-9252 | a value of any kind but Content-Length ends at CR LF or at LF alone, and means the same |
| `Edges.ReadLengthEnd` | 3rd/llhttp/llhttp.c:9444-9466 | so does a Content-Length, which is then known |
| `Edges.EmptyLength` | 3rd/llhttp/llhttp.c:9147-9167 | a Content-Length without a value is refused with 11 |
| `Edges.CodeEndsLine` | 3rd/llhttp/llhttp.c:12699-12742 | a status code may be ended by the line end, either one |
| `Edges.PhraseEndsLine` | 3rd/llhttp/llhttp.c:12660-12698 | and so may a reason phrase |
| `Edges.LineFeedAlone` | 3rd/llhttp/llhttp.c:10062-10177 | where a line ends, an LF alone does what CR LF does |
| `Edges.OnlyLineFeed` | 3rd/llhttp/llhttp.c:9197-9213 | after the CR of a value anything but LF is refused with 3 |
| `Edges.StrictLineFeed` | 3rd/llhttp/llhttp.c:9117-9177 | after the other CRs a strict parser refuses anything but LF with 2, and a loose one skips it |
| `Edges.SpacesSkipped` | 3rd/llhttp/llhttp.c:10393-10421 | any number of spaces may stand before the target, before the protocol, before a value (tabs too) and after a Content-Length |
| `Edges.LeadingLines` | 3rd/llhttp/llhttp.c:13106-13163 | line ends before a message are skipped |
| `Edges.ClosedDiscards` | 3rd/llhttp/llhttp.c:8625-8634 | after the last message of a connection every byte is consumed and nothing is told |
| `Edges.VersionRefused` | 3rd/llhttp/llhttp.c:10157-10289 | from the first number of a version to the end of a request line, or to the space of a status line, any byte but the one that must follow is refused with 9 |
| `Edges.PhraseReturn` | 3rd/llhttp/llhttp.c:12658-12667 | after the CR of a reason phrase any one byte is skipped |
| `Edges.ChunkReturn` | 3rd/llhttp/llhttp.c:8680-8699 | after a chunk's data the loose parser skips any two bytes, and the strict one refuses anything but CR LF with 2 |
| `Edges.TargetReturn` | 3rd/llhttp/llhttp.c:10088-10115 | after the CR of a line that ends at its target anything but LF is refused with 7 |
| `Edges.OptionSpoiled` | 3rd/llhttp/llhttp.c:9292-9328 | a Connection option that goes on after a space is none of those the parser knows |
| `Edges.ProtocolRefused` | 3rd/llhttp/llhttp.c:10290-10421 | a protocol that is none of the three is refused with 8 |
| `Lists.TeList` | 3rd/llhttp/llhttp.c:9553-9695 | a comma-separated list leaves the Transfer-Encoding automaton where its last element alone would |
| `Lists.ReadTransferEncoding` | 3rd/llhttp/llhttp.c:9530-9695 | after a Transfer-Encoding line `chunked` is set exactly when its last coding is the word chunked or whole repetitions of it |
| `Lists.ChunkedMeansChunked` | 3rd/llhttp/llhttp.c:9530-9552 | so the flag means that the last coding is chunked if and only if that coding is not the word written twice or more without a separator |
| `Lists.ChunkedTwice` | 3rd/llhttp/llhttp.c:9530-9552 | the exception is not empty |
| `Lists.ConnList` | 3rd/llhttp/llhttp.c:9253-9423 | the options found in a Connection list are exactly those among its elements, ignoring case |
| `Lists.ReadConnection` | 3rd/llhttp/llhttp.c:13764-13851 | a Connection line sets close, keep-alive and upgrade for exactly the options present and changes nothing else of the message |
| `Printer.Stringify` | functions/web/header.c:142-157 | the printer's loop writes every header as name, colon, space, value and line end, in order |
| `Printer.ReadLine` | 3rd/llhttp/llhttp.c:9147-9252 | one printed line is read back as its name and value |
| `Printer.ReadPrinted` | functions/web/header.c:142-157 | printer and parser undo each other: for every list of token names other than Content-Length and values of valid bytes not starting with SP or HTAB, the header automaton reports exactly these pairs in order |
| `Printer.ReadHeaderSection` | 3rd/llhttp/llhttp.c:10062-10081 | the empty line after them ends the header section |
| `Printer.ReadChunkedBodyWithTrailers` | 3rd/llhttp/llhttp.c:8729-8739 | trailers of a chunked body are reported as fields after the last chunk's header, and only then are the last chunk and the message complete |
| `DbQueue.SplitsAdd` | rustlib/src/db_helpers/db_engine.rs:86-99 | adding a name at the list's front and the item at its deque's back is appending the pair to the one queue |
| `DbQueue.SplitsPop` | rustlib/src/db_helpers/db_engine.rs:39-67 | taking the oldest name and the front of its deque is removing the head of the one queue |
| `DbQueue.SplitsMerge` | rustlib/src/db_helpers/db_engine.rs:6-9 | the name list and the deques determine the queue: no order is lost by storing them apart |
| `DbQueue.SplitsWrite` | rustlib/src/db_helpers/db_engine.rs:21-30 | writing to the i-th item of a deque is writing to the i-th request of that name in the one queue, and to no other |
| `DbQueue.Oldest` | rustlib/src/export_db.rs:9-17 | the deque of the oldest name is never empty and has the oldest item at its front, so no panic is reachable |
| `DbQueue.PgStore.constructor` | rustlib/src/db_helpers/vars.rs:1-12 | nothing is pending on any descriptor at first |
| `DbQueue.PgStore.GetStorage` | rustlib/src/db_helpers/seq.rs:40-55 | the list of a descriptor exists afterwards and no list has changed |
| `DbQueue.PgStore.GetNamedEngine` | rustlib/src/db_helpers/db_functions.rs:18-24 | the deques of a descriptor exist afterwards and no deque has changed |
| `DbQueue.PgStore.PgAddItem` | rustlib/src/export_db.rs:60-69 | the pair is appended to the descriptor's queue; other descriptors are untouched; the first item of that deque has another address exactly if the deque was full and the push moved it |
| `DbQueue.PgStore.PgGetItem` | rustlib/src/export_db.rs:9-17 | returns the head's item and the address it lies at, and changes nothing; panics exactly on an empty queue |
| `DbQueue.PgStore.PgGetAndRemoveItem` | rustlib/src/export_db.rs:19-27 | returns and removes the head; panics exactly on an empty queue; other descriptors are untouched; exactly that deque has another first item |
| `DbQueue.PgStore.PgHasItem` | rustlib/src/export_db.rs:44-57 | is non-emptiness |
| `DbQueue.PgStore.PgGetFuncName` | rustlib/src/export_db.rs:30-41 | returns the name the head was added under |
| `DbQueue.PgStore.ItemAt` | rustlib/src/db_helpers/db_engine.rs:21-30 | reads the item at a place, if one is there |
| `DbQueue.PgStore.WriteItem` | functions/db/db_async_override.c:83-83 | a write to a place changes the request there and nothing else |
| `PollOrder.DoExactly` | functions/db/db_async_override.c:37-247 | from every state that is in order and for every run, with callbacks inside callbacks to any depth, deques that move and marks that go astray: the order of a descriptor's requests is kept if and only if no event is harmful, that is no write while one is outstanding or will be, and no read while none is |
| `PollOrder.Protocol` | functions/db/db_async_override.c:37-247 | over every run from the start: at every moment the requests read are the first written and those the first submitted, each handled under the name it was submitted with, and at most one is written and unread, if and only if no event is harmful; then what is submitted and not read is the queue, and only its oldest can be outstanding; and every write was asked for, whatever happens |
| `PollOrder.DoAsksFirst` | functions/db/db_async_override.c:44-86 | on every run each write is preceded by the write callback of the same request under the same name |
| `PollRuns.DoAgrees` | functions/db/db_async_override.c:44-126 | along a harmless run in which every mark is set in its own request, `written` is set in exactly the outstanding request |
| `PollRuns.SteadyExactly` | functions/db/db_async_override.c:37-247 | where every mark lands, the harmful events are exactly the reads inside a read callback of the same descriptor and the marking writes inside a write callback of it that will mark |
| `PollRuns.NotReentrantIsHarmless` | functions/db/db_async_override.c:225-247 | runs in which no callback is entered again on its own descriptor, and every mark lands (as it does if no deque moves), keep the order of every descriptor |
| `PollRuns.ReentryWhileReading` | functions/db/db_async_override.c:88-126 | with any actions inside a read callback, one level deep, the order is kept if and only if the request was outstanding and no event on its own descriptor is readable |
| `PollRuns.ReentryWhileWriting` | functions/db/db_async_override.c:44-86 | with any actions inside a write callback that will mark, one level deep, the order is kept at this event if and only if nothing was outstanding and none of the events on its descriptor is writable, idle and answered so that it marks |
| `PollRuns.ReentryWhileIdle` | functions/db/db_async_override.c:44-86 | a write callback that will not mark may let in any event on its own descriptor, one level deep, if the marks land |
| `PollRuns.QuietFront` | rustlib/src/db_helpers/db_engine.rs:86-99 | while nothing is read, the address of the oldest request changes exactly when a push finds its deque full and moves it |
| `PollRuns.MarkMisses` | functions/db/db_async_override.c:44-86 | a write leaves its request unmarked exactly when a push inside its callback moves the deque, and the old address is not the request's by chance |
| `PollRuns.LostMark` | functions/db/db_async_override.c:44-86 | a write and then a second writable event with an acceptable answer: the order is kept if and only if the first one's mark does not miss |
| `PollRuns.TenWaiting` | rustlib/src/db_helpers/db_engine.rs:86-99 | with n queries waiting, a write whose callback submits one more that moves a full deque, and a second writable event: no callback is entered again, and the order is kept if and only if n is below the deque's capacity of 10 |
| `PollHistory.RunningHandles` | functions/db/db_async_override.c:225-247 | after every run a descriptor is polled if and only if something was submitted on it and its handle has never stopped |
| `PollHistory.NeverRestarted` | functions/db/db_async_override.c:228-233 | once a descriptor's handle has stopped no run starts it again |
| `PollHistory.WrittenButNotSent` | functions/db/db_async_override.c:59-87 | a write step whose deque stays leaves the request written without having been taken exactly when the first send failed and PQgetResult had a result, and unwritten exactly when the reply was not a string for a query, or not two for a prepare, or both sends failed |
| `PollHistory.ReadUntaken` | functions/db/db_async_override.c:37-126 | over every harmless run each request that is read back was written exactly once before, and libpq never took it if and only if, at that write, the first send failed and PQgetResult had a result |
| `PollHandlers.ServedInKind` | functions/db/db_async_override.c:225-247 | over every run: a request is asked for, written and read back by the callback of the kind it was submitted in and by no other, on its own descriptor, under query or prepare by that kind; it is written only on a string if it is a query and only on two if it is a prepare |
| `PollHandlers.ServedWasSubmitted` | functions/db/db_async_override.c:225-247 | over every run: nothing is served that was not submitted before |
| `PollHandlers.WritesExactly` | functions/db/db_async_override.c:44-86 | after every run: a write event for the oldest request ends in a write exactly when the reply is a string for a query and two for a prepare, and libpq takes it or still has a result |
| `PollHandlers.EventDoes` | functions/db/db_async_override.c:37-247 | after every run, what an event does: with nothing pending it stops the handle; an unmarked request asks for a write when the descriptor is writable and the connection not busy; a marked one is read when it is readable; anything else does nothing |
| `PollProtocol.Poller.SetWritten` | functions/db/db_async_override.c:83-83 | setting `written` through the address from before the callback marks what lies there now |
| `PollProtocol.Poller.Add` | functions/db/db_async_override.c:295-321 | the add step queues the request at the end, under query or prepare by its kind, and starts a handle exactly for a new descriptor |
| `PollProtocol.Poller.PollCb` | functions/db/db_async_override.c:37-223 | the write and read branches over the split storage, with the address taken before the callback and used after it, are the protocol step, whatever the callback does inside |
| `PollProtocol.Poller.PgPollCb` | functions/db/db_async_override.c:225-247 | stops on an empty queue and otherwise runs the callback that the oldest request's name selects |
| `StringMap.Hash` | functions/libs/strmap.c:336-345 | the 64-bit wrapping hash is the polynomial in 33 over the signed characters, reduced once |
| `StringMap.ContentsAt` | functions/libs/strmap.c:121-123 | a key is bound by the map exactly when its own bucket binds it |
| `StringMap.ContentsUpdate` | functions/libs/strmap.c:177-244 | changing the bucket of a key changes the map at that key only |
| `StringMap.FlatIsContents` | functions/libs/strmap.c:276-304 | the pairs of all buckets are the bindings of the map, each once |
| `StringMap.SmNew` | functions/libs/strmap.c:61-77 | a new map of any capacity is empty; null exactly when an allocation fails |
| `StringMap.GetPair` | functions/libs/strmap.c:310-331 | finds the key in a bucket exactly when it is there |
| `StringMap.SmExists` | functions/libs/strmap.c:140-159 | agrees with the mathematical map; 0 on null arguments |
| `StringMap.SmGet` | functions/libs/strmap.c:109-138 | the size as an int, a copy with its NUL, or 0 with the buffer untouched |
| `StringMap.RoomSuffices` | functions/libs/strmap.c:175-209 | the room asked for in unsigned arithmetic holds a string and its NUL exactly when their length fits an unsigned int |
| `StringMap.SizeThenGet` | functions/libs/strmap.c:109-138 | a size query followed by a get with that size yields the value of a bound key exactly when the size fits an int |
| `StringMap.SmPut` | functions/libs/strmap.c:161-245 | for every key and value: the strings it copies fit the memory it asked for exactly when their lengths with the NUL fit an unsigned int; then it succeeds exactly when its arguments are there and the allocations it needs are granted, the binding is added or replaced, keys stay unique and in their bucket; otherwise the buckets are as they were |
| `StringMap.SmGetCount` | functions/libs/strmap.c:247-274 | the number of bindings, in 32 bits |
| `StringMap.SmEnum` | functions/libs/strmap.c:276-304 | visits every binding exactly once |
| `UrlDecoding.HtoiIsHex` | functions/http/request.c:16-33 | two hexadecimal digits give the byte they spell |
| `UrlDecoding.UrlDecode` | functions/http/request.c:36-56 | in-place decoding equals the decoder of the original bytes; the length is right, a NUL follows, and what lies behind it is untouched |
| `UrlDecoding.EscapeDecodes` | functions/http/request.c:36-56 | a percent sign and the two hexadecimal digits of a byte, each small or capital, are that byte |
| `UrlDecoding.PercentKept` | functions/http/request.c:36-56 | a percent sign before anything else stays |
| `UrlDecoding.DecodeInvertsEncoding` | functions/http/request.c:36-56 | decoding undoes every form encoding of every byte string, whichever bytes it escapes and in whichever case |
| `UrlDecoding.RoundTrip` | functions/http/request.c:36-56 | in particular the usual one, with its digits written with small or with capital letters |
| `UrlDecoding.DecodeLeavesAlone` | functions/http/request.c:36-56 | text is left alone exactly when it has no plus sign and no valid escape |

## Left out

- Strict.StrictRefinesLoose: does not cover the strict build's start line and closed state, which the strict
  flag of the model does not change; from the header section to the end of the message it is complete.
- Parser.Drive: assumes an application that pauses or goes on; what a refusing callback leaves behind is
  stated by Parser.Parser.Execute.
- PollOrder.Protocol: claims safety and order, not progress, because a drained descriptor stays stopped.
- PollRuns.ReentryWhileReading: speaks of events one level inside the callback, where the guard can be read off
  the events alone; for any depth the guard is `PollOrder.Harmless`, which follows the run.
- PollProtocol.Poller.PollCb: once the request of a running write callback has moved or been removed, its
  address leads to memory that has been given up.  The model has the mark that is then written there (it hits
  another request or none, an input of the event); but C also reads `db_handle` and `conn` from there after
  every acceptable reply, even when nothing is marked in the end, and so may send on another connection or
  fail.  What it reads is not modelled; what the sends answer is an input.  The name `pg_get_func_name` returns
  dangles.
- DbQueue.PgStore.PgAddItem: a deque of at least 10 items counts as full, and an input says whether it moves;
  which sizes beyond 10 are full in a given version of the Rust library is not modelled.
- Pipeline.RunTidy: one direction, because over arbitrary input what a message leaves is not a matter of its
  kind alone; for written messages the exact count is in `Messages.MessageFramed`.
- StringMap.SmPut: nothing is said of a copy that does not fit the memory asked for (`StringMap.RoomSuffices`).
- StringMap.SmExists: like the other operations that hash a key it needs a map with buckets, because the hash is
  divided by their number.
- Messages.MessageFramed: folded header lines, line ends without CR, targets that end their line and the lenient
  flags for headers and lengths are not among the written messages; `Folding`, `Edges`, `Targets.ReadTarget09` and
  `Bodies.BothExactly` say what each does where it stands.
- Answers.DriveWithoutAsking: assumes an application that never fails; for one that does, `Parser.Parser.Execute`
  says how the call ends.
- libpq, PHP objects and reference counts, sockets and libuv handles: foreign code.  Sends, busy connections,
  results and callback replies are inputs of an event.
- Error reason strings, the unused registers of the parser struct, and the `_span_cb0` pointer, which the
  model keeps as the kind of span.
- The three identical states that only start a path in a URL are one state of the model, and a node of the
  method trie together with its match index is the prefix read so far.
- Descriptors of 2^16 and above, which the storage truncates, and names that are not UTF-8.
- `db_map_get_next`, the MySQL engine, and the meaning of an entry's time stamp: nothing uses them.
- `sm_delete` and memory release in general; `char` is taken as signed.
- The fixed-size buffers of `struct key_value`, and with them `create_kv_pair` and
  `append_string_to_kv_collection`; the printer is modelled on collections of strings.
- Query-string splitting, promises, timers, files, the server and class registration: plumbing or foreign code.
- 3rd/llhttp/llhttp_ext.c, status texts, argument tables and build scripts: data and wrappers.
