/**
  The two list-valued fields: what a Transfer-Encoding or Connection line means for the flags.
*/
module Lists {
  import opened Http
  import opened Machine
  import opened Automaton
  import opened Semantics
  import opened Invariants
  import opened Bodies
  import opened Fields

  /** One list element as written: white space, a token, and spaces before the comma or the line end. */
  datatype Element = Element(lead: seq<byte>, token: seq<byte>, tail: seq<byte>)

  predicate IsSpaces(s: seq<byte>) { forall i :: 0 <= i < |s| ==> s[i] == SP }

  predicate IsElement(e: Element) {
    && (forall i :: 0 <= i < |e.lead| ==> e.lead[i] == SP || e.lead[i] == HT)
    && e.token != [] && IsToken(e.token) && IsSpaces(e.tail)
  }

  /** A comma-separated list; white space before the first element belongs to the header, not the value. */
  predicate IsList(es: seq<Element>) {
    es != [] && (forall i :: 0 <= i < |es| ==> IsElement(es[i])) && es[0].lead == []
  }

  function Written(es: seq<Element>): seq<byte>
    requires es != []
    decreases |es|
  {
    var e := es[0];
    if |es| == 1 then e.lead + e.token + e.tail else e.lead + e.token + e.tail + ([','] + Written(es[1..]))
  }

  /** A token byte is none of the bytes that structure a value. */
  lemma TokenBytes(b: byte)
    requires IsTokenByte(b)
    ensures IsValueByte(b) && b != ',' && b != SP && b != HT && b != CR && b != LF
  {
  }

  // ---------------------------------------------------------------- Transfer-Encoding

  const CHUNKED: seq<byte> := "chunked"

  /** The lower-case token is the word chunked, over and over, up to where it stops. */
  predicate Repeats(low: seq<byte>) { forall i :: 0 <= i < |low| ==> low[i] == CHUNKED[i % 7] }

  /** The token is one or more whole copies of the word chunked. */
  predicate IsChunkedToken(low: seq<byte>) { low != [] && |low| % 7 == 0 && Repeats(low) }

  /** Only the state and the match index differ. */
  predicate SameRegisters(k: Core, m: Core) { m == k.(node := m.node, index := m.index) }

  /** Where the automaton is after the part `token` of a list element. */
  predicate TeSoFar(k: Core, token: seq<byte>) {
    var low := LowerAll(token);
    if !Repeats(low) then k.node == V(TeToken) && k.index == 0
    else if low != [] && |low| % 7 == 0 then k.node == V(TeChunkedLast) && k.index == 0
    else k.node == V(TeChunked0) && k.index == |low| % 7
  }

  /** `*p | 0x20` and lower-casing agree on the letters of the word. */
  lemma FoldsAgree(b: byte, l: byte)
    requires 'a' <= l <= 'z'
    ensures OrBit5(b) == l <==> Lower(b) == l
  {
  }

  lemma TeMatches(strict: bool, k: Core, b: byte)
    requires k.node == V(TeChunked0) && k.index < 7 && IsTokenByte(b)
    ensures Eat(strict, k, b) == Some(
              if Lower(b) != CHUNKED[k.index] then k.(node := V(TeToken), index := 0)
              else if k.index == 6 then k.(node := V(TeChunkedLast), index := 0)
              else k.(index := k.index + 1))
  {
    hide LineStep, UrlStep, NameStep, BodyStep, Lower, OrBit5;
    TokenBytes(b);
    LettersOfChunked(k.index);
    FoldsAgree(b, CHUNKED[k.index]);
    var miss := k.(node := V(TeToken), index := 0);
    assert Step(strict, miss, Some(b)) == Go(miss, true);
    assert Eat(strict, miss, b) == Some(miss);
  }

  lemma LettersOfChunked(i: nat)
    requires i < 7
    ensures 'a' <= CHUNKED[i] <= 'z' && MatcherOf(V(TeChunked0)) == Seq(ToLowerUnsafe, CHUNKED)
  {
  }

  lemma TeRestarts(strict: bool, k: Core, b: byte)
    requires (k.node == V(TeChunkedLast) || k.node == V(TeTokenOws)) && k.index == 0 && IsTokenByte(b)
    ensures Eat(strict, k, b) == Eat(strict, To(k, V(TeChunked0)), b)
  {
    hide LineStep, UrlStep, NameStep, BodyStep;
    TokenBytes(b);
    assert Step(strict, k, Some(b)) == Go(To(k, V(TeChunked0)), false);
  }

  lemma TeTokenEats(strict: bool, k: Core, b: byte)
    requires k.node == V(TeToken) && IsValueByte(b) && b != ','
    ensures Eat(strict, k, b) == Some(k)
  {
    hide LineStep, UrlStep, NameStep, BodyStep;
    assert Step(strict, k, Some(b)) == Go(k, true);
  }

  lemma RepeatsGrow(low: seq<byte>, l: byte)
    ensures Repeats(low + [l]) <==> Repeats(low) && l == CHUNKED[|low| % 7]
  {
    assert forall i :: 0 <= i < |low| ==> (low + [l])[i] == low[i];
    assert (low + [l])[|low|] == l;
  }

  /** One more byte of a transfer-coding token. */
  lemma TeByte(strict: bool, k: Core, token: seq<byte>, b: byte)
    requires TeSoFar(k, token) && IsTokenByte(b)
    ensures var r := Eat(strict, k, b); r.Some? && SameRegisters(k, r.value) && TeSoFar(r.value, token + [b])
  {
    hide Step, Eat, Lower, LowerAll, Repeats, IsTokenByte;
    var low, l := LowerAll(token), Lower(b);
    LowerAllAppend(token, b);
    RepeatsGrow(low, l);
    TokenBytes(b);
    if k.node == V(TeToken) {
      TeTokenEats(strict, k, b);
    } else {
      if k.node == V(TeChunkedLast) { TeRestarts(strict, k, b); }
      TeMatches(strict, To(k, V(TeChunked0)), b);
    }
  }

  lemma {:induction false} TeTokenRead(strict: bool, k: Core, before: seq<byte>, token: seq<byte>)
    requires TeSoFar(k, before) && IsToken(token)
    ensures var r := EatAll(strict, k, token); r.Some? && SameRegisters(k, r.value) && TeSoFar(r.value, before + token)
    decreases |token|
  {
    hide Step, Eat, TeSoFar, IsTokenByte;
    if token == [] {
      assert before + token == before;
    } else {
      TeByte(strict, k, before, token[0]);
      TeTokenRead(strict, Eat(strict, k, token[0]).value, before + [token[0]], token[1..]);
      assert before + [token[0]] + token[1..] == before + token;
    }
  }

  /** After an element and its trailing spaces. */
  predicate TeDone(k: Core, token: seq<byte>) {
    if IsChunkedToken(LowerAll(token)) then k.node == V(TeChunkedLast) && k.index == 0
    else (k.node == V(TeToken) && k.index == 0) || (k.node == V(TeChunked0) && k.index < 7)
  }

  lemma TeSpace(strict: bool, k: Core, token: seq<byte>)
    requires TeDone(k, token)
    ensures var r := Eat(strict, k, SP); r.Some? && SameRegisters(k, r.value) && TeDone(r.value, token)
  {
    hide LineStep, UrlStep, NameStep, BodyStep, IsChunkedToken, LowerAll;
    var skipped := k.(node := V(TeToken), index := 0);
    TeTokenEats(strict, skipped, SP);
    if k.node == V(TeChunked0) {
      LettersOfChunked(k.index);
      assert Step(strict, k, Some(SP)) == Go(skipped, false);
    } else {
      assert Step(strict, k, Some(SP)) == Go(k, true);
    }
  }

  lemma {:induction false} TeSpaces(strict: bool, k: Core, token: seq<byte>, tail: seq<byte>)
    requires TeDone(k, token) && IsSpaces(tail)
    ensures var r := EatAll(strict, k, tail); r.Some? && SameRegisters(k, r.value) && TeDone(r.value, token)
    decreases |tail|
  {
    hide Step, Eat, TeDone;
    if tail != [] {
      TeSpace(strict, k, token);
      TeSpaces(strict, Eat(strict, k, SP).value, token, tail[1..]);
    }
  }

  lemma TeComma(strict: bool, k: Core, token: seq<byte>)
    requires TeDone(k, token)
    ensures Eat(strict, k, ',') == Some(k.(node := V(TeTokenOws), index := 0))
  {
    hide LineStep, UrlStep, NameStep, BodyStep, IsChunkedToken, LowerAll;
    var skipped, matching := k.(node := V(TeToken), index := 0), To(k, V(TeChunked0));
    assert Step(strict, skipped, Some(',')) == Go(To(skipped, V(TeTokenOws)), true);
    assert Eat(strict, skipped, ',') == Some(To(skipped, V(TeTokenOws)));
    if k.node != V(TeToken) {
      LettersOfChunked(k.index);
      assert Step(strict, matching, Some(',')) == Go(skipped, false);
      assert Eat(strict, matching, ',') == Some(To(skipped, V(TeTokenOws)));
      if k.node == V(TeChunkedLast) { assert Step(strict, k, Some(',')) == Go(matching, false); }
    }
  }

  lemma {:induction false} TeLead(strict: bool, k: Core, lead: seq<byte>)
    requires k.node == V(TeTokenOws) && forall i :: 0 <= i < |lead| ==> lead[i] == SP || lead[i] == HT
    ensures EatAll(strict, k, lead) == Some(k)
    decreases |lead|
  {
    hide LineStep, UrlStep, NameStep, BodyStep;
    if lead != [] {
      assert Step(strict, k, Some(lead[0])) == Go(k, true);
      TeLead(strict, k, lead[1..]);
    }
  }

  /** A token and the spaces after it, from the state that begins the word chunked. */
  lemma TeTokenTail(strict: bool, k: Core, e: Element)
    requires IsElement(e) && k.index == 0 && k.node == V(TeChunked0)
    ensures var r := EatAll(strict, k, e.token + e.tail);
            r.Some? && SameRegisters(k, r.value) && TeDone(r.value, e.token)
  {
    hide Step, Eat, IsToken, IsSpaces, Repeats, LowerAll;
    StartsRepeating(k);
    TeTokenRead(strict, k, [], e.token);
    assert [] + e.token == e.token;
    EatSplit(strict, k, e.token, e.tail);
    TeSpaces(strict, EatAll(strict, k, e.token).value, e.token, e.tail);
  }

  /** One element, from the start of the value or from the comma before it. */
  lemma TeElement(strict: bool, k: Core, e: Element)
    requires IsElement(e) && k.index == 0
    requires k.node == V(TeTokenOws) || (k.node == V(TeChunked0) && e.lead == [])
    ensures var r := EatAll(strict, k, e.lead + e.token + e.tail);
            r.Some? && SameRegisters(k, r.value) && TeDone(r.value, e.token)
  {
    hide Step, Eat, TeDone;
    var start := To(k, V(TeChunked0));
    assert e.lead + e.token + e.tail == e.lead + (e.token + e.tail);
    TeTokenTail(strict, start, e);
    if k.node == V(TeTokenOws) {
      TeLead(strict, k, e.lead);
      EatSplit(strict, k, e.lead, e.token + e.tail);
      FirstOfToken(e.token);
      assert (e.token + e.tail)[0] == e.token[0];
      TeRestarts(strict, k, e.token[0]);
    } else {
      assert e.lead + (e.token + e.tail) == e.token + e.tail;
    }
  }

  lemma StartsRepeating(k: Core)
    requires k.node == V(TeChunked0) && k.index == 0
    ensures TeSoFar(k, [])
  {
  }

  lemma FirstOfToken(token: seq<byte>)
    requires IsToken(token) && token != []
    ensures IsTokenByte(token[0])
  {
  }

  /** A whole list leaves the automaton where its last element does. */
  lemma {:induction false} TeList(strict: bool, k: Core, es: seq<Element>)
    requires es != [] && k.index == 0 && forall i :: 0 <= i < |es| ==> IsElement(es[i])
    requires k.node == V(TeTokenOws) || (k.node == V(TeChunked0) && es[0].lead == [])
    ensures var r := EatAll(strict, k, Written(es));
            r.Some? && SameRegisters(k, r.value) && TeDone(r.value, es[|es| - 1].token)
    decreases |es|
  {
    hide Step, Eat, IsElement, TeDone;
    var e := es[0];
    TeElement(strict, k, e);
    if |es| > 1 {
      var first, more := e.lead + e.token + e.tail, [','] + Written(es[1..]);
      EatSplit(strict, k, first, more);
      var m := EatAll(strict, k, first).value;
      TeComma(strict, m, e.token);
      var next := m.(node := V(TeTokenOws), index := 0);
      assert more[0] == ',' && more[1..] == Written(es[1..]);
      TeList(strict, next, es[1..]);
    }
  }

  /** The last coding of a line. */
  function LastToken(es: seq<Element>): seq<byte>
    requires es != []
  {
    LowerAll(es[|es| - 1].token)
  }

  /** The registers after a Transfer-Encoding line. */
  function Coded(k: Core, chunked: bool): Core {
    k.(node := N(FieldStart), hs := if chunked then HeaderState.TeChunked else General,
       flags := k.flags.(transferEncoding := true, chunked := chunked))
  }

  lemma EatTransferEncoding(strict: bool, k: Core, es: seq<Element>)
    requires k.node == V(DiscardWs) && k.hs == TransferEncoding && k.index == 0 && Coherent(strict, k)
    requires es != [] && es[0].lead == [] && forall i :: 0 <= i < |es| ==> IsElement(es[i])
    ensures var r := EatAll(strict, ValueOpened(k), Written(es));
            && r.Some? && InValue(r.value.node) && Coherent(strict, r.value)
            && To(Settle(AtEnd(r.value)), N(FieldStart)) == Coded(k, IsChunkedToken(LastToken(es)))
  {
    hide Step, Eat, EatAll, Written, AtEnd, TeDone, Repeats, LowerAll, IsElement, ValueOpened, Settle, Coherent,
         InValue, IsChunkedToken;
    TeOpened(strict, k);
    TeList(strict, ValueOpened(k), es);
    TeEnds(strict, EatAll(strict, ValueOpened(k), Written(es)).value, es[|es| - 1].token);
  }

  /**
    An unfolded Transfer-Encoding line: afterwards `chunked` is set exactly when the last coding is the
    word chunked or whole repetitions of it, whatever it was before and whatever precedes that coding.
  */
  lemma ReadTransferEncoding(env: Env, k: Config, es: seq<Element>, rest: seq<byte>)
    requires Ready(k) && k.core.node == V(DiscardWs) && k.core.hs == TransferEncoding && k.core.index == 0
    requires Coherent(env.strict, k.core) && IsList(es) && Unfolded(rest)
    ensures var core := Coded(k.core, IsChunkedToken(LastToken(es)));
            var events := [Span(HeaderValue, Written(es)), HeaderValueComplete];
            Run(env, k, Written(es) + CRLF + rest) == Run(env, Emitted(k, core, events, |Written(es)| + 2), rest)
  {
    hide Run, Rank, Step, Eat, EatAll, Written, AtEnd, LowerAll, IsElement, ValueOpened, Settle, Coherent,
         InValue, Unfolded, IsChunkedToken, LastToken, Coded, To, Emitted, IsValue;
    ListBegins(es);
    EatTransferEncoding(env.strict, k.core, es);
    ReadWholeValue(env, k, Written(es), rest);
  }

  lemma TeOpened(strict: bool, k: Core)
    requires k.hs == TransferEncoding && k.index == 0 && Coherent(strict, k)
    ensures ValueOpened(k) == k.(node := V(TeChunked0), flags := k.flags.(transferEncoding := true, chunked := false))
    ensures Coherent(strict, ValueOpened(k)) && k.length <= MAX_U64
  {
  }

  lemma ListBegins(es: seq<Element>)
    requires IsList(es)
    ensures Written(es) != [] && Unfolded(Written(es)) && Written(es)[0] != CR && Written(es)[0] != LF
    ensures forall rest: seq<byte> :: Unfolded(Written(es) + rest) && (Written(es) + rest)[0] == Written(es)[0]
  {
    var e := es[0];
    FirstOfToken(e.token);
    TokenBytes(e.token[0]);
    assert Written(es)[0] == e.token[0];
  }

  lemma TeEnds(strict: bool, k: Core, last: seq<byte>)
    requires TeDone(k, last) && k.length <= MAX_U64 && Coherent(strict, k.(node := V(TeChunked0), index := 0))
    ensures InValue(k.node) && Coherent(strict, k)
    ensures To(Settle(AtEnd(k)), N(FieldStart)) ==
            if IsChunkedToken(LowerAll(last))
            then k.(node := N(FieldStart), index := 0, hs := HeaderState.TeChunked, flags := k.flags.(chunked := true))
            else k.(node := N(FieldStart), index := 0, hs := General)
  {
    LettersOfChunked(0);
    hide IsChunkedToken, LowerAll;
  }

  /**
    RFC 7230 asks whether the final coding is chunked.  The flag answers that exactly unless the final
    coding is the word written at least twice without anything between.
  */
  lemma ChunkedMeansChunked(low: seq<byte>)
    ensures (IsChunkedToken(low) <==> low == CHUNKED) <==> !(IsChunkedToken(low) && |low| >= 14)
  {
    if |low| == 7 && Repeats(low) { assert forall i :: 0 <= i < 7 ==> low[i] == CHUNKED[i]; }
  }

  lemma ChunkedTwice()
    ensures IsChunkedToken("chunkedchunked") && "chunkedchunked" != CHUNKED
  {
    var low: seq<byte> := "chunkedchunked";
    forall i | 0 <= i < |low| ensures low[i] == CHUNKED[i % 7] {
      if i < 7 { assert i % 7 == i; } else { assert i % 7 == i - 7; }
    }
  }

  // ---------------------------------------------------------------- Connection

  const CLOSE: seq<byte> := "close"
  const KEEP_ALIVE: seq<byte> := "keep-alive"

  /** The state that reads the rest of a connection option after its first letter. */
  predicate InOption(n: ValueNode) { n.Conn1? || n.Conn2? || n.Conn3? }

  function OptionOf(n: ValueNode): seq<byte>
    requires InOption(n)
  {
    if n.Conn1? then CLOSE else if n.Conn2? then KEEP_ALIVE else UPGRADE
  }

  /** What the header state says of an option that has just been read in full. */
  function Saying(low: seq<byte>): HeaderState {
    if low == CLOSE then ConnClose else if low == KEEP_ALIVE then ConnKeepAlive
    else if low == UPGRADE then HeaderState.ConnUpgrade else General
  }

  predicate Idle(hs: HeaderState) { hs == Connection || hs == General }

  /** No option starts like this. */
  predicate OtherOption(low: seq<byte>) { !(low <= CLOSE) && !(low <= KEEP_ALIVE) && !(low <= UPGRADE) }

  /** The registers a Connection value changes. */
  predicate SameButList(k: Core, m: Core) { m == k.(node := m.node, index := m.index, hs := m.hs, flags := m.flags) }

  /** What the automaton knows after the part `token` of a list element. */
  predicate ConnSoFar(k: Core, token: seq<byte>) {
    && k.node.V?
    && (var n, low := k.node.value, LowerAll(token);
        if InOption(n) then k.index + 1 < |OptionOf(n)| && low == OptionOf(n)[..k.index + 1] && Idle(k.hs)
        else if n.ConnWs? then k.index == 0 && k.hs == Saying(low) && k.hs != General
        else if n.ConnToken? then k.index == 0 && Idle(k.hs) && OtherOption(low)
        else n.Conn? && k.index == 0 && Idle(k.hs) && token == [])
  }

  /** Where an option's recogniser goes on the lower-case byte `l`, None if the token is no option. */
  function NextOption(k: Core, l: byte): Option<Core>
    requires k.node.V? && (k.node.value.Conn? || InOption(k.node.value))
  {
    var n := k.node.value;
    if n.Conn? then
      if l == 'c' then Some(To(k, V(Conn1))) else if l == 'k' then Some(To(k, V(Conn2)))
      else if l == 'u' then Some(To(k, V(Conn3))) else None
    else if k.index + 1 < |OptionOf(n)| && l == OptionOf(n)[k.index + 1] then
      if k.index + 2 < |OptionOf(n)| then Some(k.(index := k.index + 1))
      else Some(k.(node := V(ConnWs), index := 0, hs := Saying(OptionOf(n))))
    else None
  }

  lemma OptionText(n: ValueNode)
    requires InOption(n)
    ensures var m := MatcherOf(V(n));
            && m.Seq? && m.fold == ToLower && |m.text| + 1 == |OptionOf(n)|
            && forall j :: 0 <= j < |m.text| ==> m.text[j] == OptionOf(n)[j + 1]
    ensures Saying(OptionOf(n)) == if n.Conn1? then ConnClose else if n.Conn2? then ConnKeepAlive
              else HeaderState.ConnUpgrade
  {
  }

  lemma ConnTokenEats(strict: bool, k: Core, b: byte)
    requires k.node == V(ConnToken) && IsValueByte(b) && b != ','
    ensures Eat(strict, k, b) == Some(k)
  {
    hide LineStep, UrlStep, NameStep, BodyStep;
    assert Step(strict, k, Some(b)) == Go(k, true);
  }

  /** Inside an option the automaton follows its recogniser, and outside it the token is skipped. */
  lemma StepOption(strict: bool, k: Core, b: byte)
    requires k.node.V? && InOption(k.node.value) && k.index + 1 < |OptionOf(k.node.value)|
    ensures Step(strict, k, Some(b)) ==
            (match NextOption(k, Lower(b))
             case Some(next) => Go(next, true)
             case None => Go(k.(node := V(ConnToken), index := 0), false))
  {
    OptionText(k.node.value);
    hide MatcherOf, OptionOf, Saying, LineStep, UrlStep, NameStep, BodyStep, Lower;
  }

  lemma EatOption(strict: bool, k: Core, b: byte)
    requires k.node.V? && (k.node.value.Conn? || (InOption(k.node.value) && k.index + 1 < |OptionOf(k.node.value)|))
    requires k.node.value.Conn? ==> k.index == 0
    requires IsTokenByte(b)
    ensures Eat(strict, k, b) == Some(
              match NextOption(k, Lower(b)) case Some(next) => next case None => k.(node := V(ConnToken), index := 0))
  {
    var skipped := k.(node := V(ConnToken), index := 0);
    TokenBytes(b);
    ConnTokenEats(strict, skipped, b);
    hide Eat;
    if InOption(k.node.value) {
      StepOption(strict, k, b);
      EatStep(strict, k, b);
    } else {
      assert Step(strict, k, Some(b)) ==
             (match NextOption(k, Lower(b)) case Some(next) => Go(next, true) case None => Go(skipped, false)) by {
        hide LineStep, UrlStep, NameStep, BodyStep, Lower, IsTokenByte;
      }
      EatStep(strict, k, b);
    }
  }

  /** Eat, one transition at a time. */
  lemma EatStep(strict: bool, k: Core, b: byte)
    ensures var a := Step(strict, k, Some(b));
            Eat(strict, k, b) == if !a.Go? then None else if a.take then Some(a.next) else Eat(strict, a.next, b)
  {
    hide Step;
  }

  lemma OptionBegins(k: Core, token: seq<byte>, b: byte)
    requires ConnSoFar(k, token) && k.node.value.Conn?
    ensures match NextOption(k, Lower(b))
            case Some(next) => SameButList(k, next) && ConnSoFar(next, token + [b])
            case None => OtherOption(LowerAll(token + [b]))
  {
    LowerAllAppend(token, b);
    assert LowerAll(token) + [Lower(b)] == [Lower(b)];
    FirstLetters();
    OptionLetters();
    if NextOption(k, Lower(b)).None? { OtherThan([Lower(b)], 0); }
    hide Lower, LowerAll, OtherOption, Saying, MatcherOf;
  }

  lemma OptionContinues(k: Core, token: seq<byte>, b: byte)
    requires ConnSoFar(k, token) && InOption(k.node.value)
    ensures match NextOption(k, Lower(b))
            case Some(next) => SameButList(k, next) && ConnSoFar(next, token + [b])
            case None => true
  {
    var n, l, low := k.node.value, Lower(b), LowerAll(token);
    LowerAllAppend(token, b);
    hide Lower, LowerAll, OtherOption, Saying, OptionOf, MatcherOf;
    if NextOption(k, l).Some? {
      OptionGrows(n, low, k.index + 1, l);
      OptionText(n);
    }
  }

  /** A recogniser goes on exactly while the bytes read are the beginning of an option. */
  lemma OptionGoesOn(k: Core, token: seq<byte>, b: byte)
    requires ConnSoFar(k, token) && (k.node.value.Conn? || InOption(k.node.value))
    ensures match NextOption(k, Lower(b))
            case Some(next) => SameButList(k, next) && ConnSoFar(next, token + [b])
            case None => OtherOption(LowerAll(token + [b]))
  {
    if k.node.value.Conn? {
      OptionBegins(k, token, b);
      hide ConnSoFar, OtherOption;
    } else {
      var n, l, low := k.node.value, Lower(b), LowerAll(token);
      OptionContinues(k, token, b);
      LowerAllAppend(token, b);
      hide Lower, LowerAll, OtherOption, Saying, OptionOf, MatcherOf;
      if NextOption(k, l).None? {
        assert (low + [l])[0] == low[0] == OptionOf(n)[0];
        NotThisOption(n, low + [l], k.index + 1);
      }
    }
  }

  lemma OptionGrows(n: ValueNode, low: seq<byte>, at: nat, l: byte)
    requires InOption(n) && at < |OptionOf(n)| && low == OptionOf(n)[..at] && l == OptionOf(n)[at]
    ensures low + [l] == OptionOf(n)[..at + 1] && (at + 1 == |OptionOf(n)| ==> low + [l] == OptionOf(n))
  {
  }

  lemma FirstLetters()
    ensures OptionOf(Conn1)[..1] == ['c'] && OptionOf(Conn2)[..1] == ['k'] && OptionOf(Conn3)[..1] == ['u']
  {
  }

  lemma NotThisOption(n: ValueNode, low: seq<byte>, at: nat)
    requires InOption(n) && 0 < at < |low| && low[0] == OptionOf(n)[0]
    requires at < |OptionOf(n)| ==> low[at] != OptionOf(n)[at]
    ensures OtherOption(low)
  {
    OptionLetters();
    Differs(low, CLOSE, if n.Conn1? then at else 0);
    Differs(low, KEEP_ALIVE, if n.Conn2? then at else 0);
    Differs(low, UPGRADE, if n.Conn3? then at else 0);
  }

  lemma OptionLetters()
    ensures CLOSE[0] == 'c' && KEEP_ALIVE[0] == 'k' && UPGRADE[0] == 'u'
  {
  }

  lemma OtherThan(low: seq<byte>, at: nat)
    requires at < |low| && (at < |CLOSE| ==> low[at] != CLOSE[at])
    requires (at < |KEEP_ALIVE| ==> low[at] != KEEP_ALIVE[at]) && (at < |UPGRADE| ==> low[at] != UPGRADE[at])
    ensures OtherOption(low)
  {
  }

  /** A token that goes on after an option is not that option, nor any other. */
  lemma LongerThanOption(low: seq<byte>, l: byte)
    requires Saying(low) != General
    ensures OtherOption(low + [l])
  {
    var longer := low + [l];
    assert longer[0] == low[0];
    OptionLetters();
    Differs(longer, CLOSE, if low == CLOSE then |low| else 0);
    Differs(longer, KEEP_ALIVE, if low == KEEP_ALIVE then |low| else 0);
    Differs(longer, UPGRADE, if low == UPGRADE then |low| else 0);
  }

  lemma OtherGrows(low: seq<byte>, l: byte)
    requires OtherOption(low)
    ensures OtherOption(low + [l])
  {
    Shorter(low, l, CLOSE);
    Shorter(low, l, KEEP_ALIVE);
    Shorter(low, l, UPGRADE);
  }

  /** One more byte of a connection option. */
  lemma ConnByte(strict: bool, k: Core, token: seq<byte>, b: byte)
    requires ConnSoFar(k, token) && IsTokenByte(b)
    ensures var r := Eat(strict, k, b);
            r.Some? && SameButList(k, r.value) && r.value.flags == k.flags && ConnSoFar(r.value, token + [b])
  {
    hide Step, Eat, OtherOption, Saying, OptionOf, Lower, LowerAll, IsTokenByte;
    var n, low, l := k.node.value, LowerAll(token), Lower(b);
    LowerAllAppend(token, b);
    TokenBytes(b);
    if n.ConnToken? {
      ConnTokenEats(strict, k, b);
      OtherGrows(low, l);
    } else if n.ConnWs? {
      ConnGivesUp(strict, k, b);
      LongerThanOption(low, l);
    } else {
      EatOption(strict, k, b);
      OptionGoesOn(k, token, b);
      KeepsFlags(k, l);
    }
  }

  lemma KeepsFlags(k: Core, l: byte)
    requires k.node.V? && (k.node.value.Conn? || InOption(k.node.value))
    ensures NextOption(k, l).Some? ==> NextOption(k, l).value.flags == k.flags
  {
  }

  lemma ConnGivesUp(strict: bool, k: Core, b: byte)
    requires k.node == V(ConnWs) && IsTokenByte(b)
    ensures Eat(strict, k, b) == Some(k.(node := V(ConnToken), hs := General))
  {
    var skipped := k.(node := V(ConnToken), hs := General);
    TokenBytes(b);
    ConnTokenEats(strict, skipped, b);
    hide Eat, LineStep, UrlStep, NameStep, BodyStep;
    assert Step(strict, k, Some(b)) == Go(skipped, false);
    EatStep(strict, k, b);
  }

  lemma {:induction false} ConnTokenRead(strict: bool, k: Core, before: seq<byte>, token: seq<byte>)
    requires ConnSoFar(k, before) && IsToken(token)
    ensures var r := EatAll(strict, k, token);
            r.Some? && SameButList(k, r.value) && r.value.flags == k.flags && ConnSoFar(r.value, before + token)
    decreases |token|
  {
    hide Step, Eat, ConnSoFar, IsTokenByte;
    if token == [] {
      assert before + token == before;
    } else {
      ConnByte(strict, k, before, token[0]);
      ConnTokenRead(strict, Eat(strict, k, token[0]).value, before + [token[0]], token[1..]);
      assert before + [token[0]] + token[1..] == before + token;
    }
  }

  /** After an element and its trailing spaces: an option waits for the comma, anything else is skipped. */
  predicate ConnDone(k: Core, token: seq<byte>) {
    && k.node.V?
    && (var n, hs := k.node.value, Saying(LowerAll(token));
        if hs != General then n.ConnWs? && k.index == 0 && k.hs == hs
        else Idle(k.hs) && ((n.ConnToken? && k.index == 0) || (InOption(n) && k.index + 1 < |OptionOf(n)|)))
  }

  lemma ConnFinished(k: Core, token: seq<byte>)
    requires ConnSoFar(k, token) && token != []
    ensures ConnDone(k, token)
  {
    var low := LowerAll(token);
    if InOption(k.node.value) {
      OptionLetters();
      assert low[0] == OptionOf(k.node.value)[0];
    }
  }

  lemma ConnSpace(strict: bool, k: Core, token: seq<byte>)
    requires ConnDone(k, token)
    ensures var r := Eat(strict, k, SP);
            r.Some? && SameButList(k, r.value) && r.value.flags == k.flags && ConnDone(r.value, token)
  {
    hide Eat, Step, Saying, OptionOf, LowerAll;
    var skipped := k.(node := V(ConnToken), index := 0);
    ConnTokenEats(strict, skipped, SP);
    EatStep(strict, k, SP);
    if k.node == V(ConnWs) {
      WsKeeps(strict, k);
    } else if k.node != V(ConnToken) {
      StepOption(strict, k, SP);
      NotInOption(k.node.value, SP);
    }
  }

  lemma WsKeeps(strict: bool, k: Core)
    requires k.node == V(ConnWs)
    ensures Step(strict, k, Some(SP)) == Go(k, true)
    ensures Step(strict, k, Some(',')) == Go(To(Settle(k), V(Conn)), true)
  {
    hide LineStep, UrlStep, NameStep, BodyStep;
  }

  lemma NotInOption(n: ValueNode, b: byte)
    requires InOption(n) && (b == SP || b == ',')
    ensures forall j :: 0 <= j < |OptionOf(n)| ==> Lower(b) != OptionOf(n)[j]
  {
  }

  lemma {:induction false} ConnSpaces(strict: bool, k: Core, token: seq<byte>, tail: seq<byte>)
    requires ConnDone(k, token) && IsSpaces(tail)
    ensures var r := EatAll(strict, k, tail);
            r.Some? && SameButList(k, r.value) && r.value.flags == k.flags && ConnDone(r.value, token)
    decreases |tail|
  {
    hide Step, Eat, ConnDone;
    if tail != [] {
      ConnSpace(strict, k, token);
      ConnSpaces(strict, Eat(strict, k, SP).value, token, tail[1..]);
    }
  }

  /** The comma settles the element before it. */
  lemma ConnComma(strict: bool, k: Core, token: seq<byte>)
    requires ConnDone(k, token)
    ensures Eat(strict, k, ',') == Some(Settle(k).(node := V(Conn), index := 0))
  {
    hide Eat, Step, Saying, OptionOf, LowerAll;
    var skipped := k.(node := V(ConnToken), index := 0);
    TokenComma(strict, skipped);
    EatStep(strict, skipped, ',');
    EatStep(strict, k, ',');
    if k.node == V(ConnWs) {
      WsKeeps(strict, k);
    } else if k.node != V(ConnToken) {
      StepOption(strict, k, ',');
      NotInOption(k.node.value, ',');
    }
  }

  lemma TokenComma(strict: bool, k: Core)
    requires k.node == V(ConnToken)
    ensures Step(strict, k, Some(',')) == Go(To(k, V(Conn)), true)
  {
    hide LineStep, UrlStep, NameStep, BodyStep;
  }

  lemma {:induction false} ConnLead(strict: bool, k: Core, lead: seq<byte>)
    requires k.node == V(Conn) && forall i :: 0 <= i < |lead| ==> lead[i] == SP || lead[i] == HT
    ensures EatAll(strict, k, lead) == Some(k)
    decreases |lead|
  {
    hide LineStep, UrlStep, NameStep, BodyStep;
    if lead != [] {
      assert Step(strict, k, Some(lead[0])) == Go(k, true);
      ConnLead(strict, k, lead[1..]);
    }
  }

  lemma ConnElement(strict: bool, k: Core, e: Element)
    requires IsElement(e) && k.index == 0 && k.node == V(Conn) && Idle(k.hs)
    ensures var r := EatAll(strict, k, e.lead + e.token + e.tail);
            r.Some? && SameButList(k, r.value) && r.value.flags == k.flags && ConnDone(r.value, e.token)
  {
    ConnBegins(k);
    hide Step, Eat, IsToken, IsSpaces, LowerAll, ConnSoFar, ConnDone, Saying;
    ConnLead(strict, k, e.lead);
    EatSplit(strict, k, e.lead, e.token + e.tail);
    assert e.lead + e.token + e.tail == e.lead + (e.token + e.tail);
    ConnTokenRead(strict, k, [], e.token);
    assert [] + e.token == e.token;
    EatSplit(strict, k, e.token, e.tail);
    var r := EatAll(strict, k, e.token).value;
    ConnFinished(r, e.token);
    ConnSpaces(strict, r, e.token, e.tail);
  }

  lemma ConnBegins(k: Core)
    requires k.index == 0 && k.node == V(Conn) && Idle(k.hs)
    ensures ConnSoFar(k, [])
  {
  }

  /** The option is one of the elements, ignoring case. */
  predicate HasOption(es: seq<Element>, option: seq<byte>) {
    exists i :: 0 <= i < |es| && LowerAll(es[i].token) == option
  }

  function Added(f: Flags, close: bool, keepAlive: bool, upgrade: bool): Flags {
    f.(close := f.close || close, keepAlive := f.keepAlive || keepAlive, connUpgrade := f.connUpgrade || upgrade)
  }

  /** The flags a Connection line adds. */
  function WithOptions(f: Flags, es: seq<Element>): Flags {
    Added(f, HasOption(es, CLOSE), HasOption(es, KEEP_ALIVE), HasOption(es, UPGRADE))
  }

  /** The flags after one element. */
  function WithOption(f: Flags, low: seq<byte>): Flags { Added(f, low == CLOSE, low == KEEP_ALIVE, low == UPGRADE) }

  lemma AddedTwice(f: Flags, a: bool, b: bool, c: bool, a': bool, b': bool, c': bool)
    ensures Added(Added(f, a, b, c), a', b', c') == Added(f, a || a', b || b', c || c')
  {
  }

  lemma AddedNothing(f: Flags)
    ensures Added(f, false, false, false) == f
  {
  }

  lemma HasOptionFirst(es: seq<Element>, option: seq<byte>)
    requires es != []
    ensures HasOption(es, option) <==> LowerAll(es[0].token) == option || HasOption(es[1..], option)
  {
    if HasOption(es, option) && LowerAll(es[0].token) != option {
      var i :| 0 <= i < |es| && LowerAll(es[i].token) == option;
      assert es[1..][i - 1] == es[i];
    }
    if HasOption(es[1..], option) {
      var i :| 0 <= i < |es[1..]| && LowerAll(es[1..][i].token) == option;
      assert es[i + 1] == es[1..][i];
    }
  }

  /** Settling an element adds the option it spells, and nothing if it spells none. */
  lemma SettledOption(k: Core, token: seq<byte>)
    requires ConnDone(k, token)
    ensures Settle(k).flags == WithOption(k.flags, LowerAll(token))
    ensures Idle(Settle(k).hs) && SameButList(k, Settle(k))
  {
    hide LowerAll;
    assert CLOSE != KEEP_ALIVE && CLOSE != UPGRADE && KEEP_ALIVE != UPGRADE;
  }

  /** The flags after the first element, and after the others. */
  lemma WithFirst(f: Flags, es: seq<Element>)
    requires es != []
    ensures WithOptions(f, es) == WithOptions(WithOption(f, LowerAll(es[0].token)), es[1..])
    ensures |es| == 1 ==> WithOptions(f, es) == WithOption(f, LowerAll(es[0].token))
  {
    hide HasOption, LowerAll, CLOSE, KEEP_ALIVE, UPGRADE, Added;
    HasOptionFirst(es, CLOSE);
    HasOptionFirst(es, KEEP_ALIVE);
    HasOptionFirst(es, UPGRADE);
    var low, more := LowerAll(es[0].token), es[1..];
    AddedTwice(f, low == CLOSE, low == KEEP_ALIVE, low == UPGRADE,
               HasOption(more, CLOSE), HasOption(more, KEEP_ALIVE), HasOption(more, UPGRADE));
    if |es| == 1 {
      NoOptions(more);
      AddedNothing(WithOption(f, low));
    }
  }

  lemma {:induction false} ConnList(strict: bool, k: Core, es: seq<Element>)
    requires es != [] && k.index == 0 && k.node == V(Conn) && Idle(k.hs)
    requires forall i :: 0 <= i < |es| ==> IsElement(es[i])
    ensures var r := EatAll(strict, k, Written(es));
            && r.Some? && SameButList(k, r.value) && ConnDone(r.value, es[|es| - 1].token)
            && Settle(r.value).flags == WithOptions(k.flags, es)
    decreases |es|
  {
    hide Step, Eat, IsElement, ConnDone, HasOption, LowerAll, Settle, Idle;
    var e := es[0];
    WithFirst(k.flags, es);
    ConnElement(strict, k, e);
    var m := EatAll(strict, k, e.lead + e.token + e.tail).value;
    SettledOption(m, e.token);
    hide WithOption, WithOptions;
    if |es| > 1 {
      var first, more := e.lead + e.token + e.tail, [','] + Written(es[1..]);
      EatSplit(strict, k, first, more);
      ConnComma(strict, m, e.token);
      var next := Settle(m).(node := V(Conn), index := 0);
      assert more[0] == ',' && more[1..] == Written(es[1..]);
      ConnList(strict, next, es[1..]);
    }
  }

  lemma NoOptions(es: seq<Element>)
    requires es == []
    ensures !HasOption(es, CLOSE) && !HasOption(es, KEEP_ALIVE) && !HasOption(es, UPGRADE)
  {
  }

  lemma EatConnection(strict: bool, k: Core, es: seq<Element>)
    requires k.node == V(DiscardWs) && k.hs == Connection && k.index == 0 && Coherent(strict, k)
    requires es != [] && forall i :: 0 <= i < |es| ==> IsElement(es[i])
    ensures var r := EatAll(strict, ValueOpened(k), Written(es));
            && r.Some? && InValue(r.value.node) && Coherent(strict, r.value)
            && (var end := To(Settle(AtEnd(r.value)), N(FieldStart));
                end == k.(node := N(FieldStart), hs := end.hs, flags := WithOptions(k.flags, es)))
  {
    var begun := To(k, V(Conn));
    assert ValueOpened(k) == begun && Coherent(strict, begun);
    hide Step, Eat, EatAll, Written, AtEnd, ConnDone, LowerAll, IsElement, ValueOpened, Settle, Coherent, InValue,
         HasOption;
    ConnList(strict, begun, es);
    var eaten := EatAll(strict, begun, Written(es)).value;
    ConnEnds(strict, k, eaten, es[|es| - 1].token);
  }

  /**
    An unfolded Connection line: `close`, `keepAlive` and `connUpgrade` are set for exactly the options
    among its elements, ignoring case, and no other register of the message changes.
  */
  lemma ReadConnection(env: Env, k: Config, es: seq<Element>, rest: seq<byte>) returns (core: Core)
    requires Ready(k) && k.core.node == V(DiscardWs) && k.core.hs == Connection && k.core.index == 0
    requires Coherent(env.strict, k.core) && IsList(es) && Unfolded(rest)
    ensures core == k.core.(node := N(FieldStart), hs := core.hs, flags := WithOptions(k.core.flags, es))
    ensures var events := [Span(HeaderValue, Written(es)), HeaderValueComplete];
            Run(env, k, Written(es) + CRLF + rest) == Run(env, Emitted(k, core, events, |Written(es)| + 2), rest)
  {
    ListBegins(es);
    hide Run, Rank, Step, Eat, EatAll, Written, AtEnd, LowerAll, IsElement, ValueOpened, Settle, Coherent, InValue,
         Unfolded, WithOptions, To;
    EatConnection(env.strict, k.core, es);
    core := To(Settle(AtEnd(EatAll(env.strict, ValueOpened(k.core), Written(es)).value)), N(FieldStart));
    ReadWholeValue(env, k, Written(es), rest);
  }

  lemma ConnEnds(strict: bool, was: Core, k: Core, last: seq<byte>)
    requires ConnDone(k, last) && Coherent(strict, was) && SameButList(was, k)
    ensures InValue(k.node) && Coherent(strict, k)
    ensures var end := Settle(AtEnd(k));
            end == k.(node := V(ValueOtherwise), index := 0, hs := end.hs, flags := Settle(k).flags)
  {
    if InOption(k.node.value) { OptionText(k.node.value); }
    hide LowerAll, Saying;
  }
}
