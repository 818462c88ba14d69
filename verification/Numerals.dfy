/**
  Numbers as they are written, and the parser's registers: chunk sizes, Content-Length and status codes
  (3rd/llhttp/llhttp.c:8793-9038, 9421-9560, 12793-12900).
*/
module Numerals {
  import opened Http
  import opened Machine
  import opened Numbers
  import opened Automaton
  import opened Semantics
  import opened Lengths
  import opened Bodies
  import opened Fields
  import opened Headers
  import opened Digits
  import opened StartLines

  // ---------------------------------------------------------------- what a numeral denotes

  lemma {:induction false} DenotesLast(base: nat, front: seq<nat>, last: nat)
    ensures Denotes(base, front + [last]) == Denotes(base, front) * base + last
    decreases |front|
  {
    if front == [] {
      assert front + [last] == [last] && [last][1..] == [] && Power(base, 0) == 1;
    } else {
      var all, rest := front + [last], front[1..];
      assert all[1..] == rest + [last] && all[0] == front[0];
      DenotesLast(base, rest, last);
      DenotesFirst(base, all);
      DenotesFirst(base, front);
      PowerNext(base, |rest|);
      hide Denotes, Power;
      Shift(front[0], Power(base, |rest|), Denotes(base, rest), base);
    }
  }

  lemma DenotesFirst(base: nat, digits: seq<nat>)
    requires digits != []
    ensures Denotes(base, digits) == digits[0] * Power(base, |digits| - 1) + Denotes(base, digits[1..])
  {
  }

  lemma PowerNext(base: nat, n: nat)
    ensures Power(base, n + 1) == base * Power(base, n)
  {
  }

  lemma Shift(digit: nat, power: nat, more: nat, base: nat)
    ensures digit * (base * power) + more * base == (digit * power + more) * base
  {
    assert digit * (base * power) == (digit * power) * base;
  }

  lemma {:induction false} DigitValsLast(front: seq<byte>, last: byte)
    requires AllDigits(front) && IsDigit(last)
    ensures AllDigits(front + [last]) && DigitVals(front + [last]) == DigitVals(front) + [DigitVal(last)]
    decreases |front|
  {
    if front == [] {
      assert front + [last] == [last] && [last][1..] == [];
    } else {
      assert (front + [last])[1..] == front[1..] + [last];
      DigitValsLast(front[1..], last);
    }
  }

  lemma {:induction false} HexValsLast(front: seq<byte>, last: byte)
    requires AllHex(front) && IsHex(last)
    ensures AllHex(front + [last]) && HexVals(front + [last]) == HexVals(front) + [HexVal(last)]
    decreases |front|
  {
    if front == [] {
      assert front + [last] == [last] && [last][1..] == [];
    } else {
      assert (front + [last])[1..] == front[1..] + [last];
      HexValsLast(front[1..], last);
    }
  }

  lemma {:induction false} DecimalDenotes(n: nat)
    ensures |DECIMAL| == 10 && AllDigits(Numeral(DECIMAL, n)) && Numeral(DECIMAL, n) != []
    ensures Denotes(10, DigitVals(Numeral(DECIMAL, n))) == n
    decreases n
  {
    DigitsDecimal('0');
    hide DECIMAL, IsDigit, DigitVal, Denotes;
    var last := DECIMAL[n % 10];
    DenotesLast(10, [], n % 10);
    assert [] + [n % 10] == [n % 10];
    if n < 10 {
      DigitValsLast([], last);
      assert [] + [last] == [last];
      NothingDenoted(10);
    } else {
      DecimalDenotes(n / 10);
      DigitValsLast(Numeral(DECIMAL, n / 10), last);
      DenotesLast(10, DigitVals(Numeral(DECIMAL, n / 10)), n % 10);
    }
  }

  lemma NothingDenoted(base: nat)
    ensures Denotes(base, []) == 0
  {
  }

  lemma {:induction false} HexDenotes(digits: seq<byte>, n: nat)
    requires IsHexadecimal(digits)
    ensures |digits| == 16 && AllHex(Numeral(digits, n)) && Numeral(digits, n) != []
    ensures Denotes(16, HexVals(Numeral(digits, n))) == n
    decreases n
  {
    DigitsHexadecimal(digits, '0');
    hide IsHexadecimal, IsHex, HexVal, Denotes;
    var last := digits[n % 16];
    DenotesLast(16, [], n % 16);
    assert [] + [n % 16] == [n % 16];
    if n < 16 {
      HexValsLast([], last);
      assert [] + [last] == [last];
      NothingDenoted(16);
    } else {
      HexDenotes(digits, n / 16);
      HexValsLast(Numeral(digits, n / 16), last);
      DenotesLast(16, HexVals(Numeral(digits, n / 16)), n % 16);
    }
  }

  // ---------------------------------------------------------------- chunk sizes

  /**
    Every number written in hexadecimal, with small or with capital letters, as the size of a chunk: below 2^64
    it is announced, and from there on it is refused.
  */
  lemma ReadHexadecimal(env: Env, k: Config, digits: seq<byte>, n: nat, ext: seq<byte>, rest: seq<byte>)
    requires Ready(k) && k.core.node == B(UpdateContentLength) && k.core.index == 0 && IsExtension(ext)
    requires digits == LOWER_HEX || digits == UPPER_HEX
    ensures |digits| == 16
    ensures var text := Numeral(digits, n);
            if n < 0x1_0000_0000_0000_0000 then
              Run(env, k, text + ext + CRLF + rest)
                == Run(env, Emitted(k, To(k.core.(length := n), B(IsEqualContentLength)), [ChunkHeader(n)],
                                    |text| + |ext| + 2), rest)
            else
              Run(env, k, text + ext + CRLF + rest).stop == 12
  {
    hide Run, Step, Denotes, HexVals, AllHex, LOWER_HEX, UPPER_HEX, IsExtension, Numeral, Emitted;
    HexDenotes(digits, n);
    var text := Numeral(digits, n);
    if n < 0x1_0000_0000_0000_0000 {
      ReadSizeLine(env, k, text, ext, n, rest);
    } else {
      assert text + ext + CRLF + rest == text + (ext + CRLF + rest);
      SizeTooBig(env, k, text, ext + CRLF + rest);
    }
  }

  lemma SizeTooBig(env: Env, k: Config, text: seq<byte>, rest: seq<byte>)
    requires Ready(k) && k.core.node == B(UpdateContentLength) && AllHex(text) && text != []
    requires Denotes(16, HexVals(text)) > MAX_U64
    ensures Run(env, k, text + rest).stop == 12
  {
    hide Run, Rank, LineStep, UrlStep, NameStep, ValueStep, Denotes, HexVals;
    var k1 := Past(k, To(k.core.(length := 0), B(ChunkSizeDigit)), 0);
    Move(env, k, text + rest, k1.core, false);
    assert Extended(16, 0, HexVals(text)) == Denotes(16, HexVals(text));
    ReadSize(env, k1, text, rest);
  }

  /** A size that does not begin with one of the digits is refused. */
  lemma SizeRefused(env: Env, k: Config, b: byte)
    requires Ready(k) && k.core.node == B(UpdateContentLength) && b !in LOWER_HEX && b !in UPPER_HEX
    ensures Run(env, k, [b]).stop == 12
  {
    DigitsHexadecimal(LOWER_HEX, b);
    hide Run, Rank, LineStep, UrlStep, NameStep, ValueStep, LOWER_HEX, UPPER_HEX;
    var k1 := Past(k, To(k.core.(length := 0), B(ChunkSizeDigit)), 0);
    Move(env, k, [b], k1.core, false);
    RunOne(env, k1, [b], FailAt(k1.core, 12));
  }

  /** After the digits of a size come CR, a space or a semicolon. */
  lemma SizeGoesOn(env: Env, k: Config, b: byte)
    requires Ready(k) && k.core.node == B(ChunkSize) && b !in LOWER_HEX && b !in UPPER_HEX && b !in ['\r', ' ', ';']
    ensures Run(env, k, [b]).stop == 12
  {
    DigitsHexadecimal(LOWER_HEX, b);
    hide Run, Rank, LineStep, UrlStep, NameStep, ValueStep, LOWER_HEX, UPPER_HEX;
    var k1 := Past(k, To(k.core, B(ChunkSizeOtherwise)), 0);
    Move(env, k, [b], k1.core, false);
    RunOne(env, k1, [b], FailAt(k1.core, 12));
  }

  // ---------------------------------------------------------------- Content-Length

  /**
    Every number written in decimal as a first Content-Length, with no count left over: below 2^64 it is the
    count, and from there on it is refused.
  */
  lemma ReadDecimal(env: Env, k: Config, n: nat, rest: seq<byte>)
    requires Ready(k) && k.core.node == V(DiscardWs) && k.core.hs == ContentLength && !k.core.flags.contentLength
    requires k.core.length == 0 && Unfolded(rest)
    ensures var text := Numeral(DECIMAL, n);
            var core := k.core.(node := N(FieldStart), flags := k.core.flags.(contentLength := true), length := n);
            var events := [Span(HeaderValue, text), HeaderValueComplete];
            if n < 0x1_0000_0000_0000_0000 then
              Run(env, k, text + CRLF + rest) == Run(env, Emitted(k, core, events, |text| + 2), rest)
            else
              Run(env, k, text + CRLF + rest).stop == 11
  {
    DecimalDenotes(n);
    hide Run, Step, Denotes, DigitVals, DECIMAL, Unfolded, Numeral;
    assert Extended(10, 0, DigitVals(Numeral(DECIMAL, n))) == n;
    ReadContentLength(env, k, Numeral(DECIMAL, n), rest);
  }

  /** Another byte than a digit, a space or the line end is refused anywhere in a Content-Length. */
  lemma LengthRefused(env: Env, k: Config, b: byte)
    requires k.stop == 0 && k.core.node == V(Length) && k.span.Some? && b !in DECIMAL && b !in [' ', '\r', '\n']
    ensures Run(env, k, [b]).stop == 11
  {
    DigitsDecimal(b);
    hide Run, Rank, LineStep, UrlStep, NameStep, BodyStep, ListByte, DECIMAL;
    var k1 := k.(core := To(k.core, V(LengthWs)));
    RunOne(env, k, [b], Go(k1.core, false));
    var k2 := Closing(k1).(core := To(k.core, V(LengthCharError)));
    RunOne(env, k1, [b], Close(k2.core, false));
    RunOne(env, k2, [b], FailAt(k2.core, 11));
  }

  // ---------------------------------------------------------------- status lines

  /** A status line with the numbers written in decimal. */
  lemma ReadDecimalStatus(env: Env, k: Config, major: nat, minor: nat, status: nat, reason: seq<byte>, rest: seq<byte>)
    requires Ready(k) && k.core.node == L(Start) && k.core.index == 0 && k.core.line.ty.Response?
    requires major < 10 && minor < 10 && status < 1000 && IsReason(reason)
    ensures |DECIMAL| == 10
    ensures var text := StatusLine(DECIMAL[major], DECIMAL[minor], Numeral(DECIMAL, status), reason);
            var line := k.core.line.(finish := Unsafe, major := major, minor := minor, status := status);
            var core := k.core.(node := N(FieldStart), line := line);
            Run(env, k, text + rest) == Run(env, Emitted(k, core, [MessageBegin] + ReasonEvents(reason), |text|), rest)
  {
    DigitsDecimal('0');
    DecimalDenotes(status);
    hide Run, Denotes, DigitVals, DECIMAL, Numeral, IsReason, ReasonEvents, StatusLine, IsDigit, DigitVal;
    ReadStatusLine(env, k, DECIMAL[major], DECIMAL[minor], Numeral(DECIMAL, status), reason, rest);
  }

  /** After the digits of a status code comes a space or the line end. */
  lemma StatusRefused(env: Env, k: Config, b: byte)
    requires Ready(k) && k.core.node == L(ResStatusCode) && b !in DECIMAL && b !in [' ', '\r', '\n']
    ensures Run(env, k, [b]).stop == 13
  {
    DigitsDecimal(b);
    hide Run, Rank, UrlStep, NameStep, ValueStep, BodyStep, DECIMAL;
    var k1 := Past(k, To(k.core, L(ResStatusCodeOtherwise)), 0);
    Move(env, k, [b], k1.core, false);
    RunOne(env, k1, [b], FailAt(k1.core, 13));
  }
}
