/**
  The numerals of a message as the automaton reads them: Content-Length, chunk sizes and status codes.
*/
module Lengths {
  import opened Http
  import opened Machine
  import opened Numbers
  import opened Automaton
  import opened Semantics

  predicate AllDigits(s: seq<byte>) { forall i :: 0 <= i < |s| ==> IsDigit(s[i]) }

  predicate AllHex(s: seq<byte>) { forall i :: 0 <= i < |s| ==> IsHex(s[i]) }

  function DigitVals(s: seq<byte>): (r: seq<nat>)
    requires AllDigits(s)
    ensures |r| == |s| && forall d :: d in r ==> d <= 9
  {
    if s == [] then [] else [DigitVal(s[0])] + DigitVals(s[1..])
  }

  function HexVals(s: seq<byte>): (r: seq<nat>)
    requires AllHex(s)
    ensures |r| == |s| && forall d :: d in r ==> d <= 15
  {
    if s == [] then [] else [HexVal(s[0])] + HexVals(s[1..])
  }

  /** What the digits `s`, read after the value `v`, stand for. */
  function Extended(base: nat, v: nat, digits: seq<nat>): nat { v * Power(base, |digits|) + Denotes(base, digits) }

  lemma ExtendedStep(base: nat, v: nat, digits: seq<nat>)
    requires digits != []
    ensures Extended(base, v, digits) == Extended(base, v * base + digits[0], digits[1..])
  {
    Shifted(base, v, digits);
  }

  lemma ExtendedTooBig(base: nat, v: nat, digits: seq<nat>, bound: nat)
    requires base > 0 && v > bound
    ensures Extended(base, v, digits) > bound
  {
    StaysAbove(base, v, |digits|, Denotes(base, digits), bound);
  }

  // ---------------------------------------------------------------- Content-Length

  lemma LengthStep(strict: bool, k: Core, b: byte)
    requires k.node == V(Length) && IsDigit(b)
    ensures var s := MulAdd(10, k.length, DigitVal(b));
            Step(strict, k, Some(b)) ==
            Go(To(k.(length := s.value), V(if s.overflow then LengthOverflow else Length)), true)
  {
  }

  /**
    The Content-Length digits.  `content_length` ends as the value it had, shifted past the digits, plus
    the value of the digits; the parser stops exactly when that does not fit in 64 bits.
  */
  lemma {:induction false} ReadLength(env: Env, k: Config, s: seq<byte>, rest: seq<byte>)
    requires k.stop == 0 && k.core.node == V(Length) && k.core.length <= MAX_U64 && AllDigits(s)
    ensures var value := Extended(10, k.core.length, DigitVals(s));
            if value <= MAX_U64 then
              Run(env, k, s + rest) == Run(env, Moved(k, k.core.(length := value), s), rest)
            else
              Run(env, k, s + rest).stop == 11
    decreases |s|
  {
    hide Step, MulAdd, Power, Rank;
    if s == [] {
      assert s + rest == rest;
      assert Extended(10, k.core.length, []) == k.core.length by { ZeroPower(10); }
      MovedNothing(k);
    } else {
      hide Extended;
      var ds, v, b := DigitVals(s), k.core.length, s[0];
      var next := v * 10 + ds[0];
      var sum := MulAdd(10, v, ds[0]);
      MulAddExact(10, v, ds[0]);
      ExtendedStep(10, v, ds);
      assert ds[1..] == DigitVals(s[1..]) && (s + rest)[1..] == s[1..] + rest;
      LengthStep(env.strict, k.core, b);
      var core := To(k.core.(length := sum.value), V(if sum.overflow then LengthOverflow else Length));
      var k' := Taken(k.(core := core), b);
      RunOne(env, k, s + rest, Go(core, true));
      if sum.overflow {
        ExtendedTooBig(10, next, ds[1..], MAX_U64);
        LengthOverflows(env, k', s[1..] + rest);
      } else {
        ReadLength(env, k', s[1..], rest);
        MovedTaken(k, core, b, core.(length := Extended(10, next, ds[1..])), s[1..]);
        assert [b] + s[1..] == s;
      }
    }
  }

  lemma ZeroPower(base: nat)
    ensures Power(base, 0) == 1
  {
  }

  lemma LengthOverflows(env: Env, k: Config, buf: seq<byte>)
    requires k.stop == 0 && k.core.node == V(LengthOverflow)
    ensures Run(env, k, buf).stop == 11
  {
    var k1 := Closing(k).(core := To(k.core, V(LengthOverflowError)));
    assert Step(env.strict, k.core, Head(buf)) == Close(k1.core, false);
    assert Run(env, k, buf) == Run(env, k1, buf);
    assert Step(env.strict, k1.core, Head(buf)).Fail?;
  }

  // ---------------------------------------------------------------- chunk sizes

  lemma SizeStep(strict: bool, k: Core, b: byte)
    requires (k.node == B(ChunkSizeDigit) || k.node == B(ChunkSize)) && IsHex(b)
    ensures var s := MulAdd(16, k.length, HexVal(b));
            Step(strict, k, Some(b)) ==
            Go(To(k.(length := s.value), B(if s.overflow then ChunkSizeOverflow else ChunkSize)), true)
  {
  }

  lemma SizeOverflows(env: Env, k: Config, buf: seq<byte>)
    requires k.stop == 0 && k.core.node == B(ChunkSizeOverflow)
    ensures Run(env, k, buf).stop == 12
  {
    assert Step(env.strict, k.core, Head(buf)) == FailAt(k.core, HPE_INVALID_CHUNK_SIZE);
  }

  /** The hexadecimal digits of a chunk size. */
  lemma {:induction false} ReadSize(env: Env, k: Config, s: seq<byte>, rest: seq<byte>)
    requires k.stop == 0 && k.core.length <= MAX_U64 && AllHex(s)
    requires k.core.node == B(ChunkSize) || (k.core.node == B(ChunkSizeDigit) && s != [])
    ensures var value := Extended(16, k.core.length, HexVals(s));
            if value <= MAX_U64 then
              Run(env, k, s + rest) == Run(env, Moved(k, To(k.core.(length := value), B(ChunkSize)), s), rest)
            else
              Run(env, k, s + rest).stop == 12
    decreases |s|
  {
    hide Step, MulAdd, Power, Rank;
    if s == [] {
      assert s + rest == rest;
      assert Extended(16, k.core.length, []) == k.core.length by { ZeroPower(16); }
      MovedNothing(k);
    } else {
      hide Extended;
      var ds, v, b := HexVals(s), k.core.length, s[0];
      var next := v * 16 + ds[0];
      var sum := MulAdd(16, v, ds[0]);
      MulAddExact(16, v, ds[0]);
      ExtendedStep(16, v, ds);
      assert ds[1..] == HexVals(s[1..]) && (s + rest)[1..] == s[1..] + rest;
      SizeStep(env.strict, k.core, b);
      var core := To(k.core.(length := sum.value), B(if sum.overflow then ChunkSizeOverflow else ChunkSize));
      var k' := Taken(k.(core := core), b);
      RunOne(env, k, s + rest, Go(core, true));
      if sum.overflow {
        ExtendedTooBig(16, next, ds[1..], MAX_U64);
        SizeOverflows(env, k', s[1..] + rest);
      } else {
        ReadSize(env, k', s[1..], rest);
        MovedTaken(k, core, b, core.(length := Extended(16, next, ds[1..])), s[1..]);
        assert [b] + s[1..] == s;
      }
    }
  }

  // ---------------------------------------------------------------- status codes

  lemma StatusStep(strict: bool, k: Core, b: byte)
    requires k.node == L(ResStatusCode) && IsDigit(b)
    ensures var s := MulAddStatus(k.line.status, DigitVal(b));
            Step(strict, k, Some(b)) ==
            Go(To(k.(line := k.line.(status := s.value)), L(if s.overflow then ResStatusOverflow else ResStatusCode)),
                true)
  {
  }

  lemma StatusOverflows(env: Env, k: Config, buf: seq<byte>)
    requires k.stop == 0 && k.core.node == L(ResStatusOverflow)
    ensures Run(env, k, buf).stop == 13
  {
    assert Step(env.strict, k.core, Head(buf)) == FailAt(k.core, HPE_INVALID_STATUS);
  }

  /** The digits of a status code: accepted exactly up to 999. */
  lemma {:induction false} ReadStatus(env: Env, k: Config, s: seq<byte>, rest: seq<byte>)
    requires k.stop == 0 && k.core.node == L(ResStatusCode) && k.core.line.status <= 999 && AllDigits(s)
    ensures var value := Extended(10, k.core.line.status, DigitVals(s));
            if value <= 999 then
              Run(env, k, s + rest) == Run(env, Moved(k, k.core.(line := k.core.line.(status := value)), s), rest)
            else
              Run(env, k, s + rest).stop == 13
    decreases |s|
  {
    hide Step, Power, Rank;
    if s == [] {
      assert s + rest == rest && Extended(10, k.core.line.status, []) == k.core.line.status by {
        assert Power(10, 0) == 1 by { ZeroPower(10); }
      }
      MovedNothing(k);
    } else {
      hide Extended;
      var ds, v, b := DigitVals(s), k.core.line.status, s[0];
      var next := v * 10 + ds[0];
      var sum := MulAddStatus(v, ds[0]);
      ExtendedStep(10, v, ds);
      assert ds[1..] == DigitVals(s[1..]) && (s + rest)[1..] == s[1..] + rest;
      StatusStep(env.strict, k.core, b);
      var core := To(k.core.(line := k.core.line.(status := sum.value)),
          L(if sum.overflow then ResStatusOverflow else ResStatusCode));
      var k' := Taken(k.(core := core), b);
      RunOne(env, k, s + rest, Go(core, true));
      if sum.overflow {
        ExtendedTooBig(10, next, ds[1..], 999);
        StatusOverflows(env, k', s[1..] + rest);
      } else {
        ReadStatus(env, k', s[1..], rest);
        MovedTaken(k, core, b, core.(line := core.line.(status := Extended(10, next, ds[1..]))), s[1..]);
        assert [b] + s[1..] == s;
      }
    }
  }
}
