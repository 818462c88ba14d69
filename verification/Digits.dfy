/**
  Writing numbers: the digits of a base in order, and the numeral of every number in it.
*/
module Digits {
  import opened Http

  const DECIMAL: seq<byte> := "0123456789"
  const LOWER_HEX: seq<byte> := "0123456789abcdef"
  const UPPER_HEX: seq<byte> := "0123456789ABCDEF"

  /** Division by the base, the last digit first. */
  function Numeral(digits: seq<byte>, n: nat): seq<byte>
    requires |digits| >= 2
  {
    if n < |digits| then [digits[n]] else Numeral(digits, n / |digits|) + [digits[n % |digits|]]
  }

  predicate IsHexadecimal(digits: seq<byte>) { digits == LOWER_HEX || digits == UPPER_HEX }

  lemma DigitsDecimal(b: byte)
    ensures |DECIMAL| == 10 && (b in DECIMAL <==> IsDigit(b))
    ensures forall d :: 0 <= d < 10 ==> IsDigit(DECIMAL[d]) && DigitVal(DECIMAL[d]) == d
  {
    if IsDigit(b) { assert b == DECIMAL[DigitVal(b)]; }
  }

  lemma DigitsHexadecimal(digits: seq<byte>, b: byte)
    requires IsHexadecimal(digits)
    ensures |digits| == 16 && (IsHex(b) <==> b in LOWER_HEX || b in UPPER_HEX)
    ensures forall d :: 0 <= d < 16 ==> IsHex(digits[d]) && HexVal(digits[d]) == d
  {
    if IsHex(b) { assert b == LOWER_HEX[HexVal(b)] || b == UPPER_HEX[HexVal(b)]; }
  }
}
