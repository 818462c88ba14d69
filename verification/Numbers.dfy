/**
  The three bounded accumulators (3rd/llhttp/llhttp.c:8284-8308, 8463-8487, 8562-8591).
*/
module Numbers {
  import opened Http

  /** The register after one step, and whether the step reported an overflow. */
  datatype Sum = Sum(value: nat, overflow: bool)

  /** `c_mul_add_content_length` (base 16) and `c_mul_add_content_length_1` (base 10). */
  function MulAdd(base: nat, v: nat, digit: nat): Sum
    requires base > 0 && digit <= MAX_U64
  {
    if v > MAX_U64 / base then Sum(v, true)
    else if v * base > MAX_U64 - digit then Sum(v * base, true)
    else Sum(v * base + digit, false)
  }

  /** `c_mul_add_status_code`: 16-bit arithmetic with a cap of 999. */
  function MulAddStatus(v: nat, digit: nat): Sum
    requires digit <= 9
  {
    if v > MAX_U16 / 10 then Sum(v, true)
    else if v * 10 > MAX_U16 - digit then Sum(v * 10, true)
    else Sum(v * 10 + digit, v * 10 + digit > 999)
  }

  // ---------------------------------------------------------------- the value of a numeral

  function Power(base: nat, n: nat): nat { if n == 0 then 1 else base * Power(base, n - 1) }

  /** The value a numeral denotes, by the weight of each place. */
  function Denotes(base: nat, digits: seq<nat>): nat {
    if digits == [] then 0 else digits[0] * Power(base, |digits| - 1) + Denotes(base, digits[1..])
  }

  /** A step of the 64-bit accumulators overflows exactly when the result needs more than 64 bits. */
  lemma MulAddExact(base: nat, v: nat, digit: nat)
    requires 0 < base <= MAX_U64 && digit <= MAX_U64
    ensures var s := MulAdd(base, v, digit);
            (s.overflow <==> v * base + digit > MAX_U64) && (!s.overflow ==> s.value == v * base + digit)
  {
    if v > MAX_U64 / base {
      assert v >= MAX_U64 / base + 1;
      assert v * base >= (MAX_U64 / base + 1) * base;
    }
  }

  /** Reading on from `v`: shifts v past the remaining places. */
  lemma {:induction false} Shifted(base: nat, v: nat, digits: seq<nat>)
    requires digits != []
    ensures v * Power(base, |digits|) + Denotes(base, digits)
         == (v * base + digits[0]) * Power(base, |digits| - 1) + Denotes(base, digits[1..])
  {
    var p := Power(base, |digits| - 1);
    calc {
      v * Power(base, |digits|) + Denotes(base, digits);
      v * (base * p) + (digits[0] * p + Denotes(base, digits[1..]));
      { assert v * (base * p) == (v * base) * p; }
      (v * base) * p + digits[0] * p + Denotes(base, digits[1..]);
      (v * base + digits[0]) * p + Denotes(base, digits[1..]);
    }
  }

  lemma {:induction false} PowerPositive(base: nat, n: nat)
    requires base > 0
    ensures Power(base, n) >= 1
  {
    if n > 0 {
      PowerPositive(base, n - 1);
      assert base * Power(base, n - 1) >= 1 * 1;
    }
  }

  /** A value that is too big stays so however many digits follow. */
  lemma StaysAbove(base: nat, v: nat, places: nat, more: nat, bound: nat)
    requires base > 0 && v > bound
    ensures v * Power(base, places) + more > bound
  {
    PowerPositive(base, places);
    assert v * Power(base, places) >= v * 1;
  }
}
