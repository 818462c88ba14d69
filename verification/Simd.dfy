/**
  The 16-byte range scans of the SSE4.2 build (3rd/llhttp/llhttp.c:7637-7678).
*/
module Simd {
  import opened Http

  /** Byte ranges as `_mm_cmpestri` takes them: pairs of inclusive bounds. */
  type Ranges = seq<(byte, byte)>

  const VALUE_RANGES: Ranges := [('\t', '\t'), (' ', '~'), ('\U{80}', '\U{FF}')]
  const URL_PATH_RANGES: Ranges :=
    [('\t', '\t'), ('\U{0C}', '\U{0C}'), ('!', '"'), ('$', '>'), ('@', '~'), ('\U{80}', '\U{FF}')]
  const TILDE_RANGES: Ranges := [('~', '~')]

  function FieldRanges(strict: bool): Ranges {
    var first := if strict then '!' else ' ';
    [(first, '!'), ('#', '\''), ('*', '+'), ('-', '.'), ('0', '9'), ('A', 'Z'), ('^', 'z'), ('|', '|')]
  }

  predicate InRange(r: (byte, byte), b: byte) { r.0 <= b <= r.1 }

  predicate InRanges(rs: Ranges, b: byte) { exists i :: 0 <= i < |rs| && InRange(rs[i], b) }

  /** The index `_mm_cmpestri` yields with negative polarity: the first byte outside every range. */
  function FirstOutside(rs: Ranges, block: seq<byte>): (n: nat)
    ensures n <= |block|
    ensures forall i :: 0 <= i < n ==> InRanges(rs, block[i])
    ensures n < |block| ==> !InRanges(rs, block[n])
  {
    if block == [] || !InRanges(rs, block[0]) then 0 else 1 + FirstOutside(rs, block[1..])
  }

  // A scan over the ranges of a table stops where the table's loop stops, at every byte.

  lemma ValueRanges(b: byte)
    ensures InRanges(VALUE_RANGES, b) <==> IsValueByte(b)
  {
    var rs := VALUE_RANGES;
    assert IsValueByte(b) ==> InRange(rs[0], b) || InRange(rs[1], b) || InRange(rs[2], b);
  }

  lemma UrlPathRanges(b: byte)
    ensures InRanges(URL_PATH_RANGES, b) <==> IsUrlPathByte(b)
  {
    var rs := URL_PATH_RANGES;
    assert IsUrlPathByte(b) ==>
        || InRange(rs[0], b) || InRange(rs[1], b) || InRange(rs[2], b)
        || InRange(rs[3], b) || InRange(rs[4], b) || InRange(rs[5], b);
  }

  lemma FieldNameRanges(strict: bool, b: byte)
    ensures InRanges(FieldRanges(strict), b) || InRanges(TILDE_RANGES, b) <==> IsFieldByte(strict, b)
  {
    var rs := FieldRanges(strict);
    assert b == '~' ==> InRange(TILDE_RANGES[0], b);
    assert IsFieldByte(strict, b) && b != '~' ==>
        || InRange(rs[0], b) || InRange(rs[1], b) || InRange(rs[2], b) || InRange(rs[3], b)
        || InRange(rs[4], b) || InRange(rs[5], b) || InRange(rs[6], b) || InRange(rs[7], b);
  }
}
