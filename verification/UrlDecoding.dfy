/**
  In-place decoding of form-encoded text, functions/http/request.c:16-56.
*/
module UrlDecoding {
  import opened Http
  import opened Digits

  const NUL: byte := '\0'

  /** `tolower`, on the bytes for which `isupper` holds. */
  function HtoiDigit(b: byte): int {
    var c := Lower(b) as int;
    if '0' as int <= c <= '9' as int then c - '0' as int else c - 'a' as int + 10
  }

  /** `url_htoi` */
  function Htoi(high: byte, low: byte): int { HtoiDigit(high) * 16 + HtoiDigit(low) }

  lemma HtoiIsHex(high: byte, low: byte)
    requires IsHex(high) && IsHex(low)
    ensures Htoi(high, low) == 16 * HexVal(high) + HexVal(low) && 0 <= Htoi(high, low) < 0x100
  {
  }

  /** A percent sign and two hexadecimal digits. */
  predicate IsEscape(s: seq<byte>) { |s| >= 3 && s[0] == '%' && IsHex(s[1]) && IsHex(s[2]) }

  /** The decoded text, as a function of the original bytes. */
  function Decode(s: seq<byte>): seq<byte>
    decreases |s|
  {
    if s == [] then []
    else if s[0] == '+' then [SP] + Decode(s[1..])
    else if IsEscape(s) then [(16 * HexVal(s[1]) + HexVal(s[2])) as char] + Decode(s[3..])
    else [s[0]] + Decode(s[1..])
  }

  /**
    `url_decode`: the buffer is its own destination.  The decoded bytes and a NUL replace the front of
    the text; the write cursor never passes the read cursor, so what lies behind the NUL is untouched.
  */
  method UrlDecode(str: array<byte>, len: nat) returns (n: nat)
    requires len < str.Length
    modifies str
    ensures n == |Decode(old(str[..len]))| && n <= len
    ensures str[..n] == Decode(old(str[..len])) && str[n] == NUL
    ensures forall i :: n < i < str.Length ==> str[i] == old(str[i])
  {
    ghost var was := str[..len];
    var dest: nat, data: nat, left: nat := 0, 0, len;
    while left != 0
      invariant dest <= data && data + left == len
      invariant str[..dest] + Decode(was[data..]) == Decode(was)
      invariant forall i :: dest <= i < str.Length ==> str[i] == old(str[i])
    {
      ghost var text, done := was[data..], str[..dest];
      left := left - 1;
      if str[data] == '+' {
        str[dest] := SP;
      } else if str[data] == '%' && left >= 2 && IsHex(str[data + 1]) && IsHex(str[data + 2]) {
        HtoiIsHex(str[data + 1], str[data + 2]);
        str[dest] := Htoi(str[data + 1], str[data + 2]) as char;
        data := data + 2;
        left := left - 2;
      } else {
        str[dest] := str[data];
      }
      data := data + 1;
      Advances(text, str[dest], was[data..], done);
      dest := dest + 1;
      assert str[..dest] == done + [str[dest - 1]];
    }
    assert was[data..] == [];
    str[dest] := NUL;
    n := dest;
    DecodeShrinks(was);
  }

  /** One turn of the loop moves one decoded byte from what is to be read to what has been written. */
  lemma Advances(text: seq<byte>, b: byte, rest: seq<byte>, done: seq<byte>)
    requires text != []
    requires if text[0] == '+' then b == SP && rest == text[1..]
             else if IsEscape(text) then b as int == 16 * HexVal(text[1]) + HexVal(text[2]) && rest == text[3..]
             else b == text[0] && rest == text[1..]
    ensures done + [b] + Decode(rest) == done + Decode(text)
  {
    assert Decode(text) == [b] + Decode(rest);
    assert done + [b] + Decode(rest) == done + ([b] + Decode(rest));
  }

  // ---------------------------------------------------------------- form encoding

  /** The ways to write one byte: as itself, a space as a plus sign, or any byte as an escape in either case. */
  predicate Spells(code: seq<byte>, b: byte) {
    || (code == [b] && b != '+' && b != '%')
    || (code == ['+'] && b == SP)
    || (|code| == 3 && IsEscape(code) && 16 * HexVal(code[1]) + HexVal(code[2]) == b as int)
  }

  function Joined(codes: seq<seq<byte>>): seq<byte> {
    if codes == [] then [] else codes[0] + Joined(codes[1..])
  }

  /** Decoding undoes every form encoding of every byte string, whatever the encoder chose to escape. */
  lemma {:induction false} DecodeInvertsEncoding(codes: seq<seq<byte>>, s: seq<byte>)
    requires |codes| == |s| && forall i :: 0 <= i < |s| ==> Spells(codes[i], s[i])
    ensures Decode(Joined(codes)) == s
    decreases |s|
  {
    if s != [] {
      var code, more := codes[0], Joined(codes[1..]);
      DecodeInvertsEncoding(codes[1..], s[1..]);
      DecodeOne(code, s[0], more);
    }
  }

  lemma DecodeOne(code: seq<byte>, b: byte, more: seq<byte>)
    requires Spells(code, b)
    ensures Decode(code + more) == [b] + Decode(more)
  {
    assert (code + more)[|code|..] == more;
  }

  /** A percent sign and the two digits of a byte, each small or capital as the encoder likes, are that byte. */
  lemma EscapeDecodes(b: byte, high: seq<byte>, low: seq<byte>, more: seq<byte>)
    requires (high == LOWER_HEX || high == UPPER_HEX) && (low == LOWER_HEX || low == UPPER_HEX)
    ensures |high| == |low| == 16
    ensures Decode(['%', high[b as int / 16], low[b as int % 16]] + more) == [b] + Decode(more)
  {
    DigitsHexadecimal(high, b);
    DigitsHexadecimal(low, b);
    hide LOWER_HEX, UPPER_HEX, IsHex, HexVal;
    DecodeOne(['%', high[b as int / 16], low[b as int % 16]], b, more);
  }

  /** A percent sign before anything else is kept. */
  lemma PercentKept(s: seq<byte>)
    requires s != [] && s[0] == '%'
    requires |s| < 3 || !(s[1] in LOWER_HEX || s[1] in UPPER_HEX) || !(s[2] in LOWER_HEX || s[2] in UPPER_HEX)
    ensures Decode(s) == ['%'] + Decode(s[1..])
  {
    hide LOWER_HEX, UPPER_HEX, IsHex, HexVal;
    if |s| >= 3 {
      DigitsHexadecimal(LOWER_HEX, s[1]);
      DigitsHexadecimal(LOWER_HEX, s[2]);
    }
  }

  /** The usual encoder: letters and digits as they are, a space as a plus sign, everything else escaped. */
  predicate Plain(b: byte) { IsDigit(b) || IsAlpha(b) || b == '-' || b == '.' || b == '_' || b == '*' }

  function EncodeByte(digits: seq<byte>, b: byte): seq<byte>
    requires |digits| == 16
  {
    if Plain(b) then [b] else if b == SP then ['+'] else ['%', digits[b as int / 16], digits[b as int % 16]]
  }

  function Encode(digits: seq<byte>, s: seq<byte>): seq<byte>
    requires |digits| == 16
  {
    if s == [] then [] else EncodeByte(digits, s[0]) + Encode(digits, s[1..])
  }

  /** Decoding undoes it, whether it writes its digits with small or with capital letters. */
  lemma {:induction false} RoundTrip(digits: seq<byte>, s: seq<byte>)
    requires digits == LOWER_HEX || digits == UPPER_HEX
    ensures |digits| == 16 && Decode(Encode(digits, s)) == s
    decreases |s|
  {
    DigitsHexadecimal(digits, '0');
    hide LOWER_HEX, UPPER_HEX, IsHex, HexVal;
    if s != [] {
      RoundTrip(digits, s[1..]);
      var code, more := EncodeByte(digits, s[0]), Encode(digits, s[1..]);
      if Plain(s[0]) || s[0] == SP { DecodeOne(code, s[0], more); } else { EscapeDecodes(s[0], digits, digits, more); }
    }
  }

  /** No plus sign and no escape. */
  predicate Untouched(s: seq<byte>) { '+' !in s && forall i :: 0 <= i < |s| ==> !IsEscape(s[i..]) }

  lemma UntouchedFirst(s: seq<byte>)
    requires s != []
    ensures Untouched(s) <==> s[0] != '+' && !IsEscape(s) && Untouched(s[1..])
  {
    hide IsEscape;
    var rest := s[1..];
    assert s[0..] == s;
    assert forall i :: 0 <= i < |rest| ==> rest[i..] == s[i + 1..];
    assert forall i :: 0 < i < |s| ==> s[i..] == rest[i - 1..];
  }

  /** Text is left alone exactly when it has no plus sign and no escape. */
  lemma {:induction false} DecodeLeavesAlone(s: seq<byte>)
    ensures Decode(s) == s <==> '+' !in s && forall i :: 0 <= i < |s| ==> !IsEscape(s[i..])
    decreases |s|
  {
    hide IsEscape, IsHex, HexVal, Untouched;
    assert Untouched(s) <==> '+' !in s && forall i :: 0 <= i < |s| ==> !IsEscape(s[i..]) by { UntouchedIs(s); }
    if s == [] {
      assert Decode(s) == s;
    } else {
      UntouchedFirst(s);
      DecodeLeavesAlone(s[1..]);
      UntouchedIs(s[1..]);
      DecodeFirst(s);
    }
  }

  lemma UntouchedIs(s: seq<byte>)
    ensures Untouched(s) <==> '+' !in s && forall i :: 0 <= i < |s| ==> !IsEscape(s[i..])
  {
    hide IsEscape;
  }

  lemma DecodeFirst(s: seq<byte>)
    requires s != []
    ensures Decode(s) == s <==> s[0] != '+' && !IsEscape(s) && Decode(s[1..]) == s[1..]
  {
    hide IsHex, HexVal;
    if IsEscape(s) {
      DecodeShrinks(s[3..]);
    } else if s[0] != '+' {
      assert Decode(s) == [s[0]] + Decode(s[1..]) && s == [s[0]] + s[1..];
      assert Decode(s) == s ==> Decode(s)[1..] == s[1..];
    }
  }

  lemma {:induction false} DecodeShrinks(s: seq<byte>)
    ensures |Decode(s)| <= |s|
    decreases |s|
  {
    if s != [] {
      DecodeShrinks(s[1..]);
      if IsEscape(s) { DecodeShrinks(s[3..]); }
    }
  }
}
