/** Bytes, the character classes the lexer tests, and decimal rendering of
    numbers.

    Go's `unicode.IsLetter`, `unicode.IsDigit` and `unicode.IsSpace` are
    applied to `rune(b)` for a byte `b`, so each byte is read as the Latin-1
    code point of the same value; the predicates below are those tables
    restricted to the range 0..255. */
module Text {

  newtype byte = b: int | 0 <= b < 256

  /** The sentinel the lexer sees past the end of the buffer (lexer.go:5). */
  const EOF: byte := 0x04

  const EQUAL_SIGN: byte := 0x3D
  const PLUS_SIGN: byte := 0x2B
  const LESS_SIGN: byte := 0x3C
  const COLON: byte := 0x3A
  const UNDERSCORE: byte := 0x5F

  /** Latin-1 letters: A-Z, a-z, ª, µ, º, À-Ö, Ø-ö, ø-ÿ. */
  predicate IsLetter(b: byte) {
    || (0x41 <= b <= 0x5A)
    || (0x61 <= b <= 0x7A)
    || b == 0xAA || b == 0xB5 || b == 0xBA
    || (0xC0 <= b <= 0xD6)
    || (0xD8 <= b <= 0xF6)
    || (0xF8 <= b)
  }

  /** The only decimal digits below U+0100 are 0-9. */
  predicate IsDigit(b: byte) {
    0x30 <= b <= 0x39
  }

  /** Tab, line feed, vertical tab, form feed, carriage return, space,
      NEL (U+0085) and no-break space (U+00A0). */
  predicate IsSpace(b: byte) {
    (0x09 <= b <= 0x0D) || b == 0x20 || b == 0x85 || b == 0xA0
  }

  /** Bytes that may appear in an identifier or label name. */
  predicate IsWordByte(b: byte) {
    IsLetter(b) || b == UNDERSCORE
  }

  function ToChar(b: byte): char {
    (b as int) as char
  }

  /** Go's `string(bs)`, which keeps the raw bytes: here each byte is
      represented by the character with the same code, one for one. */
  function Latin1(bs: seq<byte>): (s: string)
    ensures |s| == |bs|
    ensures forall i :: 0 <= i < |bs| ==> s[i] == ToChar(bs[i])
  {
    seq(|bs|, i requires 0 <= i < |bs| => ToChar(bs[i]))
  }

  /** The bytes of a string whose characters are all below 256. */
  function Bytes(s: string): (bs: seq<byte>)
    requires forall i :: 0 <= i < |s| ==> s[i] as int < 256
    ensures Latin1(bs) == s
  {
    seq(|s|, i requires 0 <= i < |s| => s[i] as int as byte)
  }

  predicate IsDigitChar(c: char) {
    '0' <= c <= '9'
  }

  function DigitChar(d: nat): (c: char)
    requires d < 10
    ensures IsDigitChar(c)
  {
    ('0' as int + d) as char
  }

  /** Decimal rendering, as Go's `%d` prints a non-negative int: digits
      only, and no leading zero except for 0 itself. */
  function NatToString(n: nat): (s: string)
    ensures |s| >= 1
    ensures forall i :: 0 <= i < |s| ==> IsDigitChar(s[i])
    ensures n < 10 <==> |s| == 1
    ensures n >= 10 ==> s[0] != '0'
  {
    if n < 10 then [DigitChar(n)] else NatToString(n / 10) + [DigitChar(n % 10)]
  }

  /** Reads a run of decimal digits back as a number. */
  function ParseNat(s: string): nat
    requires forall i :: 0 <= i < |s| ==> IsDigitChar(s[i])
  {
    if |s| == 0 then 0
    else
      assert IsDigitChar(s[|s| - 1]);
      ParseNat(s[..|s| - 1]) * 10 + (s[|s| - 1] as int - '0' as int)
  }

  lemma {:induction false} ParseNatRoundTrip(n: nat)
    ensures ParseNat(NatToString(n)) == n
  {
    var s := NatToString(n);
    if n >= 10 {
      assert s[..|s| - 1] == NatToString(n / 10);
      ParseNatRoundTrip(n / 10);
    }
  }

  /** Distinct numbers print differently, so labels built from them differ. */
  lemma NatToStringInjective(m: nat, n: nat)
    ensures NatToString(m) == NatToString(n) ==> m == n
  {
    ParseNatRoundTrip(m);
    ParseNatRoundTrip(n);
  }
}
