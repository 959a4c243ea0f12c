/** Models of the Go library functions the core calls: UTF-8 encoding of
    strings, `strconv.Atoi`, `fmt.Sprintf("%08x", …)`, `crc32.ChecksumIEEE`
    and the `int32(…)` conversion. */
module GoLib {
  import opened Wrappers

  newtype byte = b: int | 0 <= b < 256

  /** A Go string as the bytes it holds. */
  type Bytes = seq<byte>

  const MinInt32: int := -0x8000_0000
  const MaxInt32: int := 0x7FFF_FFFF
  const MinInt64: int := -0x8000_0000_0000_0000
  const MaxInt64: int := 0x7FFF_FFFF_FFFF_FFFF

  type Int32 = x: int | MinInt32 <= x <= MaxInt32

  /** Go's `int32(x)` of a 64-bit int: keeps the low 32 bits as two's complement. */
  function ToInt32(x: int): (r: Int32)
    ensures MinInt32 <= x <= MaxInt32 ==> r == x
    ensures (x - r) % 0x1_0000_0000 == 0
  {
    (x - MinInt32) % 0x1_0000_0000 + MinInt32
  }

  // ---------------------------------------------------------------- UTF-8

  /** The UTF-8 bytes of one Unicode scalar value. */
  function EncodeRune(c: char): (r: Bytes)
    ensures 1 <= |r| <= 4
    ensures |r| == 1 <==> c as int < 0x80
    ensures |r| == 1 ==> r[0] as int == c as int
    ensures |r| > 1 ==> forall i :: 0 <= i < |r| ==> r[i] >= 0x80
  {
    var n := c as int;
    if n < 0x80 then [n as byte]
    else if n < 0x800 then [(0xC0 + n / 0x40) as byte, (0x80 + n % 0x40) as byte]
    else if n < 0x1_0000 then
      [(0xE0 + n / 0x1000) as byte, (0x80 + (n / 0x40) % 0x40) as byte, (0x80 + n % 0x40) as byte]
    else
      [(0xF0 + n / 0x4_0000) as byte, (0x80 + (n / 0x1000) % 0x40) as byte,
       (0x80 + (n / 0x40) % 0x40) as byte, (0x80 + n % 0x40) as byte]
  }

  /** The bytes of a Go string holding the text `s` (Go's `[]byte(s)`). */
  function Utf8(s: string): Bytes
  {
    if |s| == 0 then [] else EncodeRune(s[0]) + Utf8(s[1..])
  }

  lemma {:induction false} Utf8Concat(a: string, b: string)
    ensures Utf8(a + b) == Utf8(a) + Utf8(b)
  {
    if |a| == 0 {
      assert a + b == b;
    } else {
      assert (a + b)[0] == a[0] && (a + b)[1..] == a[1..] + b;
      Utf8Concat(a[1..], b);
    }
  }

  predicate IsAscii(s: string)
  {
    forall i :: 0 <= i < |s| ==> s[i] as int < 0x80
  }

  /** An ASCII string is one byte per character, each byte its code. */
  lemma {:induction false} Utf8Ascii(s: string)
    requires IsAscii(s)
    ensures |Utf8(s)| == |s|
    ensures forall i :: 0 <= i < |s| ==> Utf8(s)[i] as int == s[i] as int
  {
    if |s| > 0 {
      Utf8Ascii(s[1..]);
    }
  }

  // ---------------------------------------------------------------- strconv.Atoi

  predicate IsDigitChar(c: char)
  {
    '0' <= c <= '9'
  }

  predicate AllDigits(s: string)
  {
    forall i :: 0 <= i < |s| ==> IsDigitChar(s[i])
  }

  /** The value of a string of decimal digits. */
  function DigitsValue(s: string): nat
    requires AllDigits(s)
  {
    if |s| == 0 then 0 else DigitsValue(s[..|s| - 1]) * 10 + (s[|s| - 1] as int - '0' as int)
  }

  /** `strconv.Atoi`: an optional `+` or `-`, then one or more decimal digits, whose
      value fits a 64-bit int; anything else is an error (`None`). */
  function Atoi(s: string): (r: Option<int>)
    ensures r.Some? ==> MinInt64 <= r.value <= MaxInt64
    ensures r.Some? ==> exists i :: 0 <= i < |s| && IsDigitChar(s[i])
  {
    var neg := |s| > 0 && s[0] == '-';
    var digits := if |s| > 0 && (s[0] == '+' || s[0] == '-') then s[1..] else s;
    if |digits| == 0 || !AllDigits(digits) then None
    else
      assert IsDigitChar(s[|s| - 1]);
      var v: int := if neg then -(DigitsValue(digits) as int) else DigitsValue(digits);
      if MinInt64 <= v <= MaxInt64 then Some(v) else None
  }

  function DigitChar(d: nat): char
    requires d < 10
  {
    ('0' as int + d) as char
  }

  /** The shortest decimal digits of `n`. */
  function NatDigits(n: nat): (r: string)
    ensures |r| > 0 && AllDigits(r)
  {
    if n < 10 then [DigitChar(n)] else NatDigits(n / 10) + [DigitChar(n % 10)]
  }

  /** `strconv.Itoa`. */
  function Itoa(n: int): string
  {
    if n < 0 then "-" + NatDigits(-n) else NatDigits(n)
  }

  lemma {:induction false} NatDigitsValue(n: nat)
    ensures DigitsValue(NatDigits(n)) == n
  {
    if n >= 10 {
      var r := NatDigits(n);
      assert r[..|r| - 1] == NatDigits(n / 10);
      NatDigitsValue(n / 10);
    }
  }

  /** Atoi reads back every 64-bit value Itoa prints. */
  lemma AtoiItoa(n: int)
    requires MinInt64 <= n <= MaxInt64
    ensures Atoi(Itoa(n)) == Some(n)
  {
    var s := Itoa(n);
    if n < 0 {
      var digits := NatDigits(-n);
      assert s[0] == '-' && s[1..] == digits;
      NatDigitsValue(-n);
      assert DigitsValue(digits) == -n;
    } else {
      var digits := NatDigits(n);
      assert s == digits && IsDigitChar(s[0]);
      NatDigitsValue(n);
    }
  }

  // ---------------------------------------------------------------- %08x

  predicate IsLowerHex(b: byte)
  {
    48 <= b <= 57 || 97 <= b <= 102
  }

  function HexDigit(d: nat): (b: byte)
    requires d < 16
    ensures IsLowerHex(b)
  {
    if d < 10 then (48 + d) as byte else (87 + d) as byte
  }

  function HexValue(b: byte): nat
  {
    if 48 <= b <= 57 then (b - 48) as nat else if 97 <= b <= 102 then (b - 87) as nat else 0
  }

  function Pow16(k: nat): nat
  {
    if k == 0 then 1 else 16 * Pow16(k - 1)
  }

  /** `n` in lower-case hexadecimal, zero-padded to `width` digits. */
  function FormatHex(n: nat, width: nat): (r: Bytes)
    ensures |r| == width
    ensures forall i :: 0 <= i < |r| ==> IsLowerHex(r[i])
  {
    if width == 0 then [] else FormatHex(n / 16, width - 1) + [HexDigit(n % 16)]
  }

  function ParseHex(s: Bytes): nat
  {
    if |s| == 0 then 0 else ParseHex(s[..|s| - 1]) * 16 + HexValue(s[|s| - 1])
  }

  lemma {:induction false} ParseFormatHex(n: nat, width: nat)
    requires n < Pow16(width)
    ensures ParseHex(FormatHex(n, width)) == n
  {
    if width > 0 {
      var r := FormatHex(n, width);
      assert r[..|r| - 1] == FormatHex(n / 16, width - 1);
      ParseFormatHex(n / 16, width - 1);
    }
  }

  /** `fmt.Sprintf("%08x", d)`: exactly eight lower-case hex digits that read back as `d`. */
  function FormatHex8(d: bv32): (r: Bytes)
    ensures |r| == 8
    ensures forall i :: 0 <= i < 8 ==> IsLowerHex(r[i])
    ensures ParseHex(r) == d as nat
  {
    assert Pow16(8) == 0x1_0000_0000;
    ParseFormatHex(d as nat, 8);
    FormatHex(d as nat, 8)
  }

  // ---------------------------------------------------------------- crc32.ChecksumIEEE

  /** The IEEE 802.3 CRC-32 polynomial in the bit-reversed form the table-less
      algorithm shifts right with. */
  const IeeePolynomial: bv32 := 0xEDB8_8320

  function CrcShift(c: bv32, k: nat): bv32
    decreases k
  {
    if k == 0 then c
    else CrcShift(if c & 1 == 1 then (c >> 1) ^ IeeePolynomial else c >> 1, k - 1)
  }

  function CrcUpdate(c: bv32, data: Bytes): bv32
    decreases |data|
  {
    if |data| == 0 then c else CrcUpdate(CrcShift(c ^ (data[0] as int as bv32), 8), data[1..])
  }

  /** `crc32.ChecksumIEEE`: start from all ones, invert at the end. */
  function ChecksumIEEE(data: Bytes): bv32
  {
    !CrcUpdate(0xFFFF_FFFF, data)
  }
}
