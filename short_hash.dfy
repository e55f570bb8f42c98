/**
 * `generateShortHash` of the JSON reporter: a Java-style rolling hash over the UTF-16 code units of a test
 * title, kept in a signed 32-bit integer, printed as the hexadecimal digits of its absolute value, padded
 * with zeros to eight characters.
 */
module ShortHash {

  const Two31: int := 0x8000_0000
  const Two32: int := 0x1_0000_0000

  predicate IsInt32(x: int) {
    -Two31 <= x < Two31
  }

  /** ECMAScript's ToInt32, which `x | 0` and `x << n` apply: wrap an integer into the signed 32-bit range. */
  function ToInt32(x: int): (r: int)
    ensures IsInt32(r)
  {
    (x + Two31) % Two32 - Two31
  }

  /** Integers that differ by a multiple of 2^32 wrap to the same 32-bit value, and a 32-bit value wraps to itself. */
  lemma ToInt32Congruent(a: int, b: int, q: int)
    requires a == b + q * Two32
    ensures ToInt32(a) == ToInt32(b)
    ensures IsInt32(b) ==> ToInt32(b) == b
  {
  }

  /** `h << 5` on a 32-bit integer. */
  function ShiftLeft5(h: int): int
    requires IsInt32(h)
  {
    ToInt32(h * 32)
  }

  /** One step of the loop: `hash = ((hash << 5) - hash) + code; hash |= 0`. */
  function HashStep(h: int, unit: int): int
    requires IsInt32(h)
  {
    ToInt32(ShiftLeft5(h) - h + unit)
  }

  /** The step is `hash * 31 + code` wrapped to 32 bits: the shift's own wrap-around does not change it. */
  lemma HashStepIsTimes31(h: int, unit: int)
    requires IsInt32(h)
    ensures HashStep(h, unit) == ToInt32(31 * h + unit)
  {
    var q := (h * 32 + Two31) / Two32;
    assert ShiftLeft5(h) == h * 32 - q * Two32;
    ToInt32Congruent(31 * h + unit, ShiftLeft5(h) - h + unit, q);
  }

  /** A UTF-16 code unit, what `charCodeAt` returns. */
  predicate IsCodeUnit(u: int) {
    0 <= u < 0x1_0000
  }

  /** The UTF-16 code units of a string, which is what a JavaScript string is made of. */
  function CodeUnits(s: string): (units: seq<int>)
    ensures forall i :: 0 <= i < |units| ==> IsCodeUnit(units[i])
    ensures |units| == 0 <==> s == []
  {
    if s == [] then []
    else
      var c := s[0] as int;
      var first := if c < 0x1_0000 then [c] else [0xD800 + (c - 0x1_0000) / 0x400, 0xDC00 + (c - 0x1_0000) % 0x400];
      first + CodeUnits(s[1..])
  }

  /** The value of `hash` after the loop has read all of `units`; it never leaves the signed 32-bit range. */
  function RollingHash(units: seq<int>): (h: int)
    ensures IsInt32(h)
  {
    if units == [] then 0 else HashStep(RollingHash(units[..|units| - 1]), units[|units| - 1])
  }

  predicate IsLowerHexDigit(c: char) {
    '0' <= c <= '9' || 'a' <= c <= 'f'
  }

  predicate IsLowerHex(s: string) {
    forall i :: 0 <= i < |s| ==> IsLowerHexDigit(s[i])
  }

  function HexDigit(d: nat): (c: char)
    requires d < 16
    ensures IsLowerHexDigit(c)
  {
    if d < 10 then '0' + d as char else 'a' + (d - 10) as char
  }

  function DigitValue(c: char): (d: nat)
    requires IsLowerHexDigit(c)
    ensures d < 16
  {
    if c <= '9' then (c - '0') as nat else (c - 'a') as nat + 10
  }

  /** `n.toString(16)`: lower-case hexadecimal digits, no leading zero except for 0 itself. */
  function ToHex(n: nat): (r: string)
    ensures 1 <= |r| && IsLowerHex(r)
    decreases n
  {
    if n < 16 then [HexDigit(n)] else ToHex(n / 16) + [HexDigit(n % 16)]
  }

  /** The number a string of lower-case hexadecimal digits denotes. */
  function HexValue(s: string): nat
    requires IsLowerHex(s)
  {
    if s == [] then 0 else HexValue(s[..|s| - 1]) * 16 + DigitValue(s[|s| - 1])
  }

  /** Reading back the digits `toString(16)` prints gives the number. */
  lemma {:induction false} HexRoundTrip(n: nat)
    ensures HexValue(ToHex(n)) == n
    decreases n
  {
    if n >= 16 {
      HexRoundTrip(n / 16);
      var r := ToHex(n);
      assert r[..|r| - 1] == ToHex(n / 16);
    }
  }

  function Pow16(k: nat): nat {
    if k == 0 then 1 else 16 * Pow16(k - 1)
  }

  /** A number below 16^k prints with at most k digits. */
  lemma {:induction false} ToHexLength(n: nat, k: nat)
    requires 1 <= k && n < Pow16(k)
    ensures |ToHex(n)| <= k
    decreases n
  {
    if n >= 16 {
      assert k != 1 by {
        assert Pow16(1) == 16;
      }
      ToHexLength(n / 16, k - 1);
    }
  }

  /** `padStart(len, '0')` */
  function PadZeros(s: string, len: nat): (r: string)
  {
    if |s| >= len then s else seq(len - |s|, _ => '0') + s
  }

  /** Leading zeros do not change the value of a hexadecimal string. */
  lemma {:induction false} LeadingZeros(k: nat, s: string)
    requires IsLowerHex(s)
    ensures IsLowerHex(seq(k, _ => '0') + s) && HexValue(seq(k, _ => '0') + s) == HexValue(s)
    decreases k + |s|
  {
    var z := seq(k, _ => '0');
    var t := z + s;
    if s == [] {
      assert t == z;
      if k > 0 {
        assert t[..|t| - 1] == seq(k - 1, _ => '0') + [];
        LeadingZeros(k - 1, []);
      }
    } else {
      assert t[..|t| - 1] == z + s[..|s| - 1];
      LeadingZeros(k, s[..|s| - 1]);
    }
  }

  function Abs(x: int): nat {
    if x < 0 then -x else x
  }

  /** `generateShortHash(input)`, the expression the method computes. */
  function ShortHash(input: string): string
  {
    var units := CodeUnits(input);
    if |units| == 0 then "00000000"
    else
      var padded := PadZeros(ToHex(Abs(RollingHash(units))), 8);
      if |padded| <= 8 then padded else padded[..8]
  }

  /**
   * The hash is exactly eight lower-case hexadecimal digits that denote the absolute value of the 32-bit
   * rolling hash; for the empty title that is `"00000000"`.
   */
  lemma ShortHashShape(input: string)
    ensures |ShortHash(input)| == 8 && IsLowerHex(ShortHash(input))
    ensures HexValue(ShortHash(input)) == Abs(RollingHash(CodeUnits(input)))
    ensures input == "" ==> ShortHash(input) == "00000000"
  {
    var units := CodeUnits(input);
    var n := Abs(RollingHash(units));
    if |units| == 0 {
      assert ShortHash(input) == seq(8, _ => '0') + [];
      LeadingZeros(8, []);
    } else {
      assert Pow16(8) == 0x1_0000_0000;
      ToHexLength(n, 8);
      HexRoundTrip(n);
      var hex := ToHex(n);
      LeadingZeros(8 - |hex|, hex);
    }
  }

  /** The loop of `generateShortHash`. */
  method GenerateShortHash(input: string) returns (r: string)
    ensures r == ShortHash(input)
  {
    var units := CodeUnits(input);
    var hash := 0;
    if |units| == 0 {
      return "00000000";
    }
    var i := 0;
    while i < |units|
      invariant 0 <= i <= |units|
      invariant hash == RollingHash(units[..i])
    {
      assert units[..i + 1][..i] == units[..i];
      hash := ShiftLeft5(hash) - hash + units[i];
      hash := ToInt32(hash);
      i := i + 1;
    }
    assert units[..i] == units;
    var padded := PadZeros(ToHex(Abs(hash)), 8);
    r := if |padded| <= 8 then padded else padded[..8];
  }
}
