/**
 * The parts of the Kotlin/JVM platform that the modelled code leans on:
 * fixed-width integers, ASCII case mapping and the ignore-case string
 * comparisons built on it, decimal rendering of numbers, and the
 * hash codes of `String`, `Int` and `Boolean`.
 */
module Jvm {

  /** 2^32, the modulus of Kotlin `Int` arithmetic. */
  const TWO_32: int := 0x1_0000_0000

  /** A Kotlin `Int`. */
  type Int32 = x: int | -0x8000_0000 <= x < 0x8000_0000

  /** A Kotlin `Long`. */
  type Int64 = x: int | -0x8000_0000_0000_0000 <= x < 0x8000_0000_0000_0000

  /** Two's-complement wrap-around: the one `Int` congruent to `x` modulo 2^32. */
  function Wrap32(x: int): (r: Int32)
    ensures (x - r) % TWO_32 == 0
  {
    (x + 0x8000_0000) % TWO_32 - 0x8000_0000
  }

  /** Wrapping only depends on the residue modulo 2^32. */
  lemma Wrap32Congruent(a: int, b: int)
    requires (a - b) % TWO_32 == 0
    ensures Wrap32(a) == Wrap32(b)
  {
    var k := (a - b) / TWO_32;
    assert a == b + k * TWO_32;
    assert (a + 0x8000_0000) % TWO_32 == (b + 0x8000_0000) % TWO_32;
  }

  // ---------------------------------------------------------------- ASCII case

  /** Every character is in the 7-bit ASCII range. */
  predicate IsAscii(s: string) {
    forall i :: 0 <= i < |s| ==> s[i] as int < 128
  }

  predicate IsLowerLetter(c: char) { 'a' <= c <= 'z' }

  predicate IsUpperLetter(c: char) { 'A' <= c <= 'Z' }

  /** `Char.uppercaseChar()` restricted to ASCII. */
  function UpperChar(c: char): char {
    if IsLowerLetter(c) then (c as int - 32) as char else c
  }

  /** `Char.lowercaseChar()` restricted to ASCII. */
  function LowerChar(c: char): char {
    if IsUpperLetter(c) then (c as int + 32) as char else c
  }

  /** `String.uppercase()` on an ASCII string. */
  function Upper(s: string): (r: string)
    ensures |r| == |s|
    ensures forall i :: 0 <= i < |s| ==> r[i] == UpperChar(s[i])
  {
    if s == [] then [] else [UpperChar(s[0])] + Upper(s[1..])
  }

  /** `String.lowercase()` on an ASCII string. */
  function Lower(s: string): (r: string)
    ensures |r| == |s|
    ensures forall i :: 0 <= i < |s| ==> r[i] == LowerChar(s[i])
  {
    if s == [] then [] else [LowerChar(s[0])] + Lower(s[1..])
  }

  /** Upper-casing a lower-cased string gives the upper-cased string back. */
  lemma UpperOfLower(s: string)
    ensures Upper(Lower(s)) == Upper(s)
  {
    assert forall i :: 0 <= i < |s| ==> Upper(Lower(s))[i] == Upper(s)[i];
  }

  /**
   * `Char.equals(other, ignoreCase = true)`: on ASCII characters its
   * upper-case-then-lower-case comparison is equality after upper-casing.
   */
  predicate CharEqualsIgnoreCase(a: char, b: char) {
    UpperChar(a) == UpperChar(b)
  }

  /** `String.equals(other, ignoreCase = true)` for a non-null `other`. */
  predicate EqualsIgnoreCase(a: string, b: string) {
    |a| == |b| && forall k :: 0 <= k < |a| ==> CharEqualsIgnoreCase(a[k], b[k])
  }

  /** `regionMatches(at, part, 0, part.length, ignoreCase = true)`. */
  predicate RegionMatchesIgnoreCase(text: string, at: nat, part: string) {
    at + |part| <= |text| &&
    forall k :: 0 <= k < |part| ==> CharEqualsIgnoreCase(text[at + k], part[k])
  }

  /** `text.contains(part, ignoreCase = true)`: some position of `text` starts a match. */
  predicate ContainsIgnoreCase(text: string, part: string) {
    exists at: nat :: at + |part| <= |text| && RegionMatchesIgnoreCase(text, at, part)
  }

  /** The empty string is contained in every string (at position 0). */
  lemma ContainsEmpty(text: string)
    ensures ContainsIgnoreCase(text, "")
  {
    assert RegionMatchesIgnoreCase(text, 0, "");
  }

  /** Equality ignoring case is a special case of containment. */
  lemma EqualsIgnoreCaseContains(a: string, b: string)
    requires EqualsIgnoreCase(a, b)
    ensures ContainsIgnoreCase(a, b)
  {
    assert RegionMatchesIgnoreCase(a, 0, b);
  }

  // ---------------------------------------------------------------- decimal

  predicate IsDigit(c: char) { '0' <= c <= '9' }

  predicate AllDigits(s: string) {
    forall i :: 0 <= i < |s| ==> IsDigit(s[i])
  }

  function DigitChar(d: nat): (c: char)
    requires d < 10
    ensures IsDigit(c)
  {
    ('0' as int + d) as char
  }

  function DigitValue(c: char): (d: nat)
    requires IsDigit(c)
    ensures d < 10
  {
    c as int - '0' as int
  }

  /** The number a string of decimal digits denotes (leading zeros allowed). */
  function DigitsValue(s: string): nat
    requires AllDigits(s)
  {
    if s == [] then 0 else 10 * DigitsValue(s[..|s| - 1]) + DigitValue(s[|s| - 1])
  }

  /** The value of two digits. */
  lemma DigitsValue2(s: string)
    requires |s| == 2 && AllDigits(s)
    ensures DigitsValue(s) == 10 * DigitValue(s[0]) + DigitValue(s[1])
  {
    var p := s[..1];
    assert p[..0] == [] && p[0] == s[0];
    assert DigitsValue(p) == DigitValue(s[0]);
    assert DigitsValue(s) == 10 * DigitsValue(p) + DigitValue(s[1]);
  }

  /** The value of four digits. */
  lemma DigitsValue4(s: string)
    requires |s| == 4 && AllDigits(s)
    ensures DigitsValue(s) == 1000 * DigitValue(s[0]) + 100 * DigitValue(s[1]) + 10 * DigitValue(s[2]) + DigitValue(s[3])
  {
    var p := s[..3];
    assert p[..2] == s[..2] && p[2] == s[2];
    DigitsValue2(s[..2]);
  }

  /** The shortest decimal rendering of a natural number, as `toString` gives it. */
  function NatToDecimal(n: nat): (r: string)
    ensures 1 <= |r| && AllDigits(r)
    ensures DigitsValue(r) == n
    ensures r[0] == '0' ==> r == "0"
    decreases n
  {
    if n < 10 then [DigitChar(n)]
    else
      var p := NatToDecimal(n / 10);
      var r := p + [DigitChar(n % 10)];
      assert r[..|r| - 1] == p;
      r
  }

  /** `Long.toString()` / a string template `"$n"`: a '-' sign, then the digits of |n|. */
  function IntToDecimal(n: int): (r: string)
    ensures 1 <= |r|
    ensures (r[0] == '-') <==> n < 0
    ensures n < 0 ==> AllDigits(r[1..]) && 1 <= |r[1..]| && DigitsValue(r[1..]) == -n
    ensures n >= 0 ==> AllDigits(r) && DigitsValue(r) == n
    ensures n >= 0 && r[0] == '0' ==> r == "0"
    ensures n < 0 ==> r[1] != '0'
  {
    if n < 0 then
      var d := NatToDecimal(-n);
      assert ("-" + d)[1..] == d;
      "-" + d
    else NatToDecimal(n)
  }

  // ---------------------------------------------------------------- hash codes

  /** The UTF-16 code units that encode one character, as a JVM `String` stores it. */
  function Utf16Units(c: char): (u: seq<int>)
    ensures |u| == (if c as int < 0x10000 then 1 else 2)
    ensures forall k :: 0 <= k < |u| ==> 0 <= u[k] < 0x10000
  {
    var v := c as int;
    if v < 0x10000 then [v]
    else [0xD800 + (v - 0x10000) / 0x400, 0xDC00 + (v - 0x10000) % 0x400]
  }

  /** The UTF-16 code units of a string. */
  function Utf16(s: string): seq<int> {
    if s == [] then [] else Utf16(s[..|s| - 1]) + Utf16Units(s[|s| - 1])
  }

  /** `String.hashCode` on code units: `h = 31 * h + unit`, wrapping at every step. */
  function HashUnits(u: seq<int>): Int32 {
    if u == [] then 0 else Wrap32(31 * HashUnits(u[..|u| - 1]) + u[|u| - 1])
  }

  /** `String.hashCode()`. */
  function StringHashCode(s: string): Int32 {
    HashUnits(Utf16(s))
  }

  /** The polynomial `u[0]*31^(n-1) + ... + u[n-1]` in unbounded arithmetic, in Horner form. */
  function Horner(u: seq<int>): int {
    if u == [] then 0 else 31 * Horner(u[..|u| - 1]) + u[|u| - 1]
  }

  /** Wrapping at each step gives the documented polynomial, wrapped once. */
  lemma {:induction false} HashUnitsIsHorner(u: seq<int>)
    ensures HashUnits(u) == Wrap32(Horner(u))
  {
    if u != [] {
      var p := u[..|u| - 1];
      HashUnitsIsHorner(p);
      var h, x := Horner(p), u[|u| - 1];
      ScaledCongruence(h, Wrap32(h), x);
      Wrap32Congruent(31 * h + x, 31 * Wrap32(h) + x);
    }
  }

  /** `h = 31 * h + x` preserves congruence modulo 2^32. */
  lemma ScaledCongruence(a: int, b: int, x: int)
    requires (a - b) % TWO_32 == 0
    ensures ((31 * a + x) - (31 * b + x)) % TWO_32 == 0
  {
    var q := (a - b) / 0x1_0000_0000;
    assert a - b == 0x1_0000_0000 * q;
    assert (31 * a + x) - (31 * b + x) == 0x1_0000_0000 * (31 * q);
  }

  /** `Boolean.hashCode()`. */
  function BooleanHashCode(b: bool): Int32 {
    if b then 1231 else 1237
  }
}
