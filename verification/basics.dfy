/**
 * Shared vocabulary: an optional value (a possibly-null pointer) and the decimal
 * text conversions the compiler relies on (`atoi`, `std::to_string`, `std::stoul`).
 */
module Basics {

  datatype Option<+T> = None | Some(value: T)

  predicate IsDigit(c: char) {
    '0' <= c <= '9'
  }

  predicate AllDigits(s: string) {
    forall i :: 0 <= i < |s| ==> IsDigit(s[i])
  }

  function DigitChar(d: nat): (c: char)
    requires d < 10
    ensures IsDigit(c) && c as int - '0' as int == d
  {
    ('0' as int + d) as char
  }

  /** Length of the longest run of decimal digits at the front of `s`. */
  function DigitPrefix(s: string): (n: nat)
    ensures n <= |s| && AllDigits(s[..n])
    ensures n < |s| ==> !IsDigit(s[n])
  {
    if s != [] && IsDigit(s[0]) then
      var n := 1 + DigitPrefix(s[1..]);
      assert s[..n] == [s[0]] + s[1..][..n - 1];
      n
    else 0
  }

  /** The number a string of decimal digits denotes, most significant digit first. */
  function DigitsValue(s: string): nat
    requires AllDigits(s)
  {
    if s == [] then 0 else 10 * DigitsValue(s[..|s| - 1]) + (s[|s| - 1] as int - '0' as int)
  }

  /** Decimal rendering of a natural number (`std::to_string` on a non-negative value). */
  function NatToString(n: nat): (s: string)
    ensures |s| > 0 && AllDigits(s)
    ensures |s| > 1 ==> s[0] != '0'
  {
    if n < 10 then [DigitChar(n)] else NatToString(n / 10) + [DigitChar(n % 10)]
  }

  /** Decimal rendering of an integer, with a leading '-' when negative. */
  function IntToString(i: int): (s: string)
    ensures |s| > 0
    ensures s[0] == '-' <==> i < 0
  {
    if i < 0 then "-" + NatToString(-i) else NatToString(i)
  }

  lemma {:induction false} NatToStringRoundTrip(n: nat)
    ensures DigitsValue(NatToString(n)) == n
  {
    if n >= 10 {
      var s := NatToString(n);
      assert s[..|s| - 1] == NatToString(n / 10);
      NatToStringRoundTrip(n / 10);
    }
  }

  lemma {:induction false} DigitPrefixOfDigits(s: string)
    requires AllDigits(s)
    ensures DigitPrefix(s) == |s|
  {
    if s != [] {
      DigitPrefixOfDigits(s[1..]);
    }
  }

  /** The number the run of decimal digits at the front of `s` denotes; None when `s` does not start with a digit. */
  function ParseDecimalPrefix(s: string): (r: Option<nat>)
    ensures r.None? <==> (s == [] || !IsDigit(s[0]))
  {
    var n := DigitPrefix(s);
    if n == 0 then None else Some(DigitsValue(s[..n]))
  }

  lemma ParseDecimalRoundTrip(n: nat)
    ensures ParseDecimalPrefix(NatToString(n)) == Some(n)
  {
    var s := NatToString(n);
    DigitPrefixOfDigits(s);
    assert s[..|s|] == s;
    NatToStringRoundTrip(n);
  }

  predicate IsSpace(c: char) {
    c == ' ' || c == '\t' || c == '\n' || c == '\U{000B}' || c == '\U{000C}' || c == '\r'
  }

  /**
   * C's `atoi`: leading white space is skipped, an optional sign is read, then
   * the longest run of digits; text without digits there yields 0.
   */
  function Atoi(s: string): int
  {
    if s != [] && IsSpace(s[0]) then Atoi(s[1..])
    else if s != [] && (s[0] == '-' || s[0] == '+') then
      var rest := s[1..];
      var magnitude: int := DigitsValue(rest[..DigitPrefix(rest)]);
      if s[0] == '-' then -magnitude else magnitude
    else DigitsValue(s[..DigitPrefix(s)])
  }

  lemma AtoiRoundTrip(i: int)
    ensures Atoi(IntToString(i)) == i
  {
    var digits := NatToString(if i < 0 then -i else i);
    DigitPrefixOfDigits(digits);
    assert digits[..|digits|] == digits;
    NatToStringRoundTrip(if i < 0 then -i else i);
    if i < 0 {
      assert IntToString(i)[1..] == digits;
    }
  }

  /**
   * What `strtoul` reads in base 10, as `std::stoul` calls it: leading white
   * space is skipped and an optional sign read, then the longest run of
   * digits. None when no digit follows; otherwise whether the sign was `-`,
   * and the number the digits denote.
   */
  function StrtoulPrefix(s: string): (r: Option<(bool, nat)>)
    ensures s == [] ==> r.None?
    ensures s != [] && IsDigit(s[0]) ==> r == Some((false, DigitsValue(s[..DigitPrefix(s)])))
  {
    if s != [] && IsSpace(s[0]) then StrtoulPrefix(s[1..])
    else if s != [] && (s[0] == '-' || s[0] == '+') then
      match ParseDecimalPrefix(s[1..])
      case None => None
      case Some(m) => Some((s[0] == '-', m))
    else
      match ParseDecimalPrefix(s)
      case None => None
      case Some(m) => Some((false, m))
  }

  /** White space in front of the number changes nothing, and a sign in front of a number's digits is read as such. */
  lemma StrtoulSpaceAndSign(c: char, s: string, n: nat)
    ensures IsSpace(c) ==> StrtoulPrefix([c] + s) == StrtoulPrefix(s)
    ensures StrtoulPrefix("+" + NatToString(n)) == Some((false, n))
    ensures StrtoulPrefix("-" + NatToString(n)) == Some((true, n))
  {
    assert ([c] + s)[1..] == s;
    assert ("+" + NatToString(n))[1..] == NatToString(n);
    assert ("-" + NatToString(n))[1..] == NatToString(n);
    ParseDecimalRoundTrip(n);
  }

  /** Replacing the `i`-th element and cutting after it gives the old prefix and the new element. */
  lemma UpdatedPrefix<T>(s: seq<T>, i: nat, v: T)
    requires i < |s|
    ensures s[i := v][..i + 1] == s[..i] + [v]
  {
  }

  /** Appending one element after a concatenation. */
  lemma AppendAfterConcat<T>(a: seq<T>, b: seq<T>, x: T)
    ensures a + (b + [x]) == (a + b) + [x]
  {
  }
}
