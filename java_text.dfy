/**
 * The parts of java.lang.String and java.lang.Integer that the audit client relies on:
 * trim, lower-casing, contains, Integer.parseInt / Long.parseLong and Integer.toString.
 * Digits are the ASCII ones; characters are Dafny chars.
 */
module JavaText {
  import opened Wrappers

  const INT_MIN: int := -0x8000_0000
  const INT_MAX: int := 0x7FFF_FFFF
  const LONG_MIN: int := -0x8000_0000_0000_0000
  const LONG_MAX: int := 0x7FFF_FFFF_FFFF_FFFF

  /** Java `int`. */
  type Int32 = x: int | INT_MIN <= x <= INT_MAX

  /** Java `long`. */
  type Int64 = x: int | LONG_MIN <= x <= LONG_MAX

  /** Keeps the low 32 bits, read as two's complement: the narrowing `(int)` of a wider integer. */
  function Wrap32(i: int): (r: Int32)
    ensures INT_MIN <= i <= INT_MAX ==> r == i
    ensures (r - i) % 0x1_0000_0000 == 0
  {
    (i - INT_MIN) % 0x1_0000_0000 + INT_MIN
  }

  /** Keeps the low 64 bits, read as two's complement. */
  function Wrap64(i: int): (r: Int64)
    ensures LONG_MIN <= i <= LONG_MAX ==> r == i
    ensures (r - i) % 0x1_0000_0000_0000_0000 == 0
  {
    (i - LONG_MIN) % 0x1_0000_0000_0000_0000 + LONG_MIN
  }

  // ---------------------------------------------------------------- trim

  /** `String.trim` removes every leading and trailing character up to U+0020. */
  predicate IsTrimmable(c: char) {
    c <= ' '
  }

  function TrimStart(s: string): (r: string)
    ensures |r| <= |s| && r == s[|s| - |r|..]
    ensures r == [] || !IsTrimmable(r[0])
    ensures forall i :: 0 <= i < |s| - |r| ==> IsTrimmable(s[i])
  {
    if |s| > 0 && IsTrimmable(s[0]) then TrimStart(s[1..]) else s
  }

  function TrimEnd(s: string): (r: string)
    ensures |r| <= |s| && r == s[..|r|]
    ensures r == [] || !IsTrimmable(r[|r| - 1])
    ensures forall i :: |r| <= i < |s| ==> IsTrimmable(s[i])
  {
    if |s| > 0 && IsTrimmable(s[|s| - 1]) then TrimEnd(s[..|s| - 1]) else s
  }

  /** `String.trim`: the longest infix that neither starts nor ends with a trimmable character. */
  function Trim(s: string): (r: string)
    ensures |r| <= |s|
    ensures r == [] || (!IsTrimmable(r[0]) && !IsTrimmable(r[|r| - 1]))
    ensures r == [] <==> forall i :: 0 <= i < |s| ==> IsTrimmable(s[i])
  {
    TrimEnd(TrimStart(s))
  }

  /** A string with no trimmable character at either end is its own trim. */
  lemma TrimFixed(s: string)
    requires |s| > 0 && !IsTrimmable(s[0]) && !IsTrimmable(s[|s| - 1])
    ensures Trim(s) == s
  {
    assert TrimStart(s) == s;
    assert TrimEnd(s) == s;
  }

  /** Trimming a string that is already trimmed changes nothing. */
  lemma TrimIdempotent(s: string)
    ensures Trim(Trim(s)) == Trim(s)
  {
    var r := Trim(s);
    assert TrimStart(r) == r;
    assert TrimEnd(r) == r;
  }

  // ---------------------------------------------------------------- case

  /** Lower-casing of one character, for the ASCII letters only. */
  function LowerChar(c: char): char {
    if 'A' <= c <= 'Z' then (c as int + 32) as char else c
  }

  /** `String.toLowerCase`, restricted to the ASCII letters. */
  function AsciiLower(s: string): (r: string)
    ensures |r| == |s|
    ensures forall i :: 0 <= i < |s| ==> r[i] == LowerChar(s[i])
  {
    seq(|s|, i requires 0 <= i < |s| => LowerChar(s[i]))
  }

  // ---------------------------------------------------------------- contains

  /** `String.contains`. */
  predicate HasSubstring(s: string, sub: string) {
    sub <= s || (|s| > 0 && HasSubstring(s[1..], sub))
  }

  /** A string contains whatever was concatenated into it. */
  lemma {:induction false} HasSubstringIn(x: string, sub: string, y: string)
    ensures HasSubstring(x + sub + y, sub)
    decreases |x|
  {
    if |x| == 0 {
      assert x + sub + y == sub + y;
    } else {
      assert (x + sub + y)[1..] == x[1..] + sub + y;
      HasSubstringIn(x[1..], sub, y);
    }
  }

  /** Appending keeps what a string contains. */
  lemma {:induction false} HasSubstringExtend(s: string, t: string, sub: string)
    requires HasSubstring(s, sub)
    ensures HasSubstring(s + t, sub)
    decreases |s|
  {
    if !(sub <= s) {
      assert (s + t)[1..] == s[1..] + t;
      HasSubstringExtend(s[1..], t, sub);
    }
  }

  // ---------------------------------------------------------------- integers

  /** `Character.digit(c, 36)` for ASCII characters: 0-9, then a-z / A-Z as 10-35; -1 otherwise. */
  function DigitOf(c: char): int {
    if '0' <= c <= '9' then c as int - '0' as int
    else if 'a' <= c <= 'z' then c as int - 'a' as int + 10
    else if 'A' <= c <= 'Z' then c as int - 'A' as int + 10
    else -1
  }

  /** The value of a run of digits in `radix`, most significant first; None if any character is not a digit. */
  function DigitsValue(s: string, radix: nat): (r: Option<nat>)
    requires 2 <= radix <= 36
    ensures r.Some? <==> forall i :: 0 <= i < |s| ==> 0 <= DigitOf(s[i]) < radix
  {
    if |s| == 0 then Some(0)
    else
      var d := DigitOf(s[|s| - 1]);
      var prefix := DigitsValue(s[..|s| - 1], radix);
      if d < 0 || d >= radix || prefix.None? then None
      else Some(prefix.value * radix + d)
  }

  /** The text after one optional leading '-' or '+'. */
  function Unsigned(s: string): (u: string)
    ensures |u| <= |s| && u == s[|s| - |u|..] && |s| - |u| <= 1
  {
    if |s| > 0 && (s[0] == '-' || s[0] == '+') then s[1..] else s
  }

  /** A magnitude with the sign of `s` applied. */
  function Signed(s: string, v: nat): int {
    if |s| > 0 && s[0] == '-' then 0 - (v as int) else v
  }

  /**
   * `Integer.parseInt(s, radix)` / `Long.parseLong(s, radix)` with bounds [lo, hi]:
   * one optional leading '-' or '+', then at least one digit; a value outside the bounds is an error.
   */
  function ParseIntegral(s: string, radix: nat, lo: int, hi: int): (r: Option<int>)
    requires 2 <= radix <= 36
    ensures r.Some? ==> lo <= r.value <= hi
    ensures r.Some? ==> |s| > 0 && (s[0] == '-' || s[0] == '+' || 0 <= DigitOf(s[0]) < radix)
    ensures r.Some? ==> forall i :: 1 <= i < |s| ==> 0 <= DigitOf(s[i]) < radix
  {
    if |s| == 0 then None
    else
      var signed := s[0] == '-' || s[0] == '+';
      var digits := if signed then s[1..] else s;
      if |digits| == 0 then None
      else
        match DigitsValue(digits, radix)
        case None => None
        case Some(v) =>
          var value: int := if s[0] == '-' then 0 - (v as int) else v;
          if lo <= value <= hi then Some(value) else None
  }

  /**
   * What `ParseIntegral` accepts and what it answers: a text is read exactly when, after one
   * optional sign, it is a non-empty run of digits whose signed value lies in [lo, hi], and
   * the answer is that signed value.
   */
  lemma ParseIntegralMeaning(s: string, radix: nat, lo: int, hi: int)
    requires 2 <= radix <= 36
    ensures ParseIntegral(s, radix, lo, hi).Some? <==>
              |Unsigned(s)| > 0 && DigitsValue(Unsigned(s), radix).Some?
              && lo <= Signed(s, DigitsValue(Unsigned(s), radix).value) <= hi
    ensures ParseIntegral(s, radix, lo, hi).Some? ==>
              ParseIntegral(s, radix, lo, hi).value == Signed(s, DigitsValue(Unsigned(s), radix).value)
  {
    if |s| > 0 {
      var digits := if s[0] == '-' || s[0] == '+' then s[1..] else s;
      assert digits == Unsigned(s);
      if |digits| > 0 && DigitsValue(digits, radix).Some? {
        var v := DigitsValue(digits, radix).value;
        assert Signed(s, v) == if s[0] == '-' then 0 - (v as int) else v;
      }
    }
  }

  /** `Integer.parseInt(s, radix)`. */
  function ParseInt(s: string, radix: nat): (r: Option<Int32>)
    requires 2 <= radix <= 36
  {
    match ParseIntegral(s, radix, INT_MIN, INT_MAX)
    case None => None
    case Some(v) => Some(v as Int32)
  }

  /** `Long.parseLong(s, radix)`. */
  function ParseLong(s: string, radix: nat): (r: Option<Int64>)
    requires 2 <= radix <= 36
  {
    match ParseIntegral(s, radix, LONG_MIN, LONG_MAX)
    case None => None
    case Some(v) => Some(v as Int64)
  }

  function DigitChar(d: nat): (c: char)
    requires d < 10
    ensures '0' <= c <= '9' && DigitOf(c) == d
  {
    "0123456789"[d]
  }

  /** The decimal digits of `n`, without leading zeros. */
  function NatDigits(n: nat): (s: string)
    ensures |s| > 0
    ensures forall i :: 0 <= i < |s| ==> '0' <= s[i] <= '9'
  {
    if n < 10 then [DigitChar(n)] else NatDigits(n / 10) + [DigitChar(n % 10)]
  }

  /** `Integer.toString(i)` / `StringBuilder.append(int)`. */
  function Dec(i: int): (s: string)
    ensures |s| > 0
  {
    if i < 0 then "-" + NatDigits(-i) else NatDigits(i)
  }

  lemma {:induction false} NatDigitsValue(n: nat)
    ensures DigitsValue(NatDigits(n), 10) == Some(n)
  {
    var s := NatDigits(n);
    if n >= 10 {
      NatDigitsValue(n / 10);
      assert s[..|s| - 1] == NatDigits(n / 10);
    }
  }

  /** A '+' sign and leading zeros are accepted: "+007" reads as 7 and "-007" as -7. */
  lemma SignAndLeadingZeros()
    ensures ParseInt("+007", 10) == Some(7)
    ensures ParseInt("-007", 10) == Some(-7)
    ensures ParseInt("+", 10).None? && ParseInt("-", 10).None? && ParseInt("", 10).None?
  {
    assert Unsigned("+007") == "007";
    assert DigitsValue("007", 10) == Some(7) by {
      assert "007"[..2] == "00" && "00"[..1] == "0" && "0"[..0] == "";
    }
    assert Unsigned("-007") == "007";
  }

  /** `Integer.parseInt(Integer.toString(i))` gives back `i`. */
  lemma DecRoundTrip(i: Int32)
    ensures ParseInt(Dec(i), 10) == Some(i)
  {
    var s := Dec(i);
    if i < 0 {
      var n: nat := -(i as int);
      NatDigitsValue(n);
      assert s[1..] == NatDigits(n);
      assert s[0] == '-';
      assert ParseIntegral(s, 10, INT_MIN, INT_MAX) == Some(i as int);
    } else {
      NatDigitsValue(i);
      assert s[0] != '-' && s[0] != '+';
      assert ParseIntegral(s, 10, INT_MIN, INT_MAX) == Some(i as int);
    }
  }
}
