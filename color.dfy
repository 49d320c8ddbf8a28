/**
 * The "#RRGGBB[AA]" colour codec shared by the area registry and the /hlog command
 * (parseColorRgba and colorToHexRgba / toHexRgba, identical in both places).
 * A colour is the 32-bit pattern of a Java int, so `r << 24` overflows exactly as in Java.
 */
module Color {
  import opened Wrappers
  import opened JavaText

  /** Opaque yellow, #FFFF00FF. */
  const DEFAULT_COLOR_RGBA: bv32 := 0xFFFF00FF

  /** The two's-complement bit pattern of a Java int. */
  function IntBits(v: Int32): (b: bv32)
    ensures 0 <= v < 0x1_0000_0000 ==> b == v as bv32
  {
    if v < 0 then (v as int + 0x1_0000_0000) as bv32 else v as bv32
  }

  /** Drops one optional leading '#'. */
  function StripHash(t: string): (u: string)
    ensures |u| <= |t|
  {
    if |t| > 0 && t[0] == '#' then t[1..] else t
  }

  /** `(r << 24) | (g << 16) | (b << 8) | a` on Java ints. */
  function Pack(r: Int32, g: Int32, b: Int32, a: Int32): bv32 {
    (IntBits(r) << 24) | (IntBits(g) << 16) | (IntBits(b) << 8) | IntBits(a)
  }

  /**
   * parseColorRgba(s, fallback): trim, drop one '#', then exactly 6 or 8 characters read as
   * two-character groups with Integer.parseInt(_, 16); six characters give alpha 0xFF.
   * A null or empty input, a bad length or a group parseInt rejects yields the fallback.
   */
  function ParseColorRgba(s: Option<string>, fallback: bv32): (c: bv32)
    ensures s.None? ==> c == fallback
    ensures s.Some? && |StripHash(Trim(s.value))| != 6 && |StripHash(Trim(s.value))| != 8 ==> c == fallback
  {
    if s.None? then fallback
    else
      var t := Trim(s.value);
      if |t| == 0 then fallback
      else
        var u := StripHash(t);
        if |u| != 6 && |u| != 8 then fallback
        else
          match ParseGroups(u)
          case None => fallback
          case Some(q) => Pack(q.0, q.1, q.2, q.3)
  }

  /** The four `Integer.parseInt(_, 16)` calls on the pairs of `u`; alpha is 0xFF when `u` has six characters. */
  function ParseGroups(u: string): (q: Option<(Int32, Int32, Int32, Int32)>)
    requires |u| == 6 || |u| == 8
    ensures q.Some? ==> ParseInt(u[0..2], 16) == Some(q.value.0) && ParseInt(u[2..4], 16) == Some(q.value.1)
    ensures q.Some? ==> ParseInt(u[4..6], 16) == Some(q.value.2)
    ensures q.Some? ==> if |u| == 8 then ParseInt(u[6..8], 16) == Some(q.value.3) else q.value.3 == 0xFF
    ensures q.None? ==> ParseInt(u[0..2], 16).None? || ParseInt(u[2..4], 16).None? || ParseInt(u[4..6], 16).None?
                        || (|u| == 8 && ParseInt(u[6..8], 16).None?)
  {
    var r :- ParseInt(u[0..2], 16);
    var g :- ParseInt(u[2..4], 16);
    var b :- ParseInt(u[4..6], 16);
    var a :- if |u| == 8 then ParseInt(u[6..8], 16) else Some(0xFF);
    Some((r, g, b, a))
  }

  /** `(c >> shift) & 0xFF`: one 8-bit channel. */
  function Channel(c: bv32, shift: nat): (v: bv32)
    requires shift <= 24
    ensures v < 256
  {
    (c >> shift) & 0xFF
  }

  /** One upper-case hex digit, as `%X` prints it. */
  function HexDigitUpper(n: bv32): (ch: char)
    requires n < 16
    ensures ('0' <= ch <= '9' || 'A' <= ch <= 'F') && DigitOf(ch) == n as int
  {
    if n < 10 then ('0' as int + n as int) as char else ('A' as int + n as int - 10) as char
  }

  /** `%02X` of a byte. */
  function Hex2(b: bv32): (s: string)
    requires b < 256
    ensures |s| == 2
  {
    [HexDigitUpper(b >> 4), HexDigitUpper(b & 0xF)]
  }

  predicate IsUpperHex(ch: char) {
    '0' <= ch <= '9' || 'A' <= ch <= 'F'
  }

  /** '#' and the first `n` of the R, G, B and A bytes as `%02X`, most significant first. */
  function HexChannels(c: bv32, n: nat): (s: string)
    requires n <= 4
    ensures |s| == 1 + 2 * n && s[0] == '#'
  {
    if n == 0 then "#" else HexChannels(c, n - 1) + Hex2(Channel(c, 32 - 8 * n))
  }

  /** colorToHexRgba / toHexRgba: "#%02X%02X%02X%02X" of the R, G, B and A bytes. */
  function ColorToHexRgba(c: bv32): (s: string)
    ensures |s| == 9 && s[0] == '#'
  {
    HexChannels(c, 4)
  }

  /** The printed colour spelled out channel by channel. */
  lemma HexSpelled(c: bv32)
    ensures ColorToHexRgba(c) == "#" + Hex2(Channel(c, 24)) + Hex2(Channel(c, 16)) + Hex2(Channel(c, 8)) + Hex2(Channel(c, 0))
  {
    assert HexChannels(c, 1) == "#" + Hex2(Channel(c, 24));
    assert HexChannels(c, 2) == HexChannels(c, 1) + Hex2(Channel(c, 16));
    assert HexChannels(c, 3) == HexChannels(c, 2) + Hex2(Channel(c, 8));
    assert HexChannels(c, 4) == HexChannels(c, 3) + Hex2(Channel(c, 0));
  }

  /** Every digit after the '#' is an upper-case hex digit, as `%X` prints them. */
  lemma {:induction false} HexChannelsUpper(c: bv32, n: nat)
    requires n <= 4
    ensures forall i :: 1 <= i < |HexChannels(c, n)| ==> IsUpperHex(HexChannels(c, n)[i])
  {
    if n > 0 {
      HexChannelsUpper(c, n - 1);
      var prefix, pair := HexChannels(c, n - 1), Hex2(Channel(c, 32 - 8 * n));
      assert IsUpperHex(pair[0]) && IsUpperHex(pair[1]);
      forall i | 1 <= i < |prefix + pair|
        ensures IsUpperHex((prefix + pair)[i])
      {
        if i >= |prefix| {
          assert (prefix + pair)[i] == pair[i - |prefix|];
        }
      }
    }
  }

  /** The printed colour is '#' and eight upper-case hex digits. */
  lemma HexUpperCase(c: bv32)
    ensures forall i :: 1 <= i < 9 ==> IsUpperHex(ColorToHexRgba(c)[i])
  {
    HexChannelsUpper(c, 4);
  }

  /** Proof helper: the four two-character groups of a concatenation. */
  lemma Quarters(a: string, b: string, c: string, d: string)
    requires |a| == |b| == |c| == |d| == 2
    ensures (a + b + c + d)[0..2] == a && (a + b + c + d)[2..4] == b
    ensures (a + b + c + d)[4..6] == c && (a + b + c + d)[6..8] == d
  {
  }

  /** The value of the hex pair at positions i, i + 1. */
  function PairValue(s: string, i: nat): int
    requires i + 1 < |s|
  {
    DigitOf(s[i]) * 16 + DigitOf(s[i + 1])
  }

  lemma Hex2Value(b: bv32)
    requires b < 256
    ensures PairValue(Hex2(b), 0) == b as int
  {
    ByteDigits(b);
  }

  /** Positions of the four pairs in "#" + h1 + h2 + h3 + h4. */
  lemma HashPairs(h1: string, h2: string, h3: string, h4: string)
    requires |h1| == |h2| == |h3| == |h4| == 2
    ensures PairValue("#" + h1 + h2 + h3 + h4, 1) == PairValue(h1, 0)
    ensures PairValue("#" + h1 + h2 + h3 + h4, 3) == PairValue(h2, 0)
    ensures PairValue("#" + h1 + h2 + h3 + h4, 5) == PairValue(h3, 0)
    ensures PairValue("#" + h1 + h2 + h3 + h4, 7) == PairValue(h4, 0)
  {
    var s := "#" + h1 + h2 + h3 + h4;
    assert s[1] == h1[0] && s[2] == h1[1] && s[3] == h2[0] && s[4] == h2[1];
    assert s[5] == h3[0] && s[6] == h3[1] && s[7] == h4[0] && s[8] == h4[1];
  }

  /** The four printed pairs are the R, G, B and A bytes, in that order. */
  lemma ColorToHexChannels(c: bv32)
    ensures PairValue(ColorToHexRgba(c), 1) == Channel(c, 24) as int
    ensures PairValue(ColorToHexRgba(c), 3) == Channel(c, 16) as int
    ensures PairValue(ColorToHexRgba(c), 5) == Channel(c, 8) as int
    ensures PairValue(ColorToHexRgba(c), 7) == Channel(c, 0) as int
  {
    HexSpelled(c);
    HashPairs(Hex2(Channel(c, 24)), Hex2(Channel(c, 16)), Hex2(Channel(c, 8)), Hex2(Channel(c, 0)));
    Hex2Value(Channel(c, 24));
    Hex2Value(Channel(c, 16));
    Hex2Value(Channel(c, 8));
    Hex2Value(Channel(c, 0));
  }

  /** Two hex digits (no sign) parse as a byte. */
  lemma TwoHexDigits(s: string)
    requires |s| == 2 && 0 <= DigitOf(s[0]) < 16 && 0 <= DigitOf(s[1]) < 16
    ensures ParseInt(s, 16) == Some(DigitOf(s[0]) * 16 + DigitOf(s[1]))
  {
    assert s[..1][..0] == [];
    assert s[..1][0] == s[0];
    assert DigitsValue(s[..1], 16) == Some(DigitOf(s[0]));
    assert s[..|s| - 1] == s[..1];
    assert DigitsValue(s, 16) == Some(DigitOf(s[0]) * 16 + DigitOf(s[1]));
  }

  /** Proof helper: the high and low nibbles of a byte make up its value. */
  lemma ByteDigits(b: bv32)
    requires b < 256
    ensures (b >> 4) as int * 16 + (b & 0xF) as int == b as int
  {
  }

  lemma Hex2Parses(b: bv32)
    requires b < 256
    ensures ParseInt(Hex2(b), 16) == Some(b as int)
  {
    var s := Hex2(b);
    TwoHexDigits(s);
    ByteDigits(b);
  }

  /** Proof helper: a byte's value converted back to bits is the byte. */
  lemma ByteBits(b: bv32)
    requires b < 256
    ensures IntBits(b as int) == b
  {
  }

  /** Re-packing the four channels of a colour gives the colour back. */
  lemma ChannelsRepack(c: bv32)
    ensures (Channel(c, 24) << 24) | (Channel(c, 16) << 16) | (Channel(c, 8) << 8) | Channel(c, 0) == c
  {
  }

  /** Packing four bytes read as Java ints rebuilds the colour they were taken from. */
  lemma PackChannels(c: bv32)
    ensures Pack(Channel(c, 24) as int, Channel(c, 16) as int, Channel(c, 8) as int, Channel(c, 0) as int) == c
  {
    ByteBits(Channel(c, 24));
    ByteBits(Channel(c, 16));
    ByteBits(Channel(c, 8));
    ByteBits(Channel(c, 0));
    ChannelsRepack(c);
  }

  /** Four parseable pairs after a '#' parse as the packed colour of their values. */
  lemma ParseHashPairs(h1: string, h2: string, h3: string, h4: string, r: Int32, g: Int32, b: Int32, a: Int32, fallback: bv32)
    requires |h1| == |h2| == |h3| == |h4| == 2
    requires !IsTrimmable(h4[1])
    requires ParseInt(h1, 16) == Some(r) && ParseInt(h2, 16) == Some(g)
    requires ParseInt(h3, 16) == Some(b) && ParseInt(h4, 16) == Some(a)
    ensures ParseColorRgba(Some("#" + h1 + h2 + h3 + h4), fallback) == Pack(r, g, b, a)
  {
    var s := "#" + h1 + h2 + h3 + h4;
    assert s[|s| - 1] == h4[1];
    TrimFixed(s);
    assert StripHash(s) == h1 + h2 + h3 + h4;
    Quarters(h1, h2, h3, h4);
  }

  /** The printed form always parses back to the same 32-bit colour, whatever the fallback. */
  lemma HexRoundTrip(c: bv32, fallback: bv32)
    ensures ParseColorRgba(Some(ColorToHexRgba(c)), fallback) == c
  {
    HexSpelled(c);
    var h1, h2, h3, h4 := Hex2(Channel(c, 24)), Hex2(Channel(c, 16)), Hex2(Channel(c, 8)), Hex2(Channel(c, 0));
    Hex2Parses(Channel(c, 24));
    Hex2Parses(Channel(c, 16));
    Hex2Parses(Channel(c, 8));
    Hex2Parses(Channel(c, 0));
    ParseHashPairs(h1, h2, h3, h4, Channel(c, 24) as int, Channel(c, 16) as int, Channel(c, 8) as int, Channel(c, 0) as int, fallback);
    PackChannels(c);
  }

  /** What a two-character group may hold for parseInt(_, 16) to accept it: a hex digit or a sign. */
  predicate HexOrSign(ch: char) {
    0 <= DigitOf(ch) < 16 || ch == '-' || ch == '+'
  }

  /** A pair parseInt accepts holds a hex digit or a sign in both places. */
  lemma PairChars(u: string, k: nat)
    requires k + 2 <= |u| && ParseInt(u[k..k + 2], 16).Some?
    ensures HexOrSign(u[k]) && HexOrSign(u[k + 1])
  {
    var p := u[k..k + 2];
    assert p[0] == u[k] && p[1] == u[k + 1];
  }

  /** Whenever the groups parse, every character of them is a hex digit or a sign. */
  lemma ParseGroupsChars(u: string)
    requires |u| == 6 || |u| == 8
    ensures ParseGroups(u).Some? ==> forall i :: 0 <= i < |u| ==> HexOrSign(u[i])
  {
    if ParseGroups(u).Some? {
      forall i | 0 <= i < |u| ensures HexOrSign(u[i]) {
        var k := if i < 2 then 0 else if i < 4 then 2 else if i < 6 then 4 else 6;
        PairChars(u, k);
        assert i == k || i == k + 1;
      }
    }
  }

  /** A character that is neither a hex digit nor a sign anywhere in the groups makes the whole parse fall back. */
  lemma RejectsNonHex(s: string, i: nat, fallback: bv32)
    requires i < |StripHash(Trim(s))| && !HexOrSign(StripHash(Trim(s))[i])
    ensures ParseColorRgba(Some(s), fallback) == fallback
  {
    var u := StripHash(Trim(s));
    if |u| == 6 || |u| == 8 {
      ParseGroupsChars(u);
    }
  }

  /** Six digits: the alpha byte is 0xFF. */
  lemma SixDigitsOpaque(h1: string, h2: string, h3: string, r: Int32, g: Int32, b: Int32, fallback: bv32)
    requires |h1| == |h2| == |h3| == 2
    requires !IsTrimmable(h3[1])
    requires ParseInt(h1, 16) == Some(r) && ParseInt(h2, 16) == Some(g) && ParseInt(h3, 16) == Some(b)
    ensures ParseColorRgba(Some("#" + h1 + h2 + h3), fallback) == Pack(r, g, b, 0xFF)
  {
    var s := "#" + h1 + h2 + h3;
    assert s[|s| - 1] == h3[1];
    TrimFixed(s);
    var u := h1 + h2 + h3;
    assert StripHash(s) == u;
    assert u[0..2] == h1;
    assert u[2..4] == h2;
    assert u[4..6] == h3;
    assert ParseGroups(u) == Some((r, g, b, 0xFF));
  }

  /**
   * parseInt accepts a sign, so a group such as "-1" is the int -1; shifted into place its
   * two's-complement bits also fill every channel above it: "#00-10000" gives 0xFFFF0000
   * although the red pair reads "00".
   */
  lemma SignedGroupBleeds(s: string)
    requires s == "#00-10000"
    ensures ParseColorRgba(Some(s), DEFAULT_COLOR_RGBA) == 0xFFFF0000
  {
    TrimFixed(s);
    var u := StripHash(Trim(s));
    assert u == "00-10000";
    SignedGroups(u);
    assert Pack(0, -1, 0, 0) == 0xFFFF0000 by {
      assert IntBits(-1) == 0xFFFF_FFFF;
    }
  }

  /** The groups of "00-10000" are 0, -1, 0 and 0. */
  lemma SignedGroups(u: string)
    requires u == "00-10000"
    ensures ParseGroups(u) == Some((0, -1, 0, 0))
  {
    assert u[0..2] == "00" && u[2..4] == "-1" && u[4..6] == "00" && u[6..8] == "00";
    TwoHexDigits("00");
    assert DigitsValue("1", 16) == Some(1) by {
      assert "1"[..0] == [];
    }
    assert "-1"[1..] == "1";
    assert ParseInt("-1", 16) == Some(-1);
  }
}
