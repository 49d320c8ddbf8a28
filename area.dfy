/**
 * The values the area registry stores: block positions, the immutable Area record,
 * the AreaSnapshot handed to callers, and the key a name is filed under.
 */
module Areas {
  import opened JavaText

  /** A block position; Minecraft's BlockPos holds three Java ints. */
  datatype BlockPos = BlockPos(x: Int32, y: Int32, z: Int32)

  /** An area: its key, its display name, inclusive corners, RGBA colour and the two flags. */
  datatype Area = Area(key: string, name: string, min: BlockPos, max: BlockPos,
                       color: bv32, enabled: bool, highlight: bool)

  /** What getAreasSnapshot hands out: an area without its key. */
  datatype AreaSnapshot = AreaSnapshot(name: string, min: BlockPos, max: BlockPos,
                                       color: bv32, enabled: bool, highlight: bool)

  /** `Area.contains`: inclusive on all six faces. */
  predicate Contains(a: Area, p: BlockPos) {
    a.min.x <= p.x <= a.max.x && a.min.y <= p.y <= a.max.y && a.min.z <= p.z <= a.max.z
  }

  /** `min <= max` on every axis. */
  predicate Ordered(a: Area) {
    a.min.x <= a.max.x && a.min.y <= a.max.y && a.min.z <= a.max.z
  }

  function Min(a: Int32, b: Int32): (m: Int32)
    ensures m <= a && m <= b && (m == a || m == b)
  {
    if a <= b then a else b
  }

  function Max(a: Int32, b: Int32): (m: Int32)
    ensures m >= a && m >= b && (m == a || m == b)
  {
    if a >= b then a else b
  }

  /** The componentwise smaller corner of two positions (`Math.min` on each axis). */
  function LowCorner(a: BlockPos, b: BlockPos): BlockPos {
    BlockPos(Min(a.x, b.x), Min(a.y, b.y), Min(a.z, b.z))
  }

  /** The componentwise larger corner of two positions (`Math.max` on each axis). */
  function HighCorner(a: BlockPos, b: BlockPos): BlockPos {
    BlockPos(Max(a.x, b.x), Max(a.y, b.y), Max(a.z, b.z))
  }

  /** `v` lies between `a` and `b`, whichever is larger. */
  predicate Between(v: int, a: int, b: int) {
    (a <= v <= b) || (b <= v <= a)
  }

  /**
   * The box spanned by two corners, given in either order, is ordered and holds exactly
   * the positions lying between the corners on every axis.
   */
  lemma SpannedBox(key: string, name: string, a: BlockPos, b: BlockPos, color: bv32, enabled: bool, highlight: bool, p: BlockPos)
    ensures Ordered(Area(key, name, LowCorner(a, b), HighCorner(a, b), color, enabled, highlight))
    ensures Contains(Area(key, name, LowCorner(a, b), HighCorner(a, b), color, enabled, highlight), p)
        <==> Between(p.x, a.x, b.x) && Between(p.y, a.y, b.y) && Between(p.z, a.z, b.z)
    ensures LowCorner(a, b) == LowCorner(b, a) && HighCorner(a, b) == HighCorner(b, a)
  {
  }

  /** `normalizeKey`: trimmed, then lower-cased (ASCII letters only). */
  function NormalizeKey(name: string): (k: string)
    ensures |k| <= |name|
    ensures k == [] <==> forall i :: 0 <= i < |name| ==> IsTrimmable(name[i])
  {
    AsciiLower(Trim(name))
  }

  /** Lower-casing never turns a trimmable character into another or back. */
  lemma LowerKeepsTrimmable(c: char)
    ensures IsTrimmable(LowerChar(c)) <==> IsTrimmable(c)
    ensures IsTrimmable(c) ==> LowerChar(c) == c
  {
  }

  lemma {:induction false} LowerTrimStart(s: string)
    ensures TrimStart(AsciiLower(s)) == AsciiLower(TrimStart(s))
    decreases |s|
  {
    if |s| > 0 {
      LowerKeepsTrimmable(s[0]);
      if IsTrimmable(s[0]) {
        assert AsciiLower(s)[1..] == AsciiLower(s[1..]);
        LowerTrimStart(s[1..]);
      }
    }
  }

  lemma {:induction false} LowerTrimEnd(s: string)
    ensures TrimEnd(AsciiLower(s)) == AsciiLower(TrimEnd(s))
    decreases |s|
  {
    if |s| > 0 {
      LowerKeepsTrimmable(s[|s| - 1]);
      if IsTrimmable(s[|s| - 1]) {
        assert AsciiLower(s)[..|s| - 1] == AsciiLower(s[..|s| - 1]);
        LowerTrimEnd(s[..|s| - 1]);
      }
    }
  }

  /** Lower-casing and trimming commute. */
  lemma LowerTrim(s: string)
    ensures Trim(AsciiLower(s)) == AsciiLower(Trim(s))
  {
    LowerTrimStart(s);
    LowerTrimEnd(TrimStart(s));
  }

  lemma LowerIdempotent(s: string)
    ensures AsciiLower(AsciiLower(s)) == AsciiLower(s)
  {
  }

  /**
   * A key is its own key, and a name and its trimmed form share a key: the registry files
   * `name.trim()` under `normalizeKey(name.trim())`, and every lookup uses `normalizeKey(name)`.
   */
  lemma NormalizeKeyStable(name: string)
    ensures NormalizeKey(NormalizeKey(name)) == NormalizeKey(name)
    ensures NormalizeKey(Trim(name)) == NormalizeKey(name)
  {
    LowerTrim(Trim(name));
    TrimIdempotent(name);
    LowerIdempotent(Trim(name));
  }

  /** Names that differ only in ASCII letter case share a key. */
  lemma NormalizeKeyIgnoresCase(name: string)
    ensures NormalizeKey(AsciiLower(name)) == NormalizeKey(name)
  {
    LowerTrim(name);
    LowerIdempotent(Trim(name));
  }

  function Snapshot(a: Area): (s: AreaSnapshot)
    ensures s.name == a.name && s.min == a.min && s.max == a.max
    ensures s.color == a.color && s.enabled == a.enabled && s.highlight == a.highlight
  {
    AreaSnapshot(a.name, a.min, a.max, a.color, a.enabled, a.highlight)
  }

  /** Proof helper: "default" has nothing to trim. */
  lemma DefaultTrimmed()
    ensures Trim("default") == "default"
  {
    var t := "default";
    assert t[0] == 'd' && t[|t| - 1] == 't';
    TrimFixed(t);
  }

  /** Proof helper: "default" is already lower case. */
  lemma DefaultLower()
    ensures AsciiLower("default") == "default"
  {
    var t := "default";
    forall i | 0 <= i < |t| ensures LowerChar(t[i]) == t[i] {
      assert 'a' <= t[i] <= 'z';
    }
  }

  /** The legacy area's name "default" is its own key. */
  lemma DefaultNameKey()
    ensures NormalizeKey("default") == "default"
  {
    DefaultTrimmed();
    DefaultLower();
  }
}
