/**
 * Reading a block position out of a chat line, as the Pro Tools automation does when it
 * waits for the server to confirm a corner. Three regular expressions are tried in turn
 * and the first one that finds a match anywhere in the line decides the result:
 *
 *   1. `\((-?\d+)\s*,\s*(-?\d+)\s*,\s*(-?\d+)\)`                        "(x, y, z)"
 *   2. `x\s*[:=]\s*(-?\d+).{0,24}y\s*[:=]\s*(-?\d+).{0,24}z\s*[:=]\s*(-?\d+)`,
 *      case-insensitive                                                   "x: 1 y: 2 z: 3"
 *   3. `(-?\d+)\s*,\s*(-?\d+)\s*,\s*(-?\d+)`                            "x, y, z"
 *
 * The matcher is written out as functions with the backtracking order of java.util.regex:
 * the leftmost start wins, `\d+` and `\s*` take as much as they can (no shorter choice could
 * let a match succeed that the longest one misses, because a digit or a space is never the
 * character the pattern needs next), and the greedy gap `.{0,24}` is tried longest first.
 * The three groups then go through `Integer.parseInt`; an overflow gives no position and the
 * later patterns are not tried.
 */
module Coords {
  import opened Wrappers
  import opened JavaText
  import opened Areas

  /** `\d`: the ASCII digits. */
  predicate IsDigit(c: char) {
    '0' <= c <= '9'
  }

  /** `\s`: space, tab, line feed, vertical tab, form feed and carriage return. */
  predicate IsSpace(c: char) {
    c == ' ' || c == '\t' || c == '\n' || c as int == 0x0B || c as int == 0x0C || c == '\r'
  }

  /** The characters `.` does not match: the line terminators. */
  predicate IsLineEnd(c: char) {
    c == '\n' || c == '\r' || c as int == 0x85 || c as int == 0x2028 || c as int == 0x2029
  }

  /** The end of the run of digits that starts at `i`. */
  function DigitsEnd(s: string, i: nat): (e: nat)
    requires i <= |s|
    ensures i <= e <= |s|
    ensures e == |s| || !IsDigit(s[e])
    decreases |s| - i
  {
    if i < |s| && IsDigit(s[i]) then DigitsEnd(s, i + 1) else i
  }

  /** The end of the run of `\s` characters that starts at `i`. */
  function SpacesEnd(s: string, i: nat): (e: nat)
    requires i <= |s|
    ensures i <= e <= |s|
    ensures e == |s| || !IsSpace(s[e])
    decreases |s| - i
  {
    if i < |s| && IsSpace(s[i]) then SpacesEnd(s, i + 1) else i
  }

  /** The text a group `(-?\d+)` captures: an optional minus sign and at least one digit. */
  predicate IsIntText(t: string) {
    var j := if |t| > 0 && t[0] == '-' then 1 else 0;
    j < |t| && forall k :: j <= k < |t| ==> IsDigit(t[k])
  }

  /** `(-?\d+)` at `i`: the end of the group, which runs to the last digit that follows. */
  function IntGroup(s: string, i: nat): (r: Option<nat>)
    requires i <= |s|
    ensures r.Some? ==> i < r.value <= |s|
    ensures r.Some? ==> r.value == |s| || !IsDigit(s[r.value])
  {
    var j := if i < |s| && s[i] == '-' then i + 1 else i;
    var e := DigitsEnd(s, j);
    if e == j then None else Some(e)
  }

  /** Every character the digit run passes over is a digit. */
  lemma {:induction false} DigitsEndDigits(s: string, i: nat)
    requires i <= |s|
    ensures forall k :: i <= k < DigitsEnd(s, i) ==> IsDigit(s[k])
    decreases |s| - i
  {
    if i < |s| && IsDigit(s[i]) {
      DigitsEndDigits(s, i + 1);
    }
  }

  /** What a group `(-?\d+)` captures is an optional minus sign and at least one digit. */
  lemma IntGroupText(s: string, i: nat)
    requires i <= |s| && IntGroup(s, i).Some?
    ensures IsIntText(s[i..IntGroup(s, i).value])
  {
    var e := IntGroup(s, i).value;
    var j := if s[i] == '-' then i + 1 else i;
    DigitsEndDigits(s, j);
    assert forall k :: j - i <= k < e - i ==> s[i..e][k] == s[i + k];
  }

  /** A capturing group's start and end offsets in the message. */
  datatype Group = Group(start: nat, end: nat)

  /** `\s*,\s*(-?\d+)` at `i`: where the group starts and ends. */
  function CommaGroup(s: string, i: nat): (r: Option<Group>)
    requires i <= |s|
    ensures r.Some? ==> i < r.value.start < r.value.end <= |s|
  {
    var a := SpacesEnd(s, i);
    if a < |s| && s[a] == ',' then
      var b := SpacesEnd(s, a + 1);
      match IntGroup(s, b)
      case None => None
      case Some(e) => Some(Group(b, e))
    else None
  }

  /** The y and z groups of the labelled pattern, as its tail after the x group reports them. */
  datatype YZ = YZ(y: Group, z: Group)

  /** A match's three groups, as start and end offsets in the message. */
  datatype Spans = Spans(x0: nat, x1: nat, y0: nat, y1: nat, z0: nat, z1: nat)

  /** The spans lie in order inside a message of length `n`. */
  predicate InOrder(g: Spans, n: nat) {
    g.x0 < g.x1 <= g.y0 < g.y1 <= g.z0 < g.z1 <= n
  }

  /** `(-?\d+)\s*,\s*(-?\d+)\s*,\s*(-?\d+)` at `i`. */
  function TripleAt(s: string, i: nat): (r: Option<Spans>)
    requires i <= |s|
    ensures r.Some? ==> r.value.x0 == i && InOrder(r.value, |s|)
  {
    match IntGroup(s, i)
    case None => None
    case Some(e1) =>
      match CommaGroup(s, e1)
      case None => None
      case Some(y) =>
        match CommaGroup(s, y.end)
        case None => None
        case Some(z) => Some(Spans(i, e1, y.start, y.end, z.start, z.end))
  }

  /** `\((-?\d+)\s*,\s*(-?\d+)\s*,\s*(-?\d+)\)` at `i`. */
  function ParenAt(s: string, i: nat): (r: Option<Spans>)
    requires i <= |s|
    ensures r.Some? ==> i < |s| && s[i] == '(' && r.value.x0 == i + 1 && InOrder(r.value, |s|)
    ensures r.Some? ==> r.value.z1 < |s| && s[r.value.z1] == ')'
  {
    if i < |s| && s[i] == '(' then
      match TripleAt(s, i + 1)
      case None => None
      case Some(g) => if g.z1 < |s| && s[g.z1] == ')' then Some(g) else None
    else None
  }

  /** The character at `i` is the ASCII letter `l` in either case. */
  predicate LetterAt(s: string, i: nat, l: char) {
    i < |s| && LowerChar(s[i]) == l
  }

  /** `l\s*[:=]\s*(-?\d+)` at `i`, with the ASCII letter `l` matched in either case. */
  function LabelAt(s: string, i: nat, l: char): (r: Option<Group>)
    requires i <= |s|
    ensures r.Some? ==> LetterAt(s, i, l) && i < r.value.start < r.value.end <= |s|
  {
    if LetterAt(s, i, l) then
      var a := SpacesEnd(s, i + 1);
      if a < |s| && (s[a] == ':' || s[a] == '=') then
        var b := SpacesEnd(s, a + 1);
        match IntGroup(s, b)
        case None => None
        case Some(e) => Some(Group(b, e))
      else None
    else None
  }

  /** The farthest end of `.{0,24}` from `p`: at most 24 characters, none a line terminator. */
  function GapEnd(s: string, p: nat, n: nat): (q: nat)
    requires p <= |s|
    ensures p <= q <= |s| && q <= p + n
    ensures q == p + n || q == |s| || IsLineEnd(s[q])
    decreases n
  {
    if n == 0 || p == |s| || IsLineEnd(s[p]) then p
    else GapEnd(s, p + 1, n - 1)
  }

  const GAP_MAX: nat := 24

  /**
   * How java.util.regex backs off a greedy `.{0,n}` after `p`: the rest of the pattern is tried
   * with the gap ending at `q`, then at `q - 1`, ..., down to `p`, and the first attempt that
   * matches wins. `f(k)` is the attempt with the gap ending at `k`.
   */
  function Backoff<T>(f: nat -> Option<T>, p: nat, q: nat): (r: Option<T>)
    requires p <= q
    decreases q
  {
    match f(q)
    case Some(v) => Some(v)
    case None => if q == p then None else Backoff(f, p, q - 1)
  }

  /** What the back-off reports is one of the attempts it made. */
  lemma {:induction false} BackoffFrom<T>(f: nat -> Option<T>, p: nat, q: nat)
    requires p <= q
    ensures Backoff(f, p, q).Some? ==> exists k :: p <= k <= q && f(k) == Backoff(f, p, q)
    decreases q
  {
    if f(q).None? && q > p {
      BackoffFrom(f, p, q - 1);
    }
  }

  /** `z\s*[:=]\s*(-?\d+)` at each position of the line. */
  function ZAttempts(s: string): nat -> Option<Group> {
    (k: nat) => if k <= |s| then LabelAt(s, k, 'z') else None
  }

  /** `.{0,24}z\s*[:=]\s*(-?\d+)` after `p`, trying the gaps ending at `q`, `q - 1`, ..., `p`. */
  function ZStage(s: string, p: nat, q: nat): (r: Option<Group>)
    requires p <= q <= |s|
    ensures r.Some? ==> p < r.value.start < r.value.end <= |s|
  {
    BackoffFrom(ZAttempts(s), p, q);
    Backoff(ZAttempts(s), p, q)
  }

  /** `y\s*[:=]\s*(-?\d+).{0,24}z\s*[:=]\s*(-?\d+)` at `q`, the z stage backing off as needed. */
  function YAt(s: string, q: nat): (r: Option<YZ>)
    requires q <= |s|
    ensures r.Some? ==> q < r.value.y.start < r.value.y.end < r.value.z.start < r.value.z.end <= |s|
  {
    match LabelAt(s, q, 'y')
    case None => None
    case Some(y) =>
      match ZStage(s, y.end, GapEnd(s, y.end, GAP_MAX))
      case None => None
      case Some(z) => Some(YZ(y, z))
  }

  /** The y-and-z tail of the labelled pattern at each position of the line. */
  function YAttempts(s: string): nat -> Option<YZ> {
    (k: nat) => if k <= |s| then YAt(s, k) else None
  }

  /**
   * `.{0,24}y\s*[:=]\s*(-?\d+).{0,24}z\s*[:=]\s*(-?\d+)` after `p`, trying the gaps ending at
   * `q`, `q - 1`, ..., `p`; a `y` group whose z stage fails makes the matcher back off to a shorter gap.
   */
  function YStage(s: string, p: nat, q: nat): (r: Option<YZ>)
    requires p <= q <= |s|
    ensures r.Some? ==> p < r.value.y.start < r.value.y.end < r.value.z.start < r.value.z.end <= |s|
  {
    BackoffFrom(YAttempts(s), p, q);
    Backoff(YAttempts(s), p, q)
  }

  /** The whole labelled pattern at `i`. */
  function LabeledAt(s: string, i: nat): (r: Option<Spans>)
    requires i <= |s|
    ensures r.Some? ==> i < r.value.x0 && InOrder(r.value, |s|)
    ensures r.Some? ==> LetterAt(s, i, 'x')
  {
    match LabelAt(s, i, 'x')
    case None => None
    case Some(x) =>
      match YStage(s, x.end, GapEnd(s, x.end, GAP_MAX))
      case None => None
      case Some(yz) => Some(Spans(x.start, x.end, yz.y.start, yz.y.end, yz.z.start, yz.z.end))
  }

  // `Matcher.find()` for each pattern: the match at the leftmost start at or after `i`.

  function FindParen(s: string, i: nat): (r: Option<Spans>)
    requires i <= |s|
    ensures r.Some? ==> InOrder(r.value, |s|)
    decreases |s| - i
  {
    match ParenAt(s, i)
    case Some(g) => Some(g)
    case None => if i == |s| then None else FindParen(s, i + 1)
  }

  function FindLabeled(s: string, i: nat): (r: Option<Spans>)
    requires i <= |s|
    ensures r.Some? ==> InOrder(r.value, |s|)
    decreases |s| - i
  {
    match LabeledAt(s, i)
    case Some(g) => Some(g)
    case None => if i == |s| then None else FindLabeled(s, i + 1)
  }

  function FindBare(s: string, i: nat): (r: Option<Spans>)
    requires i <= |s|
    ensures r.Some? ==> InOrder(r.value, |s|)
    decreases |s| - i
  {
    match TripleAt(s, i)
    case Some(g) => Some(g)
    case None => if i == |s| then None else FindBare(s, i + 1)
  }

  /** `Integer.parseInt` of three texts; any failure gives no position. */
  function Coordinates(x: string, y: string, z: string): (r: Option<BlockPos>)
  {
    match (ParseInt(x, 10), ParseInt(y, 10), ParseInt(z, 10))
    case (Some(a), Some(b), Some(c)) => Some(BlockPos(a, b, c))
    case _ => None
  }

  /** `toBlockPos`: the coordinates the three groups of a match spell. */
  function ToBlockPos(s: string, g: Spans): (r: Option<BlockPos>)
    requires InOrder(g, |s|)
  {
    Coordinates(s[g.x0..g.x1], s[g.y0..g.y1], s[g.z0..g.z1])
  }

  /** `parseCoordsFromMessage`: the first pattern that finds a match decides, overflow or not. */
  function ParseCoords(s: string): (r: Option<BlockPos>)
  {
    match FindParen(s, 0)
    case Some(g) => ToBlockPos(s, g)
    case None =>
      match FindLabeled(s, 0)
      case Some(g) => ToBlockPos(s, g)
      case None =>
        match FindBare(s, 0)
        case Some(g) => ToBlockPos(s, g)
        case None => None
  }

  // ---------------------------------------------------------------- round trip

  /** How a position reads in the `(x, y, z)` form, each coordinate as `Integer.toString` writes it. */
  function ParenText(p: BlockPos): string {
    "(" + Dec(p.x) + ", " + Dec(p.y) + ", " + Dec(p.z) + ")"
  }

  lemma {:induction false} DigitsEndRun(s: string, j: nat, e: nat)
    requires j <= e <= |s|
    requires forall k :: j <= k < e ==> IsDigit(s[k])
    requires e == |s| || !IsDigit(s[e])
    ensures DigitsEnd(s, j) == e
    decreases e - j
  {
    if j < e {
      DigitsEndRun(s, j + 1, e);
    }
  }

  /** What `Integer.toString` writes: a minus sign or a digit first, then digits only, at least one. */
  predicate IsNumeral(t: string) {
    |t| > 0 && (t[0] == '-' || IsDigit(t[0])) && (t[0] == '-' ==> |t| >= 2) &&
    forall k :: 1 <= k < |t| ==> IsDigit(t[k])
  }

  lemma DecNumeral(v: int)
    ensures IsNumeral(Dec(v))
  {
  }

  /** `(-?\d+)` at `i` captures exactly the numeral `s[i..e]` when no digit follows it. */
  lemma NumeralGroup(s: string, i: nat, e: nat)
    requires i <= e <= |s| && IsNumeral(s[i..e])
    requires e == |s| || !IsDigit(s[e])
    ensures IntGroup(s, i) == Some(e)
  {
    var t := s[i..e];
    assert s[i] == t[0];
    var j := if s[i] == '-' then i + 1 else i;
    assert forall k :: j <= k < e ==> s[k] == t[k - i];
    DigitsEndRun(s, j, e);
  }

  /** `\s*,\s*(-?\d+)` at `i` reads a ", " followed by the numeral `s[i + 2..e]` when no digit follows. */
  lemma CommaNumeralGroup(s: string, i: nat, e: nat)
    requires i + 2 <= e <= |s| && s[i] == ',' && s[i + 1] == ' ' && IsNumeral(s[i + 2..e])
    requires e == |s| || !IsDigit(s[e])
    ensures CommaGroup(s, i) == Some(Group(i + 2, e))
  {
    assert s[i + 2] == s[i + 2..e][0];
    assert SpacesEnd(s, i + 1) == i + 2;
    NumeralGroup(s, i + 2, e);
  }

  /** `ParenText(p)` is the `(x, y, z)` form with nothing after it. */
  lemma ParenTextLayout(p: BlockPos)
    ensures var s, e1 := ParenText(p), 1 + |Dec(p.x)|;
      var e2 := e1 + 2 + |Dec(p.y)|;
      var e3 := e2 + 2 + |Dec(p.z)|;
      |s| > e3 && s[0] == '(' && s[1..e1] == Dec(p.x) && s[e1] == ',' && s[e1 + 1] == ' ' &&
      s[e1 + 2..e2] == Dec(p.y) && s[e2] == ',' && s[e2 + 1] == ' ' &&
      s[e2 + 2..e3] == Dec(p.z) && s[e3] == ')'
  {
    assert ParenText(p) == ParenText(p) + [];
    ParenPrefixLayout(Dec(p.x), Dec(p.y), Dec(p.z), []);
  }

  /** Where `(x, y, z)` puts its groups when the numerals are `lx`, `ly` and `lz` characters long. */
  function ParenSpans(lx: nat, ly: nat, lz: nat): Spans {
    Spans(1, 1 + lx, 3 + lx, 3 + lx + ly, 5 + lx + ly, 5 + lx + ly + lz)
  }

  /** Three groups read one after the other make a match of the bare pattern. */
  lemma TripleOf(s: string, i: nat, g: Spans)
    requires i <= |s| && g.x0 == i
    requires IntGroup(s, i) == Some(g.x1)
    requires CommaGroup(s, g.x1) == Some(Group(g.y0, g.y1)) && CommaGroup(s, g.y1) == Some(Group(g.z0, g.z1))
    ensures TripleAt(s, i) == Some(g)
  {
  }

  /** Three groups between parentheses make a match of the `(x, y, z)` pattern. */
  lemma ParenOf(s: string, g: Spans)
    requires |s| > 0 && s[0] == '(' && TripleAt(s, 1) == Some(g) && g.z1 < |s| && s[g.z1] == ')'
    ensures ParenAt(s, 0) == Some(g)
  {
  }

  /** A match at the first character is what `find()` reports. */
  lemma FoundAtStart(s: string, g: Spans)
    requires ParenAt(s, 0) == Some(g)
    ensures FindParen(s, 0) == Some(g)
  {
  }

  /** Where `x, y, z` puts its groups when it starts at `i`. */
  function TripleSpans(i: nat, lx: nat, ly: nat, lz: nat): Spans {
    Spans(i, i + lx, i + lx + 2, i + lx + 2 + ly, i + lx + 4 + ly, i + lx + 4 + ly + lz)
  }

  /** The three groups of x + ", " + y + ", " + z at `i`, each read on its own. */
  lemma TripleGroups(s: string, g: Spans)
    requires g.x0 < g.x1 && g.y0 == g.x1 + 2 && g.y0 < g.y1 && g.z0 == g.y1 + 2 && g.z0 < g.z1 <= |s|
    requires IsNumeral(s[g.x0..g.x1]) && IsNumeral(s[g.y0..g.y1]) && IsNumeral(s[g.z0..g.z1])
    requires s[g.x1] == ',' && s[g.x1 + 1] == ' ' && s[g.y1] == ',' && s[g.y1 + 1] == ' '
    requires g.z1 == |s| || !IsDigit(s[g.z1])
    ensures IntGroup(s, g.x0) == Some(g.x1) && CommaGroup(s, g.x1) == Some(Group(g.y0, g.y1)) &&
      CommaGroup(s, g.y1) == Some(Group(g.z0, g.z1))
  {
    NumeralGroup(s, g.x0, g.x1);
    CommaNumeralGroup(s, g.x1, g.y1);
    CommaNumeralGroup(s, g.y1, g.z1);
  }

  /** The bare pattern matches x + ", " + y + ", " + z at `i` when no digit follows. */
  lemma TripleMatch(s: string, i: nat, x: string, y: string, z: string)
    requires IsNumeral(x) && IsNumeral(y) && IsNumeral(z)
    requires var e1 := i + |x|;
      var e2 := e1 + 2 + |y|;
      var e3 := e2 + 2 + |z|;
      e3 <= |s| && s[i..e1] == x && s[e1] == ',' && s[e1 + 1] == ' ' &&
      s[e1 + 2..e2] == y && s[e2] == ',' && s[e2 + 1] == ' ' && s[e2 + 2..e3] == z &&
      (e3 == |s| || !IsDigit(s[e3]))
    ensures TripleAt(s, i) == Some(TripleSpans(i, |x|, |y|, |z|))
  {
    var g := TripleSpans(i, |x|, |y|, |z|);
    TripleGroups(s, g);
    TripleOf(s, i, g);
  }

  /** The `(x, y, z)` pattern matches "(" + x + ", " + y + ", " + z + ")" at the start of a line, whatever follows. */
  lemma ParenMatch(s: string, x: string, y: string, z: string)
    requires IsNumeral(x) && IsNumeral(y) && IsNumeral(z)
    requires var e1 := 1 + |x|;
      var e2 := e1 + 2 + |y|;
      var e3 := e2 + 2 + |z|;
      |s| > e3 && s[0] == '(' && s[1..e1] == x && s[e1] == ',' && s[e1 + 1] == ' ' &&
      s[e1 + 2..e2] == y && s[e2] == ',' && s[e2 + 1] == ' ' && s[e2 + 2..e3] == z && s[e3] == ')'
    ensures ParenAt(s, 0) == Some(ParenSpans(|x|, |y|, |z|))
  {
    TripleMatch(s, 1, x, y, z);
    ParenOf(s, ParenSpans(|x|, |y|, |z|));
  }

  /** When the `(x, y, z)` pattern finds a match, its groups decide the result. */
  lemma ParenDecides(s: string, g: Spans)
    requires FindParen(s, 0) == Some(g)
    ensures ParseCoords(s) == ToBlockPos(s, g)
  {
  }

  /** The three coordinates of a position, each written by `Integer.toString`, parse back to it. */
  lemma DecCoordinates(p: BlockPos)
    ensures Coordinates(Dec(p.x), Dec(p.y), Dec(p.z)) == Some(p)
  {
    DecRoundTrip(p.x);
    DecRoundTrip(p.y);
    DecRoundTrip(p.z);
  }

  /** Where `ParenText(p)` puts its groups. */
  function ParenTextSpans(p: BlockPos): Spans {
    ParenSpans(|Dec(p.x)|, |Dec(p.y)|, |Dec(p.z)|)
  }

  /** `find()` with the `(x, y, z)` pattern reports the three numbers of `ParenText(p)`. */
  lemma ParenTextFound(p: BlockPos)
    ensures FindParen(ParenText(p), 0) == Some(ParenTextSpans(p))
  {
    ParenTextLayout(p);
    DecNumeral(p.x);
    DecNumeral(p.y);
    DecNumeral(p.z);
    ParenMatch(ParenText(p), Dec(p.x), Dec(p.y), Dec(p.z));
    FoundAtStart(ParenText(p), ParenTextSpans(p));
  }

  /** The three groups of `ParenText(p)` are the numerals of its coordinates. */
  lemma ParenTextGroups(p: BlockPos)
    ensures var s, g := ParenText(p), ParenTextSpans(p);
      InOrder(g, |s|) && s[g.x0..g.x1] == Dec(p.x) && s[g.y0..g.y1] == Dec(p.y) && s[g.z0..g.z1] == Dec(p.z)
  {
    ParenTextLayout(p);
  }

  /** A position written as `(x, y, z)` reads back as itself. */
  lemma ParenRoundTrip(p: BlockPos)
    ensures ParseCoords(ParenText(p)) == Some(p)
  {
    ParenTextFound(p);
    ParenTextGroups(p);
    DecCoordinates(p);
    ParenDecides(ParenText(p), ParenTextSpans(p));
  }

  // ---------------------------------------------------------------- which pattern decides

  /** When only the labelled pattern finds a match, its groups decide the result. */
  lemma LabeledDecides(s: string, g: Spans)
    requires FindParen(s, 0).None? && FindLabeled(s, 0) == Some(g)
    ensures ParseCoords(s) == ToBlockPos(s, g)
  {
  }

  /** When neither of the first two patterns finds a match, the bare pattern decides. */
  lemma BareDecides(s: string, g: Spans)
    requires FindParen(s, 0).None? && FindLabeled(s, 0).None? && FindBare(s, 0) == Some(g)
    ensures ParseCoords(s) == ToBlockPos(s, g)
  {
  }

  /**
   * A matched `(x, y, z)` whose first number does not fit in an int gives no position, whatever
   * the rest of the line holds: the later patterns are not tried.
   */
  lemma ParenOverflowDecides(s: string, g: Spans)
    requires FindParen(s, 0) == Some(g) && ParseInt(s[g.x0..g.x1], 10).None?
    ensures ParseCoords(s) == None
  {
    ParenDecides(s, g);
  }

  /** A number above Integer.MAX_VALUE, written out, is a numeral `Integer.parseInt` refuses. */
  lemma OverflowNumeral(n: nat)
    requires n > INT_MAX
    ensures IsNumeral(Dec(n)) && ParseInt(Dec(n), 10).None?
  {
    DecNumeral(n);
    NatDigitsValue(n);
    assert Dec(n)[0] != '-' && Dec(n)[0] != '+';
  }

  /** Where "(" + x + ", " + y + ", " + z + ")" puts its parts at the start of a longer line. */
  lemma ParenPrefixLayout(x: string, y: string, z: string, rest: string)
    ensures var s := "(" + x + ", " + y + ", " + z + ")" + rest;
      var e1 := 1 + |x|;
      var e2 := e1 + 2 + |y|;
      var e3 := e2 + 2 + |z|;
      |s| > e3 && s[0] == '(' && s[1..e1] == x && s[e1] == ',' && s[e1 + 1] == ' ' &&
      s[e1 + 2..e2] == y && s[e2] == ',' && s[e2 + 1] == ' ' && s[e2 + 2..e3] == z && s[e3] == ')'
  {
    var s := "(" + x + ", " + y + ", " + z + ")" + rest;
    var e1 := 1 + |x|;
    var e2 := e1 + 2 + |y|;
    var e3 := e2 + 2 + |z|;
    assert s == ("(" + x) + (", " + y) + (", " + z) + (")" + rest);
    assert s[..e1] == "(" + x;
    assert s[e1..e2] == ", " + y;
    assert s[e2..e3] == ", " + z;
    assert s[e3..] == ")" + rest;
  }

  /** "(x, y, z)" at the start of a line whose `x` does not fit in an int gives no position. */
  lemma ParenPrefixOverflow(x: string, y: string, z: string, rest: string)
    requires IsNumeral(x) && IsNumeral(y) && IsNumeral(z) && ParseInt(x, 10).None?
    ensures ParseCoords("(" + x + ", " + y + ", " + z + ")" + rest) == None
  {
    var s := "(" + x + ", " + y + ", " + z + ")" + rest;
    ParenPrefixLayout(x, y, z, rest);
    ParenMatch(s, x, y, z);
    var g := ParenSpans(|x|, |y|, |z|);
    FoundAtStart(s, g);
    ParenOverflowDecides(s, g);
  }

  /**
   * "(n, y, z)" with `n` above Integer.MAX_VALUE gives no position, whatever follows it on the
   * line (a well-formed labelled position included).
   */
  lemma OverflowHidesRest(n: nat, y: int, z: int, rest: string)
    requires n > INT_MAX
    ensures ParseCoords("(" + Dec(n) + ", " + Dec(y) + ", " + Dec(z) + ")" + rest) == None
  {
    OverflowNumeral(n);
    DecNumeral(y);
    DecNumeral(z);
    ParenPrefixOverflow(Dec(n), Dec(y), Dec(z), rest);
  }

  // ---------------------------------------------------------------- lines without a match

  /** No character of `t` lower-cases to `l`. */
  predicate Lacks(t: string, l: char) {
    forall k :: 0 <= k < |t| ==> LowerChar(t[k]) != l
  }

  lemma LacksConcat(a: string, b: string, l: char)
    requires Lacks(a, l) && Lacks(b, l)
    ensures Lacks(a + b, l)
  {
    assert forall k :: 0 <= k < |a + b| ==> (a + b)[k] == if k < |a| then a[k] else b[k - |a|];
  }

  /** A numeral holds no letter and no parenthesis. */
  lemma NumeralLacks(t: string, l: char)
    requires IsNumeral(t) && l != '-' && !IsDigit(l)
    ensures Lacks(t, l)
  {
  }

  /** With no '(' from `i` on, the `(x, y, z)` pattern finds nothing. */
  lemma {:induction false} FindParenNone(s: string, i: nat)
    requires i <= |s| && forall k :: i <= k < |s| ==> LowerChar(s[k]) != '('
    ensures FindParen(s, i).None?
    decreases |s| - i
  {
    if i < |s| {
      FindParenNone(s, i + 1);
    }
  }

  /** With no x or X from `i` on, the labelled pattern finds nothing. */
  lemma {:induction false} FindLabeledNone(s: string, i: nat)
    requires i <= |s| && forall k :: i <= k ==> !LetterAt(s, k, 'x')
    ensures FindLabeled(s, i).None?
    decreases |s| - i
  {
    if i < |s| {
      FindLabeledNone(s, i + 1);
    }
  }

  // ---------------------------------------------------------------- the bare form

  /** How a position reads in the bare `x, y, z` form. */
  function BareText(p: BlockPos): string {
    Dec(p.x) + ", " + Dec(p.y) + ", " + Dec(p.z)
  }

  /** A match of the bare pattern at the first character is what `find()` reports. */
  lemma BareFoundAtStart(s: string, g: Spans)
    requires TripleAt(s, 0) == Some(g)
    ensures FindBare(s, 0) == Some(g)
  {
  }

  /** Where x + ", " + y + ", " + z puts its parts. */
  lemma BareLayout(x: string, y: string, z: string)
    ensures var s, e1 := x + ", " + y + ", " + z, |x|;
      var e2 := e1 + 2 + |y|;
      var e3 := e2 + 2 + |z|;
      e3 == |s| && s[0..e1] == x && s[e1] == ',' && s[e1 + 1] == ' ' &&
      s[e1 + 2..e2] == y && s[e2] == ',' && s[e2 + 1] == ' ' && s[e2 + 2..e3] == z
  {
    var s := x + ", " + y + ", " + z;
    var e1 := |x|;
    var e2 := e1 + 2 + |y|;
    assert s == x + (", " + y) + (", " + z);
    assert s[..e1] == x;
    assert s[e1..e2] == ", " + y;
    assert s[e2..] == ", " + z;
  }

  /** Numerals joined by ", " hold no '(' and no x. */
  lemma BareLacks(x: string, y: string, z: string, l: char)
    requires IsNumeral(x) && IsNumeral(y) && IsNumeral(z) && (l == '(' || l == 'x')
    ensures Lacks(x + ", " + y + ", " + z, l)
  {
    NumeralLacks(x, l);
    NumeralLacks(y, l);
    NumeralLacks(z, l);
    LacksConcat(x, ", " + y, l);
    LacksConcat(x + (", " + y), ", " + z, l);
    assert x + ", " + y + ", " + z == x + (", " + y) + (", " + z);
  }

  /** Three numerals joined by ", " are found by the bare pattern, and only by it. */
  lemma BareMatch(x: string, y: string, z: string)
    requires IsNumeral(x) && IsNumeral(y) && IsNumeral(z)
    ensures var s := x + ", " + y + ", " + z;
      FindParen(s, 0).None? && FindLabeled(s, 0).None? &&
      FindBare(s, 0) == Some(TripleSpans(0, |x|, |y|, |z|))
  {
    var s := x + ", " + y + ", " + z;
    BareLacks(x, y, z, '(');
    FindParenNone(s, 0);
    BareLacks(x, y, z, 'x');
    FindLabeledNone(s, 0);
    BareLayout(x, y, z);
    TripleMatch(s, 0, x, y, z);
    BareFoundAtStart(s, TripleSpans(0, |x|, |y|, |z|));
  }

  /** Where `BareText(p)` puts its groups. */
  function BareTextSpans(p: BlockPos): Spans {
    TripleSpans(0, |Dec(p.x)|, |Dec(p.y)|, |Dec(p.z)|)
  }

  /** Only the bare pattern matches `BareText(p)`, and it reports the three numbers. */
  lemma BareTextFound(p: BlockPos)
    ensures FindParen(BareText(p), 0).None? && FindLabeled(BareText(p), 0).None?
    ensures FindBare(BareText(p), 0) == Some(BareTextSpans(p))
  {
    DecNumeral(p.x);
    DecNumeral(p.y);
    DecNumeral(p.z);
    BareMatch(Dec(p.x), Dec(p.y), Dec(p.z));
  }

  /** The three groups of `BareText(p)` are the numerals of its coordinates. */
  lemma BareTextGroups(p: BlockPos)
    ensures var s, g := BareText(p), BareTextSpans(p);
      InOrder(g, |s|) && s[g.x0..g.x1] == Dec(p.x) && s[g.y0..g.y1] == Dec(p.y) && s[g.z0..g.z1] == Dec(p.z)
  {
    BareLayout(Dec(p.x), Dec(p.y), Dec(p.z));
  }

  /** A position written as bare `x, y, z` reads back as itself, through the third pattern. */
  lemma BareRoundTrip(p: BlockPos)
    ensures ParseCoords(BareText(p)) == Some(p)
  {
    BareTextFound(p);
    BareTextGroups(p);
    DecCoordinates(p);
    BareDecides(BareText(p), BareTextSpans(p));
  }

  // ---------------------------------------------------------------- the labelled form

  /** A label letter, a colon, a space and a numeral: one third of "x: 1 y: 2 z: 3". */
  function Piece(c: char, t: string): string {
    [c] + ": " + t
  }

  /** Three pieces, one space apart. */
  function LabeledLine(cx: char, cy: char, cz: char, x: string, y: string, z: string): string {
    Piece(cx, x) + " " + Piece(cy, y) + " " + Piece(cz, z)
  }

  /** Where the numerals of `LabeledLine` stand. */
  function LabeledSpans(x: string, y: string, z: string): Spans {
    var e1 := 3 + |x|;
    var e2 := e1 + 4 + |y|;
    Spans(3, e1, e1 + 4, e2, e2 + 4, e2 + 4 + |z|)
  }

  /** How a position reads in the labelled form, each label letter `cx`, `cy`, `cz` in either case. */
  function LabeledText(cx: char, cy: char, cz: char, p: BlockPos): string {
    LabeledLine(cx, cy, cz, Dec(p.x), Dec(p.y), Dec(p.z))
  }

  /** At `i` stands a piece for the label `l` whose numeral is `t`, and no digit follows it. */
  predicate LabelPieceAt(s: string, i: nat, l: char, t: string) {
    i + 3 + |t| <= |s| && LetterAt(s, i, l) && s[i + 1] == ':' && s[i + 2] == ' ' &&
    s[i + 3..i + 3 + |t|] == t && IsNumeral(t) && (i + 3 + |t| == |s| || !IsDigit(s[i + 3 + |t|]))
  }

  /** `l\s*[:=]\s*(-?\d+)` reads a piece for `l`. */
  lemma LabelPieceRead(s: string, i: nat, l: char, t: string)
    requires LabelPieceAt(s, i, l, t)
    ensures LabelAt(s, i, l) == Some(Group(i + 3, i + 3 + |t|))
  {
    assert s[i + 3] == t[0];
    assert SpacesEnd(s, i + 1) == i + 1;
    assert SpacesEnd(s, i + 2) == i + 3;
    NumeralGroup(s, i + 3, i + 3 + |t|);
  }

  /** A gap may run at least over one character that ends no line. */
  lemma GapPast(s: string, p: nat, n: nat)
    requires p < |s| && 0 < n && !IsLineEnd(s[p])
    ensures GapEnd(s, p, n) >= p + 1
  {
  }

  /** Attempts after `t` that fail are passed over. */
  lemma {:induction false} BackoffSkip<T>(f: nat -> Option<T>, p: nat, t: nat, q: nat)
    requires p <= t <= q
    requires forall k :: t < k <= q ==> f(k).None?
    ensures Backoff(f, p, q) == Backoff(f, p, t)
    decreases q
  {
    if q > t {
      BackoffSkip(f, p, t, q - 1);
    }
  }

  /** When the attempts after `p + 1` fail and the one at `p + 1` matches, that one is taken. */
  lemma BackoffFirst<T>(f: nat -> Option<T>, p: nat, q: nat, v: T)
    requires p + 1 <= q && f(p + 1) == Some(v)
    requires forall k :: p + 1 < k <= q ==> f(k).None?
    ensures Backoff(f, p, q) == Some(v)
  {
    BackoffSkip(f, p, p + 1, q);
    BackoffHere(f, p, p + 1);
  }

  /** An attempt that matches with the gap ending at `t` is taken when `t` is the longest gap left. */
  lemma BackoffHere<T>(f: nat -> Option<T>, p: nat, t: nat)
    requires p <= t && f(t).Some?
    ensures Backoff(f, p, t) == f(t)
  {
  }

  /** After one space, the only z piece of the rest of the line is the one the z stage reads. */
  lemma ZFound(s: string, p: nat, g: Group)
    requires p + 1 < |s| && !IsLineEnd(s[p]) && LabelAt(s, p + 1, 'z') == Some(g)
    requires forall k :: p + 1 < k ==> !LetterAt(s, k, 'z')
    ensures ZStage(s, p, GapEnd(s, p, GAP_MAX)) == Some(g)
  {
    var q := GapEnd(s, p, GAP_MAX);
    GapPast(s, p, GAP_MAX);
    ZLaterAttempts(s, p, q);
    BackoffFirst(ZAttempts(s), p, q, g);
  }

  /** With no z after `p + 1`, every later attempt of the z stage fails. */
  lemma ZLaterAttempts(s: string, p: nat, q: nat)
    requires forall k :: p + 1 < k ==> !LetterAt(s, k, 'z')
    ensures forall k :: p + 1 < k <= q ==> ZAttempts(s)(k).None?
  {
    forall k | p + 1 < k <= q
      ensures ZAttempts(s)(k).None?
    {
      assert !LetterAt(s, k, 'z');
    }
  }

  /** After one space, the only y piece of the rest of the line is the one the y stage reads. */
  lemma YFound(s: string, p: nat, gy: Group, gz: Group)
    requires p + 1 < |s| && !IsLineEnd(s[p]) && LabelAt(s, p + 1, 'y') == Some(gy)
    requires ZStage(s, gy.end, GapEnd(s, gy.end, GAP_MAX)) == Some(gz)
    requires forall k :: p + 1 < k ==> !LetterAt(s, k, 'y')
    ensures YStage(s, p, GapEnd(s, p, GAP_MAX)) == Some(YZ(gy, gz))
  {
    var q := GapEnd(s, p, GAP_MAX);
    GapPast(s, p, GAP_MAX);
    YFirstAttempt(s, p, gy, gz);
    YLaterAttempts(s, p, q);
    BackoffFirst(YAttempts(s), p, q, YZ(gy, gz));
  }

  /** The attempt right after `p` finds the y piece there and the z stage after it. */
  lemma YFirstAttempt(s: string, p: nat, gy: Group, gz: Group)
    requires p + 1 <= |s| && LabelAt(s, p + 1, 'y') == Some(gy)
    requires ZStage(s, gy.end, GapEnd(s, gy.end, GAP_MAX)) == Some(gz)
    ensures YAttempts(s)(p + 1) == Some(YZ(gy, gz))
  {
  }

  /** With no y after `p + 1`, every later attempt of the y stage fails. */
  lemma YLaterAttempts(s: string, p: nat, q: nat)
    requires forall k :: p + 1 < k ==> !LetterAt(s, k, 'y')
    ensures forall k :: p + 1 < k <= q ==> YAttempts(s)(k).None?
  {
    forall k | p + 1 < k <= q
      ensures YAttempts(s)(k).None?
    {
      assert !LetterAt(s, k, 'y');
    }
  }

  /** An x piece at the start followed by y and z pieces the y stage takes is the match of the
      labelled pattern that `find()` reports. */
  lemma LabeledMatch(s: string, e1: nat, gy: Group, gz: Group)
    requires e1 <= |s| && LabelAt(s, 0, 'x') == Some(Group(3, e1))
    requires YStage(s, e1, GapEnd(s, e1, GAP_MAX)) == Some(YZ(gy, gz))
    ensures FindLabeled(s, 0) == Some(Spans(3, e1, gy.start, gy.end, gz.start, gz.end))
  {
    assert LabeledAt(s, 0) == Some(Spans(3, e1, gy.start, gy.end, gz.start, gz.end));
  }

  /** A string that lacks `l` from `i` on has no character lower-casing to `l` there. */
  lemma LacksFrom(s: string, i: nat, l: char)
    requires i <= |s| && Lacks(s[i..], l)
    ensures forall k :: i <= k ==> !LetterAt(s, k, l)
  {
    assert forall k :: i <= k < |s| ==> s[k] == s[i..][k - i];
  }

  /** Where a + " " + b + " " + c puts its parts. */
  lemma SpacedLayout(a: string, b: string, c: string)
    ensures var s, e1 := a + " " + b + " " + c, |a|;
      var e2 := e1 + 1 + |b|;
      |s| == e2 + 1 + |c| && s[0..e1] == a && s[e1] == ' ' && s[e1 + 1..e2] == b && s[e2] == ' ' &&
      s[e2 + 1..|s|] == c
  {
    var s := a + " " + b + " " + c;
    assert s == a + (" " + b) + (" " + c);
  }

  /** A piece for the letter `c` standing at `i` of a line, with no digit after it. */
  lemma PieceAt(s: string, i: nat, c: char, t: string, l: char, e: nat)
    requires IsNumeral(t) && LowerChar(c) == l
    requires e == i + 3 + |t| && e <= |s| && s[i..e] == Piece(c, t)
    requires e == |s| || !IsDigit(s[e])
    ensures LabelAt(s, i, l) == Some(Group(i + 3, e))
  {
    assert s[i] == s[i..e][0] && s[i + 1] == s[i..e][1] && s[i + 2] == s[i..e][2];
    assert s[i + 3..e] == s[i..e][3..];
    LabelPieceRead(s, i, l, t);
  }

  /** The tail of a line from `i` on is what follows the first `i` characters. */
  lemma TailFrom(s: string, i: nat, t: string)
    requires i <= |s| && s[i..] == t
    ensures forall l :: Lacks(t, l) ==> forall k :: i <= k ==> !LetterAt(s, k, l)
  {
    forall l | Lacks(t, l) {
      LacksFrom(s, i, l);
    }
  }

  /** The tails of the labelled form after its y and z letters hold no further y or z. */
  lemma LabeledLacks(cz: char, y: string, z: string)
    requires IsNumeral(y) && IsNumeral(z) && LowerChar(cz) == 'z'
    ensures Lacks(": " + y + " " + Piece(cz, z), 'y') && Lacks(": " + z, 'z')
  {
    NumeralLacks(y, 'y');
    NumeralLacks(z, 'y');
    NumeralLacks(z, 'z');
    LacksConcat(": ", z, 'y');
    LacksConcat(": ", z, 'z');
    LacksConcat(" " + [cz], ": " + z, 'y');
    LacksConcat(": " + y, " " + [cz] + (": " + z), 'y');
    LacksConcat(": ", y, 'y');
    assert Piece(cz, z) == [cz] + (": " + z);
    assert ": " + y + " " + Piece(cz, z) == (": " + y) + (" " + [cz] + (": " + z));
  }

  /** The labelled form holds no '(' as long as its labels are letters. */
  lemma LabeledNoParen(cx: char, cy: char, cz: char, x: string, y: string, z: string)
    requires IsNumeral(x) && IsNumeral(y) && IsNumeral(z)
    requires LowerChar(cx) == 'x' && LowerChar(cy) == 'y' && LowerChar(cz) == 'z'
    ensures Lacks(Piece(cx, x) + " " + Piece(cy, y) + " " + Piece(cz, z), '(')
  {
    NumeralLacks(x, '(');
    NumeralLacks(y, '(');
    NumeralLacks(z, '(');
    LacksConcat([cx] + ": ", x, '(');
    LacksConcat([cy] + ": ", y, '(');
    LacksConcat([cz] + ": ", z, '(');
    LacksConcat(Piece(cx, x), " ", '(');
    LacksConcat(Piece(cx, x) + " ", Piece(cy, y), '(');
    LacksConcat(Piece(cx, x) + " " + Piece(cy, y), " ", '(');
    LacksConcat(Piece(cx, x) + " " + Piece(cy, y) + " ", Piece(cz, z), '(');
  }

  /**
   * `s` is a piece for the label x with the numeral `x`, a space, one for y with `y` from `e1 + 1`,
   * a space, and one for z with `z` from `e2 + 1`.
   */
  predicate PiecesLayout(s: string, cx: char, cy: char, cz: char, x: string, y: string, z: string, e1: nat, e2: nat) {
    IsNumeral(x) && IsNumeral(y) && IsNumeral(z) &&
    LowerChar(cx) == 'x' && LowerChar(cy) == 'y' && LowerChar(cz) == 'z' &&
    e1 == 3 + |x| && e2 == e1 + 4 + |y| && |s| == e2 + 4 + |z| &&
    s[0..e1] == Piece(cx, x) && s[e1] == ' ' && s[e1 + 1..e2] == Piece(cy, y) && s[e2] == ' ' &&
    s[e2 + 1..|s|] == Piece(cz, z)
  }

  /** No y stands after the y letter at `e1 + 1`, and no z after the z letter at `e2 + 1`. */
  ghost predicate NoLaterLabels(s: string, e1: nat, e2: nat) {
    (forall k :: e1 + 1 < k ==> !LetterAt(s, k, 'y')) && (forall k :: e2 + 1 < k ==> !LetterAt(s, k, 'z'))
  }

  /** The y and z pieces after the x piece, with no y or z after their own letters, are what the
      y stage takes. */
  lemma LabeledStages(s: string, e1: nat, e2: nat)
    requires e1 + 4 < e2 && e2 + 4 < |s| && s[e1] == ' ' && s[e2] == ' '
    requires LabelAt(s, e1 + 1, 'y') == Some(Group(e1 + 4, e2))
    requires LabelAt(s, e2 + 1, 'z') == Some(Group(e2 + 4, |s|))
    requires NoLaterLabels(s, e1, e2)
    ensures YStage(s, e1, GapEnd(s, e1, GAP_MAX)) == Some(YZ(Group(e1 + 4, e2), Group(e2 + 4, |s|)))
  {
    ZFound(s, e2, Group(e2 + 4, |s|));
    YFound(s, e1, Group(e1 + 4, e2), Group(e2 + 4, |s|));
  }

  /** A line made of pieces for x, y and z, one space apart, with no y or z after their own letters,
      is found by the labelled pattern. */
  lemma PiecesFound(s: string, cx: char, cy: char, cz: char, x: string, y: string, z: string, e1: nat, e2: nat)
    requires PiecesLayout(s, cx, cy, cz, x, y, z, e1, e2) && NoLaterLabels(s, e1, e2)
    ensures FindLabeled(s, 0) == Some(Spans(3, e1, e1 + 4, e2, e2 + 4, |s|))
  {
    PiecesRead(s, cx, cy, cz, x, y, z, e1, e2);
    LabeledStages(s, e1, e2);
    LabeledMatch(s, e1, Group(e1 + 4, e2), Group(e2 + 4, |s|));
  }

  /** Each of three pieces, one space apart, is read by its label's pattern. */
  lemma PiecesRead(s: string, cx: char, cy: char, cz: char, x: string, y: string, z: string, e1: nat, e2: nat)
    requires PiecesLayout(s, cx, cy, cz, x, y, z, e1, e2)
    ensures LabelAt(s, 0, 'x') == Some(Group(3, e1))
    ensures LabelAt(s, e1 + 1, 'y') == Some(Group(e1 + 4, e2))
    ensures LabelAt(s, e2 + 1, 'z') == Some(Group(e2 + 4, |s|))
  {
    PieceAt(s, 0, cx, x, 'x', e1);
    PieceAt(s, e1 + 1, cy, y, 'y', e2);
    PieceAt(s, e2 + 1, cz, z, 'z', |s|);
  }

  /** After the y letter of the labelled form no y follows, and after its z letter no z. */
  lemma LabeledTails(cx: char, cy: char, cz: char, x: string, y: string, z: string)
    requires IsNumeral(y) && IsNumeral(z) && LowerChar(cz) == 'z'
    ensures var s, e1 := Piece(cx, x) + " " + Piece(cy, y) + " " + Piece(cz, z), 3 + |x|;
      var e2 := e1 + 4 + |y|;
      (forall k :: e1 + 1 < k ==> !LetterAt(s, k, 'y')) && (forall k :: e2 + 1 < k ==> !LetterAt(s, k, 'z'))
  {
    var s := Piece(cx, x) + " " + Piece(cy, y) + " " + Piece(cz, z);
    var e1 := 3 + |x|;
    var e2 := e1 + 4 + |y|;
    assert s == [cx] + ": " + x + " " + [cy] + (": " + y + " " + Piece(cz, z));
    assert s[e1 + 2..] == ": " + y + " " + Piece(cz, z);
    assert s == [cx] + ": " + x + " " + [cy] + ": " + y + " " + [cz] + (": " + z);
    assert s[e2 + 2..] == ": " + z;
    LabeledLacks(cz, y, z);
    TailFrom(s, e1 + 2, ": " + y + " " + Piece(cz, z));
    TailFrom(s, e2 + 2, ": " + z);
  }

  /** The first pattern finds nothing in the labelled form. */
  lemma LabeledParenNone(cx: char, cy: char, cz: char, x: string, y: string, z: string)
    requires IsNumeral(x) && IsNumeral(y) && IsNumeral(z)
    requires LowerChar(cx) == 'x' && LowerChar(cy) == 'y' && LowerChar(cz) == 'z'
    ensures FindParen(Piece(cx, x) + " " + Piece(cy, y) + " " + Piece(cz, z), 0).None?
  {
    var s := Piece(cx, x) + " " + Piece(cy, y) + " " + Piece(cz, z);
    LabeledNoParen(cx, cy, cz, x, y, z);
    FindParenNone(s, 0);
  }

  /** Three numerals in the labelled form are found by the labelled pattern. */
  lemma LabeledFound(cx: char, cy: char, cz: char, x: string, y: string, z: string)
    requires IsNumeral(x) && IsNumeral(y) && IsNumeral(z)
    requires LowerChar(cx) == 'x' && LowerChar(cy) == 'y' && LowerChar(cz) == 'z'
    ensures FindLabeled(LabeledLine(cx, cy, cz, x, y, z), 0) == Some(LabeledSpans(x, y, z))
  {
    var s := Piece(cx, x) + " " + Piece(cy, y) + " " + Piece(cz, z);
    var e1 := 3 + |x|;
    var e2 := e1 + 4 + |y|;
    assert LabeledLine(cx, cy, cz, x, y, z) == s;
    assert LabeledSpans(x, y, z) == Spans(3, e1, e1 + 4, e2, e2 + 4, |s|);
    SpacedLayout(Piece(cx, x), Piece(cy, y), Piece(cz, z));
    LabeledTails(cx, cy, cz, x, y, z);
    PiecesFound(s, cx, cy, cz, x, y, z, e1, e2);
  }

  /** The three groups of the labelled form are its numerals. */
  lemma LabeledGroups(cx: char, cy: char, cz: char, x: string, y: string, z: string)
    requires x != [] && y != [] && z != []
    ensures var s, g := LabeledLine(cx, cy, cz, x, y, z), LabeledSpans(x, y, z);
      InOrder(g, |s|) && s[g.x0..g.x1] == x && s[g.y0..g.y1] == y && s[g.z0..g.z1] == z
  {
    var a, b, c := Piece(cx, x), Piece(cy, y), Piece(cz, z);
    var s := a + " " + b + " " + c;
    SpacedLayout(a, b, c);
    var e1 := |a|;
    var e2 := e1 + 1 + |b|;
    assert LabeledLine(cx, cy, cz, x, y, z) == s;
    assert LabeledSpans(x, y, z) == Spans(3, e1, e1 + 4, e2, e2 + 4, |s|);
    assert a[3..] == x && b[3..] == y && c[3..] == z;
    assert s[3..e1] == s[0..e1][3..];
    assert s[e1 + 4..e2] == s[e1 + 1..e2][3..];
    assert s[e2 + 4..|s|] == s[e2 + 1..|s|][3..];
  }

  /** The labelled pattern finds the labelled form of a position, and the first pattern does not. */
  lemma LabeledTextFound(cx: char, cy: char, cz: char, p: BlockPos)
    requires LowerChar(cx) == 'x' && LowerChar(cy) == 'y' && LowerChar(cz) == 'z'
    ensures var s := LabeledText(cx, cy, cz, p);
      FindParen(s, 0).None? && FindLabeled(s, 0) == Some(LabeledSpans(Dec(p.x), Dec(p.y), Dec(p.z)))
  {
    DecNumeral(p.x);
    DecNumeral(p.y);
    DecNumeral(p.z);
    LabeledParenNone(cx, cy, cz, Dec(p.x), Dec(p.y), Dec(p.z));
    LabeledFound(cx, cy, cz, Dec(p.x), Dec(p.y), Dec(p.z));
  }

  /** A position written as `x: 1 y: 2 z: 3`, in either case, reads back as itself through the
      second pattern. */
  lemma LabeledRoundTrip(cx: char, cy: char, cz: char, p: BlockPos)
    requires LowerChar(cx) == 'x' && LowerChar(cy) == 'y' && LowerChar(cz) == 'z'
    ensures ParseCoords(LabeledText(cx, cy, cz, p)) == Some(p)
  {
    LabeledTextFound(cx, cy, cz, p);
    DecNumeral(p.x);
    DecNumeral(p.y);
    DecNumeral(p.z);
    LabeledGroups(cx, cy, cz, Dec(p.x), Dec(p.y), Dec(p.z));
    DecCoordinates(p);
    LabeledDecides(LabeledText(cx, cy, cz, p), LabeledSpans(Dec(p.x), Dec(p.y), Dec(p.z)));
  }
}
