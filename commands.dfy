/**
 * The `/hlog` client command: its arguments are read into a request, and the request is
 * carried out on the area registry. The parse is a pure function of the arguments; what the
 * command answers and how the registry changes are functions of the request and the registry,
 * and `ProcessCommand` is proved to do exactly that.
 */
module Commands {
  import opened Wrappers
  import opened JavaText
  import opened Areas
  import opened AreaStore
  import opened Persist
  import opened Color
  import opened Manager

  /** Which usage line the command answers with. */
  datatype UsageLine = General | AddLine | RemoveLine | HighlightLine

  /** What a command line asks for. */
  datatype Request =
    | ShowUsage(line: UsageLine)
    | Add(name: string, a: BlockPos, b: BlockPos, color: bv32)
    | BadCoordinates
    | Clear
    | Delete(name: string)
    | List
    | Switch(on: bool)
    | Toggle(name: string)
    | Highlight(name: string, on: bool)
    | Paths

  /** The chat answer, up to its wording and formatting. */
  datatype Reply =
    | ShowsUsage(line: UsageLine)
    | NotIntegers
    | InvalidName
    | Added(name: string)
    | Cleared
    | Removed(name: string)
    | NoSuchArea(name: string)
    | Status(enabled: bool, areas: seq<AreaSnapshot>)
    | Logging(on: bool)
    | HighlightUpdated(name: string)
    | Files

  /** The sub-commands the command knows, in lower case. */
  predicate Subcommand(sub: string) {
    sub in {"add", "clear", "remove", "list", "status", "on", "off", "highlight", "path"}
  }

  /** The six `Integer.parseInt` calls on the corner coordinates of `add`; None if any of them throws. */
  function Corners(args: seq<string>): (c: Option<(BlockPos, BlockPos)>)
    requires |args| >= 8
    ensures c.Some? <==> ParseInt(args[2], 10).Some? && ParseInt(args[3], 10).Some? && ParseInt(args[4], 10).Some?
                         && ParseInt(args[5], 10).Some? && ParseInt(args[6], 10).Some? && ParseInt(args[7], 10).Some?
    ensures c.Some? ==> ParseInt(args[2], 10) == Some(c.value.0.x) && ParseInt(args[3], 10) == Some(c.value.0.y)
                        && ParseInt(args[4], 10) == Some(c.value.0.z)
    ensures c.Some? ==> ParseInt(args[5], 10) == Some(c.value.1.x) && ParseInt(args[6], 10) == Some(c.value.1.y)
                        && ParseInt(args[7], 10) == Some(c.value.1.z)
  {
    var x1, y1, z1 := ParseInt(args[2], 10), ParseInt(args[3], 10), ParseInt(args[4], 10);
    var x2, y2, z2 := ParseInt(args[5], 10), ParseInt(args[6], 10), ParseInt(args[7], 10);
    if x1.None? || y1.None? || z1.None? || x2.None? || y2.None? || z2.None? then None
    else Some((BlockPos(x1.value, y1.value, z1.value), BlockPos(x2.value, y2.value, z2.value)))
  }

  /** `add` with the right number of arguments: the corners must be integers; the colour defaults to opaque yellow. */
  function AddRequest(args: seq<string>): (r: Request)
    requires |args| == 8 || |args| == 9
    ensures r.Add? || r.BadCoordinates?
    ensures r.Add? <==> Corners(args).Some?
    ensures r.Add? ==> r.name == args[1] && Corners(args) == Some((r.a, r.b))
    ensures r.Add? ==> r.color == if |args| == 9 then ParseColorRgba(Some(args[8]), DEFAULT_COLOR_RGBA) else DEFAULT_COLOR_RGBA
  {
    match Corners(args)
    case None => BadCoordinates
    case Some(c) =>
      var color := if |args| == 9 then ParseColorRgba(Some(args[8]), DEFAULT_COLOR_RGBA) else DEFAULT_COLOR_RGBA;
      Add(args[1], c.0, c.1, color)
  }

  /**
   * The argument checks of `processCommand`. The first argument, lower-cased, picks the
   * sub-command and anything else gets the general usage line. `add` takes a name, six integer
   * coordinates and an optional colour (opaque yellow when absent), `remove` one name, and
   * `highlight` a name and an optional "on" or "off" in any case; the other sub-commands
   * ignore further arguments.
   */
  function ParseRequest(args: seq<string>): (r: Request)
    ensures r == ShowUsage(General) <==> args == [] || !Subcommand(AsciiLower(args[0]))
    ensures r.Add? || r.BadCoordinates? <==> args != [] && AsciiLower(args[0]) == "add" && (|args| == 8 || |args| == 9)
    ensures r.Add? ==> r.name == args[1] && Corners(args) == Some((r.a, r.b))
    ensures r.Add? ==> r.color == if |args| == 9 then ParseColorRgba(Some(args[8]), DEFAULT_COLOR_RGBA) else DEFAULT_COLOR_RGBA
    ensures r.BadCoordinates? ==> Corners(args).None?
    ensures r == ShowUsage(AddLine) <==> args != [] && AsciiLower(args[0]) == "add" && |args| != 8 && |args| != 9
    ensures r == Clear <==> args != [] && AsciiLower(args[0]) == "clear"
    ensures r.Delete? <==> args != [] && AsciiLower(args[0]) == "remove" && |args| == 2
    ensures r.Delete? ==> r.name == args[1]
    ensures r == ShowUsage(RemoveLine) <==> args != [] && AsciiLower(args[0]) == "remove" && |args| != 2
    ensures r == List <==> args != [] && (AsciiLower(args[0]) == "list" || AsciiLower(args[0]) == "status")
    ensures r.Switch? <==> args != [] && (AsciiLower(args[0]) == "on" || AsciiLower(args[0]) == "off")
    ensures r.Switch? ==> (r.on <==> AsciiLower(args[0]) == "on")
    ensures r.Toggle? <==> args != [] && AsciiLower(args[0]) == "highlight" && |args| == 2
    ensures r.Highlight? <==> args != [] && AsciiLower(args[0]) == "highlight" && |args| == 3
                              && (AsciiLower(args[2]) == "on" || AsciiLower(args[2]) == "off")
    ensures r.Toggle? || r.Highlight? ==> r.name == args[1]
    ensures r.Highlight? ==> (r.on <==> AsciiLower(args[2]) == "on")
    ensures r == Paths <==> args != [] && AsciiLower(args[0]) == "path"
  {
    if |args| == 0 then ShowUsage(General)
    else
      var sub := AsciiLower(args[0]);
      if sub == "add" then
        if |args| != 8 && |args| != 9 then ShowUsage(AddLine) else AddRequest(args)
      else if sub == "clear" then Clear
      else if sub == "remove" then
        if |args| != 2 then ShowUsage(RemoveLine) else Delete(args[1])
      else if sub == "list" || sub == "status" then List
      else if sub == "on" then Switch(true)
      else if sub == "off" then Switch(false)
      else if sub == "highlight" then
        if |args| != 2 && |args| != 3 then ShowUsage(HighlightLine)
        else if |args| == 2 then Toggle(args[1])
        else
          var v := AsciiLower(args[2]);
          if v == "on" then Highlight(args[1], true)
          else if v == "off" then Highlight(args[1], false)
          else ShowUsage(HighlightLine)
      else if sub == "path" then Paths
      else ShowUsage(General)
  }

  // ---------------------------------------------------------------- what a request does

  /** The registry after the request: the registry calls it makes, with their refusals. */
  function Applied(req: Request, s: Store): Store {
    match req
    case Add(name, a, b, color) => if Trim(name) != [] then Put(s, Upserted(s, name, a, b, color)) else s
    case Clear => Empty
    case Delete(name) =>
      var key := NormalizeKey(name);
      if key in s.areas then Remove(s, key) else s
    case Toggle(name) =>
      var key := NormalizeKey(name);
      if key in s.areas then WithHighlight(s, key, !s.areas[key].highlight) else s
    case Highlight(name, on) =>
      var key := NormalizeKey(name);
      if key in s.areas then WithHighlight(s, key, on) else s
    case _ => s
  }

  /** Whether the request writes the registry's file. */
  predicate Saves(req: Request, s: Store) {
    match req
    case Add(name, _, _, _) => Trim(name) != []
    case Clear => true
    case Switch(_) => true
    case Delete(name) => NormalizeKey(name) in s.areas
    case Toggle(name) => NormalizeKey(name) in s.areas
    case Highlight(name, _) => NormalizeKey(name) in s.areas
    case _ => false
  }

  /** The answer to the request, given the logging switch and the registry before it. */
  function Respond(req: Request, enabled: bool, s: Store): Reply
    requires Listed(s)
  {
    match req
    case ShowUsage(line) => ShowsUsage(line)
    case BadCoordinates => NotIntegers
    case Add(name, _, _, _) => if Trim(name) != [] then Added(name) else InvalidName
    case Clear => Cleared
    case Delete(name) => if NormalizeKey(name) in s.areas then Removed(name) else NoSuchArea(name)
    case List => Status(enabled, Snapshots(Values(s)))
    case Switch(on) => Logging(on)
    case Toggle(name) => if NormalizeKey(name) in s.areas then HighlightUpdated(name) else NoSuchArea(name)
    case Highlight(name, _) => if NormalizeKey(name) in s.areas then HighlightUpdated(name) else NoSuchArea(name)
    case Paths => Files
  }

  /** `processCommand`: reads the arguments and carries out the request on the registry. */
  method ProcessCommand(m: BlockAuditManager, args: seq<string>) returns (reply: Reply)
    requires m.Valid()
    modifies m
    ensures m.Valid()
    ensures reply == Respond(ParseRequest(args), old(m.globallyEnabled), old(m.Contents()))
    ensures m.Contents() == Applied(ParseRequest(args), old(m.Contents()))
    ensures m.globallyEnabled == if ParseRequest(args).Switch? then ParseRequest(args).on else old(m.globallyEnabled)
    ensures m.areaFile == if Saves(ParseRequest(args), old(m.Contents())) then Some(SaveDocument(m.globallyEnabled, m.Contents()))
                         else old(m.areaFile)
    ensures m.recentBreakers == if ParseRequest(args) == Clear then map[] else old(m.recentBreakers)
    ensures m.log == old(m.log)
  {
    var req := ParseRequest(args);
    reply := Perform(m, req);
  }

  /** The `switch` of `processCommand`: one registry call per request, and its answer. */
  method Perform(m: BlockAuditManager, req: Request) returns (reply: Reply)
    requires m.Valid()
    modifies m
    ensures m.Valid()
    ensures reply == Respond(req, old(m.globallyEnabled), old(m.Contents()))
    ensures m.Contents() == Applied(req, old(m.Contents()))
    ensures m.globallyEnabled == if req.Switch? then req.on else old(m.globallyEnabled)
    ensures m.areaFile == if Saves(req, old(m.Contents())) then Some(SaveDocument(m.globallyEnabled, m.Contents()))
                         else old(m.areaFile)
    ensures m.recentBreakers == if req == Clear then map[] else old(m.recentBreakers)
    ensures m.log == old(m.log)
  {
    match req
    case ShowUsage(line) =>
      reply := ShowsUsage(line);
    case BadCoordinates =>
      reply := NotIntegers;
    case List =>
      var areas := m.GetAreasSnapshot();
      reply := Status(m.globallyEnabled, areas);
    case Paths =>
      reply := Files;
    case _ =>
      reply := Edit(m, req);
  }

  /** The cases of `processCommand` that change the registry. */
  method Edit(m: BlockAuditManager, req: Request) returns (reply: Reply)
    requires !req.ShowUsage? && !req.BadCoordinates? && !req.List? && !req.Paths?
    requires m.Valid()
    modifies m
    ensures m.Valid()
    ensures reply == Respond(req, old(m.globallyEnabled), old(m.Contents()))
    ensures m.Contents() == Applied(req, old(m.Contents()))
    ensures m.globallyEnabled == if req.Switch? then req.on else old(m.globallyEnabled)
    ensures m.areaFile == if Saves(req, old(m.Contents())) then Some(SaveDocument(m.globallyEnabled, m.Contents()))
                         else old(m.areaFile)
    ensures m.recentBreakers == if req == Clear then map[] else old(m.recentBreakers)
    ensures m.log == old(m.log)
  {
    match req
    case Add(name, a, b, color) =>
      var ok := m.AddOrUpdateArea(Some(name), Some(a), Some(b), color);
      reply := if ok then Added(name) else InvalidName;
    case Clear =>
      m.ClearAreas();
      reply := Cleared;
    case Delete(name) =>
      var removed := m.RemoveArea(Some(name));
      reply := if removed then Removed(name) else NoSuchArea(name);
    case Switch(on) =>
      m.SetEnabled(on);
      reply := Logging(on);
    case Toggle(name) =>
      var ok := m.ToggleAreaHighlight(Some(name));
      reply := if ok then HighlightUpdated(name) else NoSuchArea(name);
    case Highlight(name, on) =>
      var ok := m.SetAreaHighlight(Some(name), on);
      reply := if ok then HighlightUpdated(name) else NoSuchArea(name);
  }

  // ---------------------------------------------------------------- command lines

  /** A string without ASCII capitals. */
  predicate NoCapitals(w: string) {
    forall i :: 0 <= i < |w| ==> !('A' <= w[i] <= 'Z')
  }

  /** Lower-casing leaves a string without capitals as it is. */
  lemma LowerFixed(w: string)
    requires NoCapitals(w)
    ensures AsciiLower(w) == w
  {
  }

  /** The command line that asks for `r`: the corners in decimal and the colour as "#RRGGBBAA". */
  function CommandLine(r: Request): (args: seq<string>)
    requires !r.ShowUsage? && !r.BadCoordinates?
    ensures args != []
  {
    match r
    case Add(name, a, b, color) =>
      ["add", name, Dec(a.x), Dec(a.y), Dec(a.z), Dec(b.x), Dec(b.y), Dec(b.z), ColorToHexRgba(color)]
    case Clear => ["clear"]
    case Delete(name) => ["remove", name]
    case List => ["list"]
    case Switch(on) => [if on then "on" else "off"]
    case Toggle(name) => ["highlight", name]
    case Highlight(name, on) => ["highlight", name, if on then "on" else "off"]
    case Paths => ["path"]
  }

  /** Printed coordinates parse back to the corners. */
  lemma CornersRoundTrip(args: seq<string>, a: BlockPos, b: BlockPos)
    requires |args| >= 8
    requires args[2] == Dec(a.x) && args[3] == Dec(a.y) && args[4] == Dec(a.z)
    requires args[5] == Dec(b.x) && args[6] == Dec(b.y) && args[7] == Dec(b.z)
    ensures Corners(args) == Some((a, b))
  {
    DecRoundTrip(a.x);
    DecRoundTrip(a.y);
    DecRoundTrip(a.z);
    DecRoundTrip(b.x);
    DecRoundTrip(b.y);
    DecRoundTrip(b.z);
  }

  /** An `add` with a known argument count, in whatever case, goes to the `add` checks. */
  lemma AddDispatch(args: seq<string>)
    requires (|args| == 8 || |args| == 9) && AsciiLower(args[0]) == "add"
    ensures ParseRequest(args) == AddRequest(args)
  {
  }

  /** The arguments of an `add` with the corners in decimal and the colour in hex read back as given. */
  lemma AddArgumentsRoundTrip(args: seq<string>, name: string, a: BlockPos, b: BlockPos, color: bv32)
    requires |args| == 9 && args[1] == name && args[8] == ColorToHexRgba(color)
    requires args[2] == Dec(a.x) && args[3] == Dec(a.y) && args[4] == Dec(a.z)
    requires args[5] == Dec(b.x) && args[6] == Dec(b.y) && args[7] == Dec(b.z)
    ensures AddRequest(args) == Add(name, a, b, color)
  {
    CornersRoundTrip(args, a, b);
    HexRoundTrip(color, DEFAULT_COLOR_RGBA);
  }

  /** An `add` line with every argument printed is read back as the same request. */
  lemma AddLineRoundTrip(name: string, a: BlockPos, b: BlockPos, color: bv32)
    ensures ParseRequest(CommandLine(Add(name, a, b, color))) == Add(name, a, b, color)
  {
    var args := CommandLine(Add(name, a, b, color));
    LowerFixed(args[0]);
    AddDispatch(args);
    AddArgumentsRoundTrip(args, name, a, b, color);
  }

  /**
   * Every request a command line can carry is read back from its printed command line; in
   * particular a colour shown by `list` and typed back into `add` is the same colour.
   */
  lemma CommandLineRoundTrip(r: Request)
    requires !r.ShowUsage? && !r.BadCoordinates?
    ensures ParseRequest(CommandLine(r)) == r
  {
    match r
    case Add(name, a, b, color) =>
      AddLineRoundTrip(name, a, b, color);
    case Highlight(name, on) =>
      LowerFixed("highlight");
      LowerFixed(if on then "on" else "off");
    case Toggle(name) =>
      LowerFixed("highlight");
    case Switch(on) =>
      LowerFixed(if on then "on" else "off");
    case Clear =>
      LowerFixed("clear");
    case Delete(name) =>
      LowerFixed("remove");
    case List =>
      LowerFixed("list");
    case Paths =>
      LowerFixed("path");
  }

  /** Without a colour argument, `add` files the area in opaque yellow. */
  lemma AddDefaultColor(name: string, a: BlockPos, b: BlockPos)
    ensures ParseRequest(["add", name, Dec(a.x), Dec(a.y), Dec(a.z), Dec(b.x), Dec(b.y), Dec(b.z)])
            == Add(name, a, b, DEFAULT_COLOR_RGBA)
  {
    var args := ["add", name, Dec(a.x), Dec(a.y), Dec(a.z), Dec(b.x), Dec(b.y), Dec(b.z)];
    LowerFixed(args[0]);
    AddDispatch(args);
    CornersRoundTrip(args, a, b);
  }

  /** The sub-command is matched ignoring the case of its letters. */
  lemma SubcommandIgnoresCase(args: seq<string>)
    requires args != []
    ensures ParseRequest([AsciiLower(args[0])] + args[1..]) == ParseRequest(args)
  {
    var lowered := [AsciiLower(args[0])] + args[1..];
    LowerIdempotent(args[0]);
    assert lowered[1..] == args[1..];
    assert |lowered| == |args|;
    assert forall k :: 1 <= k < |args| ==> lowered[k] == args[k];
  }

  // ---------------------------------------------------------------- what the registry then holds

  /** Every request keeps the registry well formed. */
  lemma AppliedValid(req: Request, s: Store)
    requires AreaStore.Valid(s)
    ensures AreaStore.Valid(Applied(req, s))
  {
    match req
    case Add(name, a, b, color) =>
      if Trim(name) != [] {
        UpsertFacts(s, name, a, b, color);
      }
    case Clear =>
      assert Unique(Empty.order);
    case Delete(name) =>
      RemoveValid(s, NormalizeKey(name));
    case Toggle(name) =>
      var key := NormalizeKey(name);
      if key in s.areas {
        HighlightValid(s, key, !s.areas[key].highlight);
      }
    case Highlight(name, on) =>
      var key := NormalizeKey(name);
      if key in s.areas {
        HighlightValid(s, key, on);
      }
    case _ =>
  }

  /**
   * After a successful `add`, `list` shows an area under the trimmed name, in the given colour,
   * spanning the two corners whichever order they were given in.
   */
  lemma AddThenList(name: string, a: BlockPos, b: BlockPos, color: bv32, s: Store)
    requires AreaStore.Valid(s) && Trim(name) != []
    ensures var t := Applied(Add(name, a, b, color), s);
            Listed(t) &&
            exists i :: 0 <= i < |t.order| && Snapshots(Values(t))[i].name == Trim(name)
                        && Snapshots(Values(t))[i].color == color
                        && Snapshots(Values(t))[i].min == LowCorner(a, b)
                        && Snapshots(Values(t))[i].max == HighCorner(a, b)
  {
    var area := Upserted(s, name, a, b, color);
    var t := Put(s, area);
    assert Applied(Add(name, a, b, color), s) == t;
    UpsertFacts(s, name, a, b, color);
    var key := NormalizeKey(name);
    var i := IndexOf(t.order, key);
    var vs := Values(t);
    assert vs[i] == t.areas[key];
    assert Snapshots(vs)[i] == Snapshot(t.areas[key]);
  }

  /** After `remove`, `list` shows no area whose name shares the removed name's key. */
  lemma RemoveThenList(name: string, s: Store)
    requires AreaStore.Valid(s)
    ensures var t := Applied(Delete(name), s);
            Listed(t) &&
            forall i :: 0 <= i < |t.order| ==> NormalizeKey(Snapshots(Values(t))[i].name) != NormalizeKey(name)
  {
    var key := NormalizeKey(name);
    var t := if key in s.areas then Remove(s, key) else s;
    assert Applied(Delete(name), s) == t;
    RemoveValid(s, key);
    assert AreaStore.Valid(t);
    assert key !in t.areas;
    var ss := Snapshots(Values(t));
    forall i | 0 <= i < |t.order|
      ensures NormalizeKey(ss[i].name) != key
    {
      var k := t.order[i];
      assert k in t.areas && KeyedAt(t.areas, k);
      assert ss[i].name == t.areas[k].name;
    }
  }

  /** Toggling an area's highlight twice gives back the registry. */
  lemma ToggleTwice(name: string, s: Store)
    ensures Applied(Toggle(name), Applied(Toggle(name), s)) == s
  {
    var key := NormalizeKey(name);
    if key in s.areas {
      var h := s.areas[key].highlight;
      var t := WithHighlight(s, key, !h);
      assert Applied(Toggle(name), s) == t;
      assert Applied(Toggle(name), t) == WithHighlight(t, key, h);
      HighlightRestores(s, key, !h);
    }
  }
}
