/**
 * The areas file: the document `saveAreaToDiskAsync` builds and the way `loadAreaFromDisk`
 * reads one back. Reading goes through the Gson accessors of module Json; an accessor that
 * throws aborts the load where it stands (the areas read so far stay).
 */
module Persist {
  import opened Wrappers
  import opened JavaText
  import opened Json
  import opened Areas
  import opened Color
  import opened AreaStore

  // ---------------------------------------------------------------- save

  function CornerJson(p: BlockPos): Json {
    JObject(map["x" := JInt(p.x), "y" := JInt(p.y), "z" := JInt(p.z)])
  }

  /** One saved area: name, both flags, "#RRGGBBAA" colour and the two corners. */
  function AreaJson(a: Area): Json {
    JObject(map["name" := JString(a.name), "enabled" := JBool(a.enabled), "highlight" := JBool(a.highlight),
                "color" := JString(ColorToHexRgba(a.color)), "min" := CornerJson(a.min), "max" := CornerJson(a.max)])
  }

  function AreaJsons(areas: seq<Area>): (items: seq<Json>)
    ensures |items| == |areas|
    ensures forall i :: 0 <= i < |areas| ==> items[i] == AreaJson(areas[i])
  {
    seq(|areas|, i requires 0 <= i < |areas| => AreaJson(areas[i]))
  }

  /** The whole file: the global switch, then every area in iteration order. */
  function SaveDocument(enabled: bool, s: Store): Json
    requires Listed(s)
  {
    JObject(map["enabled" := JBool(enabled), "areas" := JArray(AreaJsons(Values(s)))])
  }

  // ---------------------------------------------------------------- load

  /** `o.get(c).getAsInt()`: a missing coordinate is a NullPointerException. */
  function ReadCoord(o: map<string, Json>, c: string): Option<Int32> {
    if c in o then AsInt(o[c]) else None
  }

  /** `getAsJsonObject(field)` and its three coordinates; anything but an object throws. */
  function ReadCorner(j: Json): (r: Option<BlockPos>)
    ensures r.Some? ==> j.JObject?
  {
    match j
    case JObject(o) =>
      var x :- ReadCoord(o, "x");
      var y :- ReadCoord(o, "y");
      var z :- ReadCoord(o, "z");
      Some(BlockPos(x, y, z))
    case _ => None
  }

  /** A flag that defaults when absent and is read with `getAsBoolean` when present. */
  function ReadFlag(o: map<string, Json>, field: string, default: bool): Option<bool> {
    if field in o then AsBool(o[field]) else Some(default)
  }

  /** The colour: `parseColorRgba(getAsString(), default)` when present, the default otherwise. */
  function ReadColor(o: map<string, Json>): Option<bv32> {
    if "color" in o then
      match AsString(o["color"])
      case None => None
      case Some(t) => Some(ParseColorRgba(Some(t), DEFAULT_COLOR_RGBA))
    else Some(DEFAULT_COLOR_RGBA)
  }

  /** What happens to one element of "areas": it is skipped, it aborts the load, or it is stored. */
  datatype Decoded = Skip | Abort | Keep(area: Area)

  /** The name, flags and colour of an entry, read in the order the code reads them. */
  datatype Header = Header(name: string, enabled: bool, highlight: bool, color: bv32)

  function ReadHeader(o: map<string, Json>): Option<Header>
    requires "name" in o
  {
    var name :- AsString(o["name"]);
    var enabled :- ReadFlag(o, "enabled", true);
    var highlight :- ReadFlag(o, "highlight", false);
    var color :- ReadColor(o);
    Some(Header(name, enabled, highlight, color))
  }

  /**
   * One element of "areas": a non-object or a nameless object is skipped; a failing accessor
   * aborts; an object without both corners is skipped once its header has been read.
   */
  function DecodeEntry(j: Json): (d: Decoded)
    ensures d.Keep? ==> NormalizeKey(d.area.name) == d.area.key
  {
    if !j.JObject? || "name" !in j.fields then Skip
    else
      var o := j.fields;
      match ReadHeader(o)
      case None => Abort
      case Some(h) =>
        if !("min" in o && "max" in o) then Skip
        else
          match ReadCorner(o["min"])
          case None => Abort
          case Some(mn) =>
            match ReadCorner(o["max"])
            case None => Abort
            case Some(mx) =>
              Keep(Area(NormalizeKey(h.name), h.name, mn, mx, h.color, h.enabled, h.highlight))
  }

  /** The result of reading "areas" into a store: the store, and whether every element was read. */
  datatype Loaded = Loaded(store: Store, complete: bool)

  /** Reads the elements left to right into `s`, stopping at the first that aborts. */
  function LoadEntries(items: seq<Json>, s: Store): Loaded
    decreases |items|
  {
    if |items| == 0 then Loaded(s, true)
    else
      match DecodeEntry(items[0])
      case Skip => LoadEntries(items[1..], s)
      case Abort => Loaded(s, false)
      case Keep(a) => LoadEntries(items[1..], Put(s, a))
  }

  /** One step of LoadEntries read at position `i` of the element list. */
  lemma LoadEntriesStep(items: seq<Json>, i: nat, s: Store)
    requires i < |items|
    ensures LoadEntries(items[i..], s) ==
            match DecodeEntry(items[i])
            case Skip => LoadEntries(items[i + 1..], s)
            case Abort => Loaded(s, false)
            case Keep(a) => LoadEntries(items[i + 1..], Put(s, a))
  {
    assert items[i..][0] == items[i] && items[i..][1..] == items[i + 1..];
  }

  /** The registry state a load leaves: the global switch and the store. */
  datatype Registry = Registry(enabled: bool, store: Store)

  /** The legacy single-area document: one area "default" in the default colour, disabled unless "enabled" says so. */
  function LoadLegacy(o: map<string, Json>): Store
    requires "min" in o && "max" in o
  {
    match ReadCorner(o["min"])
    case None => Empty
    case Some(mn) =>
      match ReadCorner(o["max"])
      case None => Empty
      case Some(mx) =>
        match ReadFlag(o, "enabled", false)
        case None => Empty
        case Some(enabled) =>
          match ReadFlag(o, "highlight", false)
          case None => Empty
          case Some(highlight) =>
            Put(Empty, Area("default", "default", mn, mx, DEFAULT_COLOR_RGBA, enabled, highlight))
  }

  /**
   * `loadAreaFromDisk` on the parsed file (None when there is none or it is not a JSON object):
   * the global switch is read first (a failure there changes nothing), then the areas are
   * cleared and read from "areas" when it is an array, or from the legacy corners otherwise.
   */
  function LoadDocument(doc: Option<Json>, current: Registry): Registry {
    if doc.None? || !doc.value.JObject? then current
    else
      var o := doc.value.fields;
      match ReadFlag(o, "enabled", true)
      case None => current
      case Some(enabled) =>
        if "areas" in o && o["areas"].JArray? then
          Registry(enabled, LoadEntries(o["areas"].items, Empty).store)
        else if "min" in o && "max" in o then
          Registry(enabled, LoadLegacy(o))
        else
          Registry(enabled, Empty)
  }

  // ---------------------------------------------------------------- properties

  /** Whatever a load reads, the store it leaves is valid. */
  lemma {:induction false} LoadEntriesValid(items: seq<Json>, s: Store)
    requires Valid(s)
    ensures Valid(LoadEntries(items, s).store)
    decreases |items|
  {
    if |items| > 0 {
      match DecodeEntry(items[0])
      case Skip => LoadEntriesValid(items[1..], s);
      case Abort =>
      case Keep(a) =>
        PutValid(s, a);
        LoadEntriesValid(items[1..], Put(s, a));
    }
  }

  /** An element that aborts ends the load: the areas read before it stay, nothing after it is read. */
  lemma {:induction false} AbortKeepsPrefix(before: seq<Json>, bad: Json, after: seq<Json>, s: Store)
    requires DecodeEntry(bad) == Abort
    ensures LoadEntries(before + [bad] + after, s) == Loaded(LoadEntries(before, s).store, false)
    decreases |before|
  {
    var items := before + [bad] + after;
    if |before| == 0 {
      assert items[0] == bad;
    } else {
      assert items[0] == before[0];
      assert items[1..] == before[1..] + [bad] + after;
      match DecodeEntry(before[0])
      case Skip => AbortKeepsPrefix(before[1..], bad, after, s);
      case Abort =>
      case Keep(a) => AbortKeepsPrefix(before[1..], bad, after, Put(s, a));
    }
  }

  /** An element that is skipped leaves the load as if it were not there. */
  lemma {:induction false} SkipIsInvisible(before: seq<Json>, skipped: Json, after: seq<Json>, s: Store)
    requires DecodeEntry(skipped) == Skip
    ensures LoadEntries(before + [skipped] + after, s) == LoadEntries(before + after, s)
    decreases |before|
  {
    var items := before + [skipped] + after;
    if |before| == 0 {
      assert items[0] == skipped && items[1..] == after;
      assert before + after == after;
    } else {
      assert items[0] == before[0] && (before + after)[0] == before[0];
      assert items[1..] == before[1..] + [skipped] + after;
      assert (before + after)[1..] == before[1..] + after;
      match DecodeEntry(before[0])
      case Skip => SkipIsInvisible(before[1..], skipped, after, s);
      case Abort =>
      case Keep(a) => SkipIsInvisible(before[1..], skipped, after, Put(s, a));
    }
  }

  /** Entries that are not objects, or lack a name, are skipped; those lacking a corner are never stored. */
  lemma IncompleteEntries(j: Json)
    ensures !j.JObject? ==> DecodeEntry(j) == Skip
    ensures j.JObject? && "name" !in j.fields ==> DecodeEntry(j) == Skip
    ensures j.JObject? && ("min" !in j.fields || "max" !in j.fields) ==> !DecodeEntry(j).Keep?
    ensures j.JObject? && "name" in j.fields && ReadHeader(j.fields).Some? && ("min" !in j.fields || "max" !in j.fields)
            ==> DecodeEntry(j) == Skip
  {
  }

  // ---------------------------------------------------------------- round trip

  lemma CornerRoundTrip(p: BlockPos)
    ensures ReadCorner(CornerJson(p)) == Some(p)
  {
    var o := CornerJson(p).fields;
    assert ReadCoord(o, "x") == Some(p.x);
    assert ReadCoord(o, "y") == Some(p.y);
    assert ReadCoord(o, "z") == Some(p.z);
  }

  /** The fields of a saved area. */
  lemma SavedFields(a: Area)
    ensures var o := AreaJson(a).fields;
            && "name" in o && o["name"] == JString(a.name)
            && "enabled" in o && o["enabled"] == JBool(a.enabled)
            && "highlight" in o && o["highlight"] == JBool(a.highlight)
            && "color" in o && o["color"] == JString(ColorToHexRgba(a.color))
            && "min" in o && o["min"] == CornerJson(a.min)
            && "max" in o && o["max"] == CornerJson(a.max)
  {
  }

  /** The header of a saved area reads back as the area's name, flags and colour. */
  lemma HeaderRoundTrip(a: Area)
    ensures "name" in AreaJson(a).fields
    ensures ReadHeader(AreaJson(a).fields) == Some(Header(a.name, a.enabled, a.highlight, a.color))
  {
    SavedFields(a);
    HexRoundTrip(a.color, DEFAULT_COLOR_RGBA);
  }

  /** A saved area whose key is its name's key reads back as itself. */
  lemma DecodeSaved(a: Area)
    requires NormalizeKey(a.name) == a.key
    ensures DecodeEntry(AreaJson(a)) == Keep(a)
  {
    var o := AreaJson(a).fields;
    HeaderRoundTrip(a);
    assert o["min"] == CornerJson(a.min) && o["max"] == CornerJson(a.max);
    CornerRoundTrip(a.min);
    CornerRoundTrip(a.max);
  }

  /** The first `n` keys of a store, with their areas. */
  function Prefix(s: Store, n: nat): Store
    requires n <= |s.order| && Listed(s)
  {
    Store(s.order[..n], map k | k in s.order[..n] :: s.areas[k])
  }

  /** Storing the next saved area extends the prefix by one key. */
  lemma PutPrefix(s: Store, n: nat)
    requires Unique(s.order) && Listed(s) && n < |s.order|
    requires s.areas[s.order[n]].key == s.order[n]
    ensures Put(Prefix(s, n), s.areas[s.order[n]]) == Prefix(s, n + 1)
  {
    var key := s.order[n];
    var p := Prefix(s, n);
    var q := Prefix(s, n + 1);
    assert key !in p.order by {
      forall m | 0 <= m < n ensures p.order[m] != key {
        assert p.order[m] == s.order[m];
      }
    }
    assert key !in p.areas;
    assert q.order == p.order + [key];
    var r := Put(p, s.areas[key]);
    assert r.areas.Keys == q.areas.Keys;
    assert r.areas == q.areas;
  }

  lemma PrefixWhole(s: Store)
    requires Valid(s)
    ensures Prefix(s, |s.order|) == s
  {
    assert s.order[..|s.order|] == s.order;
    assert Prefix(s, |s.order|).areas == s.areas;
  }

  lemma {:induction false} LoadSavedFrom(s: Store, n: nat)
    requires Valid(s) && n <= |s.order|
    ensures LoadEntries(AreaJsons(Values(s))[n..], Prefix(s, n)) == Loaded(s, true)
    decreases |s.order| - n
  {
    var items := AreaJsons(Values(s));
    if n == |s.order| {
      PrefixWhole(s);
    } else {
      var a := s.areas[s.order[n]];
      assert items[n..][0] == AreaJson(a);
      assert items[n..][1..] == items[n + 1..];
      assert KeyedAt(s.areas, s.order[n]);
      DecodeSaved(a);
      PutPrefix(s, n);
      LoadSavedFrom(s, n + 1);
    }
  }

  /** Saving a valid registry and loading the document back restores it exactly, order included. */
  lemma SaveLoadRoundTrip(enabled: bool, s: Store, current: Registry)
    requires Valid(s)
    ensures LoadDocument(Some(SaveDocument(enabled, s)), current) == Registry(enabled, s)
  {
    var o := SaveDocument(enabled, s).fields;
    assert ReadFlag(o, "enabled", true) == Some(enabled);
    assert o["areas"] == JArray(AreaJsons(Values(s)));
    LoadSavedFrom(s, 0);
    assert AreaJsons(Values(s))[0..] == AreaJsons(Values(s));
    assert Prefix(s, 0) == Empty;
  }

  // ---------------------------------------------------------------- other documents

  /** No file, a non-object, or an unreadable "enabled" leave everything as it was. */
  lemma UnreadableDocument(doc: Option<Json>, current: Registry)
    ensures doc.None? ==> LoadDocument(doc, current) == current
    ensures doc.Some? && !doc.value.JObject? ==> LoadDocument(doc, current) == current
    ensures doc.Some? && doc.value.JObject? && "enabled" in doc.value.fields && AsBool(doc.value.fields["enabled"]).None?
            ==> LoadDocument(doc, current) == current
    ensures doc.Some? && doc.value.JObject? && "enabled" !in doc.value.fields
            ==> LoadDocument(doc, current).enabled
  {
  }

  /**
   * A legacy document (no "areas" array, both corners present): the global switch defaults to
   * on, while the area's own flags default to off. With readable corners and flags it yields
   * exactly one area, "default", in the default colour; a corner or "highlight" that cannot be
   * read leaves the registry cleared, since the store was emptied before the read threw.
   */
  lemma LegacyDocument(o: map<string, Json>, current: Registry)
    requires !("areas" in o && o["areas"].JArray?) && "min" in o && "max" in o
    ensures var mn, mx := ReadCorner(o["min"]), ReadCorner(o["max"]);
            var en, hl := ReadFlag(o, "enabled", false), ReadFlag(o, "highlight", false);
            mn.Some? && mx.Some? && en.Some? && hl.Some? ==>
              LoadDocument(Some(JObject(o)), current)
              == Registry(ReadFlag(o, "enabled", true).value,
                          Store(["default"], map["default" := Area("default", "default", mn.value, mx.value,
                                                                   DEFAULT_COLOR_RGBA, en.value, hl.value)]))
    ensures var mn, mx := ReadCorner(o["min"]), ReadCorner(o["max"]);
            ReadFlag(o, "enabled", true).Some? && (mn.None? || mx.None? || ReadFlag(o, "highlight", false).None?) ==>
              LoadDocument(Some(JObject(o)), current) == Registry(ReadFlag(o, "enabled", true).value, Empty)
    ensures "enabled" !in o ==> LoadDocument(Some(JObject(o)), current).enabled
                                && forall k :: k in LoadDocument(Some(JObject(o)), current).store.areas ==>
                                     !LoadDocument(Some(JObject(o)), current).store.areas[k].enabled
  {
    DefaultNameKey();
  }

  /** A legacy document leaves a valid store. */
  lemma LegacyValid(o: map<string, Json>)
    requires "min" in o && "max" in o
    ensures Valid(LoadLegacy(o))
  {
    assert Valid(Empty);
    DefaultNameKey();
    var mn, mx := ReadCorner(o["min"]), ReadCorner(o["max"]);
    var en, hl := ReadFlag(o, "enabled", false), ReadFlag(o, "highlight", false);
    if mn.Some? && mx.Some? && en.Some? && hl.Some? {
      PutValid(Empty, Area("default", "default", mn.value, mx.value, DEFAULT_COLOR_RGBA, en.value, hl.value));
    }
  }

  /** Whatever document is loaded, the registry it leaves is valid. */
  lemma LoadDocumentValid(doc: Option<Json>, current: Registry)
    requires Valid(current.store)
    ensures Valid(LoadDocument(doc, current).store)
  {
    assert Valid(Empty);
    if doc.Some? && doc.value.JObject? {
      var o := doc.value.fields;
      if "areas" in o && o["areas"].JArray? {
        LoadEntriesValid(o["areas"].items, Empty);
      } else if "min" in o && "max" in o {
        LegacyValid(o);
      }
    }
  }
}
