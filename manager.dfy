/**
 * The block-audit registry as the object it is: the global switch, the ordered areas, the
 * recorded breakers, the areas file last written and the audit log, each updated in place.
 * Every operation is specified by the value functions of AreaStore, Audit and Persist.
 */
module Manager {
  import opened Wrappers
  import opened JavaText
  import opened Json
  import opened Areas
  import opened Color
  import opened AreaStore
  import opened Audit
  import opened Persist

  /**
   * The entries one block change logs: none when auditing is off, no enabled area contains
   * the block, the player is not in a housing, a state is missing or nothing changed; one per
   * matching area otherwise. `now` is the clock reading, `guess` the placement heuristic's
   * answer and `nearby` the players around the block.
   */
  function ChangeEntries(enabled: bool, s: Store, breakers: map<BlockPos, BreakAttribution>, pos: BlockPos,
                         oldState: Option<BlockState>, newState: Option<BlockState>, allowHeuristic: bool,
                         inHousing: bool, now: Int64, dimension: Option<Int32>, guess: Option<Guess>,
                         nearby: Option<seq<Nearby>>): seq<Json>
    requires Listed(s)
  {
    var m := MatchingAreas(s, pos);
    if !enabled || m.None? || !inHousing || oldState.None? || newState.None? || oldState == newState then []
    else
      var action := Classify(oldState.value.airLike, newState.value.airLike);
      var recorded := if action == Break && pos in breakers then Some(breakers[pos]) else None;
      var initial := InitialAttribution(action, recorded, now);
      var who := FinalAttribution(action, initial, RunsHeuristic(allowHeuristic, action, initial), guess);
      var near := if action == Break && initial.uuid.None? then nearby else None;
      Entries(Names(m.value), now, pos, dimension, action, oldState.value, newState.value, who, near)
  }

  /** The breakers after a break animation: recorded only while auditing a matching area, at its end, for a player. */
  function AnimRecords(enabled: bool, s: Store, breakers: map<BlockPos, BreakAttribution>, pos: BlockPos,
                       breaker: Option<(string, string)>, progress: Int32, now: Int64): map<BlockPos, BreakAttribution>
    requires Listed(s)
  {
    if enabled && MatchingAreas(s, pos).Some? && progress == -1 && breaker.Some? then
      breakers[pos := BreakAttribution(breaker.value.0, breaker.value.1, now)]
    else breakers
  }

  class BlockAuditManager {
    var globallyEnabled: bool
    var order: seq<string>
    var areas: map<string, Area>
    var recentBreakers: map<BlockPos, BreakAttribution>
    /** The document the last save queued for the areas file. */
    var areaFile: Option<Json>
    /** The JSON audit entries written so far. */
    var log: seq<Json>

    function Contents(): Store
      reads this
    {
      Store(order, areas)
    }

    ghost predicate Valid()
      reads this
    {
      AreaStore.Valid(Contents())
    }

    constructor ()
      ensures Valid()
      ensures globallyEnabled && order == [] && areas == map[] && recentBreakers == map[]
      ensures areaFile == None && log == []
    {
      globallyEnabled := true;
      order := [];
      areas := map[];
      recentBreakers := map[];
      areaFile := None;
      log := [];
    }

    /** `saveAreaToDiskAsync`: builds the document from the areas in order; the write itself is not modelled. */
    method SaveAreaToDisk()
      requires Listed(Contents())
      modifies this
      ensures globallyEnabled == old(globallyEnabled) && order == old(order) && areas == old(areas)
      ensures recentBreakers == old(recentBreakers) && log == old(log)
      ensures areaFile == Some(SaveDocument(globallyEnabled, Contents()))
    {
      var items := AreaItems();
      areaFile := Some(JObject(map["enabled" := JBool(globallyEnabled), "areas" := JArray(items)]));
    }

    /** The loop of `saveAreaToDiskAsync`: one JSON object per area, in order. */
    method AreaItems() returns (items: seq<Json>)
      requires Listed(Contents())
      ensures items == AreaJsons(Values(Contents()))
    {
      items := [];
      ghost var vs := Values(Contents());
      var i := 0;
      while i < |order|
        invariant 0 <= i <= |order|
        invariant items == AreaJsons(vs[..i])
      {
        assert vs[..i + 1] == vs[..i] + [vs[i]];
        items := items + [AreaJson(areas[order[i]])];
        i := i + 1;
      }
      assert vs[..i] == vs;
    }

    /** `setEnabled`: switches auditing and saves. */
    method SetEnabled(enabled: bool)
      requires Valid()
      modifies this
      ensures Valid()
      ensures globallyEnabled == enabled && order == old(order) && areas == old(areas)
      ensures areaFile == Some(SaveDocument(enabled, Contents()))
      ensures recentBreakers == old(recentBreakers) && log == old(log)
    {
      globallyEnabled := enabled;
      SaveAreaToDisk();
    }

    /**
     * `addOrUpdateArea`: refuses a missing name or corner and a name that trims to nothing;
     * otherwise files the spanned box under the trimmed name's key and saves.
     */
    method AddOrUpdateArea(name: Option<string>, a: Option<BlockPos>, b: Option<BlockPos>, color: bv32) returns (ok: bool)
      requires Valid()
      modifies this
      ensures globallyEnabled == old(globallyEnabled) && recentBreakers == old(recentBreakers) && log == old(log)
      ensures ok <==> name.Some? && a.Some? && b.Some? && Trim(name.value) != []
      ensures !ok ==> unchanged(this)
      ensures ok ==> Contents() == Put(old(Contents()), Upserted(old(Contents()), name.value, a.value, b.value, color))
      ensures ok ==> areaFile == Some(SaveDocument(globallyEnabled, Contents()))
      ensures Valid()
    {
      if name.None? || a.None? || b.None? {
        return false;
      }
      if |Trim(name.value)| == 0 {
        return false;
      }
      var area := Upserted(Contents(), name.value, a.value, b.value, color);
      PutValid(Contents(), area);
      PutArea(area);
      SaveAreaToDisk();
      return true;
    }

    /** `AREAS.put(key, area)` on the LinkedHashMap: a known key keeps its place, a new one goes last. */
    method PutArea(area: Area)
      modifies this
      ensures globallyEnabled == old(globallyEnabled) && recentBreakers == old(recentBreakers)
      ensures areaFile == old(areaFile) && log == old(log)
      ensures Contents() == Put(old(Contents()), area)
    {
      if area.key !in areas {
        order := order + [area.key];
      }
      areas := areas[area.key := area];
    }

    /** `removeArea`: drops the name's key, saving only when something was removed. */
    method RemoveArea(name: Option<string>) returns (removed: bool)
      requires Valid()
      modifies this
      ensures Valid()
      ensures removed <==> name.Some? && NormalizeKey(name.value) in old(areas)
      ensures !removed ==> unchanged(this)
      ensures removed ==> Contents() == Remove(old(Contents()), NormalizeKey(name.value))
      ensures removed ==> areaFile == Some(SaveDocument(globallyEnabled, Contents()))
      ensures globallyEnabled == old(globallyEnabled) && recentBreakers == old(recentBreakers) && log == old(log)
    {
      if name.None? {
        return false;
      }
      var key := NormalizeKey(name.value);
      if key !in areas {
        return false;
      }
      RemoveValid(Contents(), key);
      order := Without(order, key);
      areas := areas - {key};
      SaveAreaToDisk();
      return true;
    }

    /** `clearAreas`: forgets every area and every recorded breaker, then saves. */
    method ClearAreas()
      requires Valid()
      modifies this
      ensures Valid()
      ensures order == [] && areas == map[] && recentBreakers == map[]
      ensures areaFile == Some(SaveDocument(globallyEnabled, Empty))
      ensures globallyEnabled == old(globallyEnabled) && log == old(log)
    {
      order := [];
      areas := map[];
      recentBreakers := map[];
      SaveAreaToDisk();
    }

    /** `setAreaHighlight`: sets one area's highlight flag and saves; false when the key is absent. */
    method SetAreaHighlight(name: Option<string>, highlight: bool) returns (ok: bool)
      requires Valid()
      modifies this
      ensures Valid()
      ensures ok <==> name.Some? && NormalizeKey(name.value) in old(areas)
      ensures !ok ==> unchanged(this)
      ensures ok ==> Contents() == WithHighlight(old(Contents()), NormalizeKey(name.value), highlight)
      ensures ok ==> areaFile == Some(SaveDocument(globallyEnabled, Contents()))
      ensures globallyEnabled == old(globallyEnabled) && recentBreakers == old(recentBreakers) && log == old(log)
    {
      if name.None? {
        return false;
      }
      var key := NormalizeKey(name.value);
      if key !in areas {
        return false;
      }
      HighlightValid(Contents(), key, highlight);
      var a := areas[key];
      areas := areas[key := Area(a.key, a.name, a.min, a.max, a.color, a.enabled, highlight)];
      SaveAreaToDisk();
      return true;
    }

    /** `toggleAreaHighlight`: flips one area's highlight flag and saves; false when the key is absent. */
    method ToggleAreaHighlight(name: Option<string>) returns (ok: bool)
      requires Valid()
      modifies this
      ensures Valid()
      ensures ok <==> name.Some? && NormalizeKey(name.value) in old(areas)
      ensures !ok ==> unchanged(this)
      ensures ok ==> var key := NormalizeKey(name.value);
                     Contents() == WithHighlight(old(Contents()), key, !old(areas)[key].highlight)
      ensures ok ==> areaFile == Some(SaveDocument(globallyEnabled, Contents()))
      ensures globallyEnabled == old(globallyEnabled) && recentBreakers == old(recentBreakers) && log == old(log)
    {
      if name.None? {
        return false;
      }
      var key := NormalizeKey(name.value);
      if key !in areas {
        return false;
      }
      ok := SetAreaHighlight(name, !areas[key].highlight);
    }

    /** `getAreasSnapshot`: every area, in order. */
    method GetAreasSnapshot() returns (out: seq<AreaSnapshot>)
      requires Listed(Contents())
      ensures out == Snapshots(Values(Contents()))
    {
      out := [];
      var i := 0;
      while i < |order|
        invariant 0 <= i <= |order|
        invariant |out| == i
        invariant forall j :: 0 <= j < i ==> out[j] == Snapshot(areas[order[j]])
      {
        var a := areas[order[i]];
        out := out + [AreaSnapshot(a.name, a.min, a.max, a.color, a.enabled, a.highlight)];
        i := i + 1;
      }
    }

    /** `getHighlightAreasSnapshot`: the highlighted areas, in order. */
    method GetHighlightAreasSnapshot() returns (out: seq<AreaSnapshot>)
      requires Listed(Contents())
      ensures out == Highlighted(Values(Contents()))
    {
      out := [];
      var i := 0;
      ghost var vs := Values(Contents());
      while i < |order|
        invariant 0 <= i <= |order|
        invariant out == Highlighted(vs[..i])
      {
        var a := areas[order[i]];
        HighlightedStep(vs, i);
        if a.highlight {
          out := out + [Snapshot(a)];
        }
        i := i + 1;
      }
      assert vs[..i] == vs;
    }

    /** `snapshotMatchingAreas`: the enabled areas containing `pos`, or None when there are none. */
    method SnapshotMatchingAreas(pos: BlockPos) returns (r: Option<seq<Area>>)
      requires Listed(Contents())
      ensures r == MatchingAreas(Contents(), pos)
    {
      if |order| == 0 {
        return None;
      }
      ghost var vs := Values(Contents());
      r := None;
      var i := 0;
      while i < |order|
        invariant 0 <= i <= |order|
        invariant r.None? <==> Matching(vs[..i], pos) == []
        invariant r.Some? ==> r.value == Matching(vs[..i], pos)
      {
        var a := areas[order[i]];
        MatchingStep(vs, pos, i);
        if a.enabled && Contains(a, pos) {
          if r.None? {
            r := Some([a]);
          } else {
            r := Some(r.value + [a]);
          }
        }
        i := i + 1;
      }
      assert vs[..i] == vs;
    }

    /** `noteBlockBreakAnim`: remembers who finished breaking a block in an audited area, and when. */
    method NoteBlockBreakAnim(pos: BlockPos, breaker: Option<(string, string)>, progress: Int32, now: Int64)
      requires Valid()
      modifies this
      ensures globallyEnabled == old(globallyEnabled) && order == old(order) && areas == old(areas)
      ensures areaFile == old(areaFile) && log == old(log)
      ensures recentBreakers == AnimRecords(globallyEnabled, Contents(), old(recentBreakers), pos, breaker, progress, now)
    {
      if !globallyEnabled {
        return;
      }
      var matching := SnapshotMatchingAreas(pos);
      if matching.None? || progress != -1 || breaker.None? {
        return;
      }
      recentBreakers := recentBreakers[pos := BreakAttribution(breaker.value.0, breaker.value.1, now)];
    }

    /** `noteBlockChange`: logs one entry per matching area for a change in an audited housing. */
    method NoteBlockChange(pos: BlockPos, oldState: Option<BlockState>, newState: Option<BlockState>,
                           allowHeuristic: bool, inHousing: bool, now: Int64, dimension: Option<Int32>,
                           guess: Option<Guess>, nearby: Option<seq<Nearby>>)
      requires Valid()
      modifies this
      ensures globallyEnabled == old(globallyEnabled) && order == old(order) && areas == old(areas)
      ensures recentBreakers == old(recentBreakers) && areaFile == old(areaFile)
      ensures log == old(log) + ChangeEntries(globallyEnabled, Contents(), recentBreakers, pos, oldState, newState,
                                              allowHeuristic, inHousing, now, dimension, guess, nearby)
    {
      if !globallyEnabled {
        return;
      }
      var matching := SnapshotMatchingAreas(pos);
      if matching.None? || !inHousing || oldState.None? || newState.None? || oldState == newState {
        return;
      }
      var action := Classify(oldState.value.airLike, newState.value.airLike);
      var recorded := None;
      if action == Break && pos in recentBreakers {
        recorded := Some(recentBreakers[pos]);
      }
      var initial := InitialAttribution(action, recorded, now);
      var who := FinalAttribution(action, initial, RunsHeuristic(allowHeuristic, action, initial), guess);
      var near := if action == Break && initial.uuid.None? then nearby else None;
      var names := AreaNames(matching.value);
      LogEntries(names, now, pos, dimension, action, oldState.value, newState.value, who, near);
    }

    /** The area names `noteBlockChange` copies out of the matching areas, in order. */
    static method AreaNames(matching: seq<Area>) returns (names: seq<string>)
      ensures names == Names(matching)
    {
      names := [];
      var i := 0;
      while i < |matching|
        invariant 0 <= i <= |matching|
        invariant |names| == i
        invariant forall j :: 0 <= j < i ==> names[j] == matching[j].name
      {
        names := names + [matching[i].name];
        i := i + 1;
      }
    }

    /** The background half of `noteBlockChange`: one entry per area name, appended in order. */
    method LogEntries(names: seq<string>, tsMs: Int64, pos: BlockPos, dimension: Option<Int32>, action: Action,
                      oldState: BlockState, newState: BlockState, who: Attribution, nearby: Option<seq<Nearby>>)
      modifies this
      ensures globallyEnabled == old(globallyEnabled) && order == old(order) && areas == old(areas)
      ensures recentBreakers == old(recentBreakers) && areaFile == old(areaFile)
      ensures log == old(log) + Entries(names, tsMs, pos, dimension, action, oldState, newState, who, nearby)
    {
      ghost var entries := Entries(names, tsMs, pos, dimension, action, oldState, newState, who, nearby);
      var j := 0;
      while j < |names|
        invariant 0 <= j <= |names|
        invariant log == old(log) + entries[..j]
        invariant globallyEnabled == old(globallyEnabled) && order == old(order) && areas == old(areas)
        invariant recentBreakers == old(recentBreakers) && areaFile == old(areaFile)
      {
        log := log + [JObject(AreaEntry(names[j], tsMs, pos, dimension, action, oldState, newState, who, nearby))];
        assert entries[..j + 1] == entries[..j] + [entries[j]];
        j := j + 1;
      }
      assert entries[..j] == entries;
    }

    /**
     * `loadAreaFromDisk` on the parsed file: the switch, then the areas, read element by
     * element; an element that throws ends the load with the areas read so far.
     */
    method LoadAreaFromDisk(doc: Option<Json>)
      requires Valid()
      modifies this
      ensures Valid()
      ensures Registry(globallyEnabled, Contents()) == LoadDocument(doc, old(Registry(globallyEnabled, Contents())))
      ensures recentBreakers == old(recentBreakers) && areaFile == old(areaFile) && log == old(log)
    {
      LoadDocumentValid(doc, Registry(globallyEnabled, Contents()));
      if doc.None? || !doc.value.JObject? {
        return;
      }
      var o := doc.value.fields;
      var enabled := ReadFlag(o, "enabled", true);
      if enabled.None? {
        return;
      }
      globallyEnabled := enabled.value;
      order := [];
      areas := map[];
      if "areas" in o && o["areas"].JArray? {
        ReadAreas(o["areas"].items);
      } else if "min" in o && "max" in o {
        ReadLegacy(o);
      }
    }

    /** The legacy branch of `loadAreaFromDisk`: one area "default" from the top-level corners and flags. */
    method ReadLegacy(o: map<string, Json>)
      requires "min" in o && "max" in o && order == [] && areas == map[]
      modifies this
      ensures globallyEnabled == old(globallyEnabled) && recentBreakers == old(recentBreakers)
      ensures areaFile == old(areaFile) && log == old(log)
      ensures Contents() == LoadLegacy(o)
    {
      var mn := ReadCorner(o["min"]);
      var mx := ReadCorner(o["max"]);
      if mn.Some? && mx.Some? {
        var enabled := ReadFlag(o, "enabled", false);
        var highlight := ReadFlag(o, "highlight", false);
        if enabled.Some? && highlight.Some? {
          order := ["default"];
          areas := map["default" := Area("default", "default", mn.value, mx.value, DEFAULT_COLOR_RGBA,
                                         enabled.value, highlight.value)];
        }
      }
    }

    /** The loop of `loadAreaFromDisk` over "areas": stores each element read, stops at the first that throws. */
    method ReadAreas(items: seq<Json>)
      modifies this
      ensures globallyEnabled == old(globallyEnabled) && recentBreakers == old(recentBreakers)
      ensures areaFile == old(areaFile) && log == old(log)
      ensures Contents() == LoadEntries(items, old(Contents())).store
    {
      var i := 0;
      while i < |items|
        invariant 0 <= i <= |items|
        invariant LoadEntries(items, old(Contents())) == LoadEntries(items[i..], Contents())
        invariant globallyEnabled == old(globallyEnabled) && recentBreakers == old(recentBreakers)
        invariant areaFile == old(areaFile) && log == old(log)
      {
        LoadEntriesStep(items, i, Contents());
        var d := DecodeEntry(items[i]);
        if d.Abort? {
          break;
        }
        if d.Keep? {
          PutArea(d.area);
        }
        i := i + 1;
      }
    }
  }
}
