/**
 * The discrete decisions of the block-change audit: how a change is classified, when a
 * recorded breaker is trusted, which attribution kind an entry gets, the JSON entry
 * written per matching area, and the human-readable line derived from an entry.
 */
module Audit {
  import opened Wrappers
  import opened JavaText
  import opened Json
  import opened Areas

  /** How long (ms) a finished break animation attributes the next break of that block. */
  const BREAK_ATTRIBUTION_WINDOW_MS: int := 2500

  /** At most this many nearby players are printed on a text line. */
  const NEARBY_TEXT_LIMIT: nat := 12

  datatype Action = Place | Break | Change

  /** PLACE when air-like becomes solid, BREAK when solid becomes air-like, CHANGE otherwise. */
  function Classify(oldAir: bool, newAir: bool): (a: Action)
    ensures a == Place <==> oldAir && !newAir
    ensures a == Break <==> !oldAir && newAir
    ensures a == Change <==> oldAir == newAir
  {
    if oldAir && !newAir then Place
    else if !oldAir && newAir then Break
    else Change
  }

  /** The action's name as logged; each action has its own. */
  function ActionName(a: Action): (n: string)
    ensures n == "PLACE" <==> a == Place
    ensures n == "BREAK" <==> a == Break
    ensures n == "CHANGE" <==> a == Change
  {
    match a
    case Place => "PLACE"
    case Break => "BREAK"
    case Change => "CHANGE"
  }

  /** A player who finished a break animation at a block, and when (ms). */
  datatype BreakAttribution = BreakAttribution(uuid: string, name: string, atMs: Int64)

  /** A block state: its registry name, its metadata and whether it counts as air (air or replaceable). */
  datatype BlockState = BlockState(block: string, meta: Int32, airLike: bool)

  /** The outcome of the placement heuristic: who, and whether they held the placed block. */
  datatype Guess = Guess(uuid: string, name: string, itemMatch: bool)

  /**
   * A player near an unattributed break, with the distance to the block centre and that
   * distance as `Double.toString` writes it into the JSON entry.
   */
  datatype Nearby = Nearby(uuid: Option<string>, name: Option<string>, dist: real, distText: string)

  /** Who an entry names and why. */
  datatype Attribution = Attribution(uuid: Option<string>, name: Option<string>, kind: string)

  /**
   * The attribution before the heuristic runs: a recorded breaker is used, as "break_anim",
   * only for a BREAK and only while `now - atMs <= 2500`.
   */
  function InitialAttribution(action: Action, recorded: Option<BreakAttribution>, now: Int64): (r: Attribution)
    ensures r.kind == "break_anim" <==>
              action == Break && recorded.Some? && now - recorded.value.atMs <= BREAK_ATTRIBUTION_WINDOW_MS
    ensures r.kind == "break_anim" ==> r.uuid == Some(recorded.value.uuid) && r.name == Some(recorded.value.name)
    ensures r.kind != "break_anim" ==> r == Attribution(None, None, "unknown")
  {
    if action == Break && recorded.Some? && now - recorded.value.atMs <= BREAK_ATTRIBUTION_WINDOW_MS then
      Attribution(Some(recorded.value.uuid), Some(recorded.value.name), "break_anim")
    else
      Attribution(None, None, "unknown")
  }

  /** The heuristic only runs for a PLACE or BREAK nobody has been attributed to yet, and only when allowed. */
  predicate RunsHeuristic(allowHeuristic: bool, action: Action, initial: Attribution) {
    allowHeuristic && (action == Place || action == Break) && initial.uuid.None?
  }

  /**
   * The attribution once the heuristic's guess (if it ran and found someone) is applied:
   * "heuristic_break" for a break, "heuristic_look_item" when the guessed player held the
   * placed block, "heuristic_look" otherwise.
   */
  function FinalAttribution(action: Action, initial: Attribution, ran: bool, guess: Option<Guess>): (r: Attribution)
    ensures ran && guess.Some? ==> r.uuid == Some(guess.value.uuid) && r.name == Some(guess.value.name)
    ensures ran && guess.Some? ==> (r.kind == "heuristic_break" <==> action == Break)
    ensures ran && guess.Some? && action != Break ==>
              r.kind == (if guess.value.itemMatch then "heuristic_look_item" else "heuristic_look")
    ensures !(ran && guess.Some?) ==> r == initial
  {
    if ran && guess.Some? then
      var kind := if action == Break then "heuristic_break"
                  else if guess.value.itemMatch then "heuristic_look_item" else "heuristic_look";
      Attribution(Some(guess.value.uuid), Some(guess.value.name), kind)
    else initial
  }

  /** Every attribution kind an entry can carry. */
  predicate KnownKind(k: string) {
    k in {"unknown", "break_anim", "heuristic_break", "heuristic_look_item", "heuristic_look"}
  }

  /** A heuristic kind only ever follows an unattributed PLACE or BREAK; "break_anim" only a BREAK. */
  lemma AttributionKinds(allowHeuristic: bool, action: Action, recorded: Option<BreakAttribution>, now: Int64, guess: Option<Guess>)
    ensures var init := InitialAttribution(action, recorded, now);
            var fin := FinalAttribution(action, init, RunsHeuristic(allowHeuristic, action, init), guess);
            KnownKind(fin.kind)
            && (fin.kind == "break_anim" ==> action == Break)
            && (fin.kind == "heuristic_break" ==> action == Break && allowHeuristic)
            && (fin.kind in {"heuristic_look", "heuristic_look_item"} ==> action == Place && allowHeuristic)
            && (action == Change ==> fin.kind == "unknown" && fin.uuid.None?)
            && (fin.kind == "unknown" ==> fin.uuid.None? && fin.name.None?)
            && (init.kind == "break_anim" ==> fin == init)
            && (RunsHeuristic(allowHeuristic, action, init) && guess.Some? ==>
                  fin.uuid == Some(guess.value.uuid) && fin.name == Some(guess.value.name))
  {
  }

  /**
   * The heuristic runs, when allowed, for every PLACE, and for a BREAK exactly when no recorded
   * breaker inside the window claimed it; never for a CHANGE.
   */
  lemma HeuristicRunsWhen(allowHeuristic: bool, action: Action, recorded: Option<BreakAttribution>, now: Int64)
    ensures RunsHeuristic(allowHeuristic, action, InitialAttribution(action, recorded, now)) <==>
              allowHeuristic &&
              (action == Place ||
               (action == Break && !(recorded.Some? && now - recorded.value.atMs <= BREAK_ATTRIBUTION_WINDOW_MS)))
  {
  }

  /** The window is inclusive: a breaker recorded exactly 2500 ms ago is used, one recorded 2501 ms ago is not. */
  lemma BreakWindowEdge(rec: BreakAttribution)
    requires rec.atMs + 2501 <= LONG_MAX
    ensures InitialAttribution(Break, Some(rec), rec.atMs + 2500).kind == "break_anim"
    ensures InitialAttribution(Break, Some(rec), rec.atMs + 2501).kind == "unknown"
    ensures InitialAttribution(Place, Some(rec), rec.atMs).kind == "unknown"
  {
  }

  /** The fields every entry has. */
  const ENTRY_FIELDS: set<string> :=
    {"tsMs", "area", "action", "x", "y", "z", "inHousing", "oldBlock", "oldMeta", "newBlock", "newMeta", "attribution"}

  /** The fields every entry has except "area", as `makeEntry` writes them. */
  function EntryCore(tsMs: Int64, pos: BlockPos, action: Action,
                     oldState: BlockState, newState: BlockState, kind: string): map<string, Json>
  {
    map["tsMs" := JInt(tsMs), "action" := JString(ActionName(action)),
        "x" := JInt(pos.x), "y" := JInt(pos.y), "z" := JInt(pos.z), "inHousing" := JBool(true),
        "oldBlock" := JString(oldState.block), "oldMeta" := JInt(oldState.meta),
        "newBlock" := JString(newState.block), "newMeta" := JInt(newState.meta),
        "attribution" := JString(kind)]
  }

  /** Every entry carries the same mandatory fields, "area" added last. */
  lemma EntryCoreKeys(tsMs: Int64, pos: BlockPos, action: Action, oldState: BlockState, newState: BlockState, kind: string)
    ensures EntryCore(tsMs, pos, action, oldState, newState, kind).Keys == ENTRY_FIELDS - {"area"}
  {
  }

  /** The optional fields and "area" are not among the mandatory ones. */
  lemma CoreLacksOptional(tsMs: Int64, pos: BlockPos, action: Action, oldState: BlockState, newState: BlockState, kind: string)
    ensures var c := EntryCore(tsMs, pos, action, oldState, newState, kind);
            "dimension" !in c && "playerUuid" !in c && "playerName" !in c && "area" !in c
  {
    EntryCoreKeys(tsMs, pos, action, oldState, newState, kind);
  }

  /** The mandatory fields say when and where the change happened, and what it was. */
  lemma CoreWhatWhere(tsMs: Int64, pos: BlockPos, action: Action, oldState: BlockState, newState: BlockState, kind: string)
    ensures var c := EntryCore(tsMs, pos, action, oldState, newState, kind);
            && "tsMs" in c && c["tsMs"] == JInt(tsMs) && "action" in c && c["action"] == JString(ActionName(action))
            && "x" in c && c["x"] == JInt(pos.x) && "y" in c && c["y"] == JInt(pos.y) && "z" in c && c["z"] == JInt(pos.z)
            && "inHousing" in c && c["inHousing"] == JBool(true)
  {
  }

  /** The mandatory fields record both block states and the attribution kind. */
  lemma CoreBlocks(tsMs: Int64, pos: BlockPos, action: Action, oldState: BlockState, newState: BlockState, kind: string)
    ensures var c := EntryCore(tsMs, pos, action, oldState, newState, kind);
            && "oldBlock" in c && c["oldBlock"] == JString(oldState.block) && "oldMeta" in c && c["oldMeta"] == JInt(oldState.meta)
            && "newBlock" in c && c["newBlock"] == JString(newState.block) && "newMeta" in c && c["newMeta"] == JInt(newState.meta)
            && "attribution" in c && c["attribution"] == JString(kind)
  {
  }

  /** The optional fields only add to the mandatory ones. */
  lemma BodyKeepsCore(tsMs: Int64, pos: BlockPos, dimension: Option<Int32>, action: Action,
                      oldState: BlockState, newState: BlockState, who: Attribution)
    ensures var c := EntryCore(tsMs, pos, action, oldState, newState, who.kind);
            var b := EntryBody(tsMs, pos, dimension, action, oldState, newState, who);
            "area" !in b && forall k :: k in c ==> k in b && b[k] == c[k]
  {
    var c := EntryCore(tsMs, pos, action, oldState, newState, who.kind);
    CoreLacksOptional(tsMs, pos, action, oldState, newState, who.kind);
    var d := if dimension.Some? then c["dimension" := JInt(dimension.value)] else c;
    assert forall k :: k in c ==> k in d && d[k] == c[k];
    var u := if who.uuid.Some? then d["playerUuid" := JString(who.uuid.value)] else d;
    assert forall k :: k in c ==> k in u && u[k] == c[k];
    var n := if who.name.Some? then u["playerName" := JString(who.name.value)] else u;
    assert forall k :: k in c ==> k in n && n[k] == c[k];
    assert n == EntryBody(tsMs, pos, dimension, action, oldState, newState, who);
  }

  /** Everything `makeEntry` writes except the area name. */
  function EntryBody(tsMs: Int64, pos: BlockPos, dimension: Option<Int32>, action: Action,
                     oldState: BlockState, newState: BlockState, who: Attribution): map<string, Json>
  {
    var core := EntryCore(tsMs, pos, action, oldState, newState, who.kind);
    var withDim := if dimension.Some? then core["dimension" := JInt(dimension.value)] else core;
    var withUuid := if who.uuid.Some? then withDim["playerUuid" := JString(who.uuid.value)] else withDim;
    if who.name.Some? then withUuid["playerName" := JString(who.name.value)] else withUuid
  }

  /**
   * `makeEntry`: the JSON object logged for one area. "dimension", "playerUuid" and
   * "playerName" are present exactly when known; the fields every entry has are given by
   * MakeEntryFields.
   */
  function MakeEntry(areaName: string, tsMs: Int64, pos: BlockPos, dimension: Option<Int32>, action: Action,
                     oldState: BlockState, newState: BlockState, who: Attribution): (e: map<string, Json>)
    ensures "dimension" in e <==> dimension.Some?
    ensures "playerUuid" in e <==> who.uuid.Some?
    ensures "playerName" in e <==> who.name.Some?
    ensures "nearbyPlayers" !in e
  {
    EntryBody(tsMs, pos, dimension, action, oldState, newState, who)["area" := JString(areaName)]
  }

  /** An entry records when the change happened, in which area, what it was and where. */
  lemma MakeEntryWhatWhere(areaName: string, tsMs: Int64, pos: BlockPos, dimension: Option<Int32>, action: Action,
                           oldState: BlockState, newState: BlockState, who: Attribution)
    ensures var e := MakeEntry(areaName, tsMs, pos, dimension, action, oldState, newState, who);
            e["tsMs"] == JInt(tsMs) && e["area"] == JString(areaName) && e["action"] == JString(ActionName(action))
            && e["x"] == JInt(pos.x) && e["y"] == JInt(pos.y) && e["z"] == JInt(pos.z) && e["inHousing"] == JBool(true)
  {
    CoreWhatWhere(tsMs, pos, action, oldState, newState, who.kind);
    BodyKeepsCore(tsMs, pos, dimension, action, oldState, newState, who);
  }

  /** An entry records both block states and the attribution kind. */
  lemma MakeEntryBlocks(areaName: string, tsMs: Int64, pos: BlockPos, dimension: Option<Int32>, action: Action,
                        oldState: BlockState, newState: BlockState, who: Attribution)
    ensures var e := MakeEntry(areaName, tsMs, pos, dimension, action, oldState, newState, who);
            e["oldBlock"] == JString(oldState.block) && e["oldMeta"] == JInt(oldState.meta)
            && e["newBlock"] == JString(newState.block) && e["newMeta"] == JInt(newState.meta)
            && e["attribution"] == JString(who.kind)
  {
    CoreBlocks(tsMs, pos, action, oldState, newState, who.kind);
    BodyKeepsCore(tsMs, pos, dimension, action, oldState, newState, who);
  }

  /** The optional fields carry the dimension and the attributed player's uuid and name. */
  lemma MakeEntryOptionalFields(areaName: string, tsMs: Int64, pos: BlockPos, dimension: Option<Int32>, action: Action,
                                oldState: BlockState, newState: BlockState, who: Attribution)
    ensures var e := MakeEntry(areaName, tsMs, pos, dimension, action, oldState, newState, who);
            (dimension.Some? ==> e["dimension"] == JInt(dimension.value))
            && (who.uuid.Some? ==> e["playerUuid"] == JString(who.uuid.value))
            && (who.name.Some? ==> e["playerName"] == JString(who.name.value))
  {
  }

  /** One nearby player as JSON: uuid and name when known, always the distance. */
  function NearbyJson(p: Nearby): (j: Json)
    ensures j.JObject? && "dist" in j.fields && j.fields["dist"] == JReal(p.dist, p.distText)
    ensures "uuid" in j.fields <==> p.uuid.Some?
    ensures p.uuid.Some? ==> j.fields["uuid"] == JString(p.uuid.value)
    ensures "name" in j.fields <==> p.name.Some?
    ensures p.name.Some? ==> j.fields["name"] == JString(p.name.value)
  {
    var withDist := map["dist" := JReal(p.dist, p.distText)];
    var withUuid := if p.uuid.Some? then withDist["uuid" := JString(p.uuid.value)] else withDist;
    JObject(if p.name.Some? then withUuid["name" := JString(p.name.value)] else withUuid)
  }

  function NearbyArray(ps: seq<Nearby>): (items: seq<Json>)
    ensures |items| == |ps|
    ensures forall i :: 0 <= i < |ps| ==> items[i] == NearbyJson(ps[i])
  {
    seq(|ps|, i requires 0 <= i < |ps| => NearbyJson(ps[i]))
  }

  /**
   * The entry for one area: `makeEntry`, plus the nearby players when the change is a BREAK
   * still missing a player uuid or name and the nearby list is present and non-empty.
   */
  function AreaEntry(areaName: string, tsMs: Int64, pos: BlockPos, dimension: Option<Int32>, action: Action,
                     oldState: BlockState, newState: BlockState, who: Attribution,
                     nearby: Option<seq<Nearby>>): (e: map<string, Json>)
    ensures var base := MakeEntry(areaName, tsMs, pos, dimension, action, oldState, newState, who);
            (forall k :: k in base ==> k in e && e[k] == base[k])
            && (forall k :: k in e ==> k in base || k == "nearbyPlayers")
    ensures "nearbyPlayers" in e <==>
              action == Break && (who.uuid.None? || who.name.None?) && nearby.Some? && |nearby.value| > 0
    ensures "nearbyPlayers" in e ==> e["nearbyPlayers"] == JArray(NearbyArray(nearby.value))
  {
    var base := MakeEntry(areaName, tsMs, pos, dimension, action, oldState, newState, who);
    if action == Break && (who.uuid.None? || who.name.None?) && nearby.Some? && |nearby.value| > 0 then
      base["nearbyPlayers" := JArray(NearbyArray(nearby.value))]
    else
      base
  }

  /** The entries written for one change: one per matching area, in the areas' order. */
  function Entries(areaNames: seq<string>, tsMs: Int64, pos: BlockPos, dimension: Option<Int32>, action: Action,
                   oldState: BlockState, newState: BlockState, who: Attribution,
                   nearby: Option<seq<Nearby>>): (es: seq<Json>)
    ensures |es| == |areaNames|
    ensures forall i :: 0 <= i < |areaNames| ==>
              es[i] == JObject(AreaEntry(areaNames[i], tsMs, pos, dimension, action, oldState, newState, who, nearby))
  {
    seq(|areaNames|, i requires 0 <= i < |areaNames| =>
      JObject(AreaEntry(areaNames[i], tsMs, pos, dimension, action, oldState, newState, who, nearby)))
  }

  /** Entry i names area i, and any two entries of one change agree on every other field. */
  lemma EntriesDifferOnlyInArea(areaNames: seq<string>, tsMs: Int64, pos: BlockPos, dimension: Option<Int32>, action: Action,
                                oldState: BlockState, newState: BlockState, who: Attribution,
                                nearby: Option<seq<Nearby>>, i: nat, j: nat)
    requires i < |areaNames| && j < |areaNames|
    ensures var es := Entries(areaNames, tsMs, pos, dimension, action, oldState, newState, who, nearby);
            es[i].JObject? && "area" in es[i].fields && es[i].fields["area"] == JString(areaNames[i])
            && forall k :: k != "area" ==>
                 (k in es[i].fields <==> k in es[j].fields) && (k in es[i].fields ==> es[i].fields[k] == es[j].fields[k])
  {
  }

  // ---------------------------------------------------------------- text line

  /** A field read through an accessor, with a default when absent; None when the accessor throws. */
  function FieldOr<T>(e: map<string, Json>, key: string, read: Json -> Option<T>, default: T): Option<T> {
    if key in e then read(e[key]) else Some(default)
  }

  /** One printed nearby item: the name (or "?") and "(distance)" when the distance is not negative. */
  function NearbyItemText(p: Json, fmt: real -> string): (r: Option<string>)
    ensures !p.JObject? ==> r == Some("")
  {
    if !p.JObject? then Some("")
    else
      var n :- FieldOr(p.fields, "name", AsString, "?");
      var d :- FieldOr(p.fields, "dist", AsReal, -1.0);
      Some(n + (if d >= 0.0 then "(" + fmt(d) + ")" else ""))
  }

  /** The first `n` items, each after ", " except the first; None as soon as one of them throws. */
  function NearbyItems(items: seq<Json>, n: nat, fmt: real -> string): Option<string>
    requires n <= |items|
  {
    if n == 0 then Some("")
    else
      var before :- NearbyItems(items, n - 1, fmt);
      var item :- NearbyItemText(items[n - 1], fmt);
      Some(before + (if n > 1 then ", " else "") + item)
  }

  /** How many items are printed: all of them, but never more than 12. */
  function NearbyLimit(count: nat): (limit: nat)
    ensures limit <= count && limit <= NEARBY_TEXT_LIMIT
    ensures limit == count || limit == NEARBY_TEXT_LIMIT
  {
    if count < NEARBY_TEXT_LIMIT then count else NEARBY_TEXT_LIMIT
  }

  /** The " nearby=[...]" part: nothing for an absent, non-array or empty list; at most 12 items; ", ..." when cut. */
  function NearbyText(e: map<string, Json>, fmt: real -> string): Option<string> {
    if "nearbyPlayers" !in e || !e["nearbyPlayers"].JArray? || |e["nearbyPlayers"].items| == 0 then Some("")
    else
      var items := e["nearbyPlayers"].items;
      var limit := NearbyLimit(|items|);
      var body :- NearbyItems(items, limit, fmt);
      Some(" nearby=[" + body + (if |items| > limit then ", ..." else "") + "]")
  }

  /** "[time] [area] ACTION (x,y,z) old:meta -> new:meta": `clock` renders a millisecond timestamp as the time of day. */
  function LineHead(e: map<string, Json>, clock: int -> string): Option<string> {
    var ts :- FieldOr(e, "tsMs", AsLong, 0);
    var area :- if "area" in e then (var a :- AsString(e["area"]); Some("[" + a + "] ")) else Some("");
    var action :- FieldOr(e, "action", AsString, "?");
    var x :- FieldOr(e, "x", AsInt, 0);
    var y :- FieldOr(e, "y", AsInt, 0);
    var z :- FieldOr(e, "z", AsInt, 0);
    var oldBlock :- FieldOr(e, "oldBlock", AsString, "?");
    var oldMeta :- FieldOr(e, "oldMeta", AsInt, 0);
    var newBlock :- FieldOr(e, "newBlock", AsString, "?");
    var newMeta :- FieldOr(e, "newMeta", AsInt, 0);
    Some("[" + clock(ts) + "] " + area + action
         + " (" + Dec(x) + "," + Dec(y) + "," + Dec(z) + ") "
         + oldBlock + ":" + Dec(oldMeta) + " -> " + newBlock + ":" + Dec(newMeta))
  }

  /** " player=<name>", "unknown" standing in for a missing name. */
  function PlayerText(e: map<string, Json>): Option<string> {
    var player :- FieldOr(e, "playerName", AsString, "unknown");
    Some(" player=" + player)
  }

  /** " uuid=<uuid>" when the entry has one. */
  function UuidText(e: map<string, Json>): Option<string> {
    if "playerUuid" in e then (var u :- AsString(e["playerUuid"]); Some(" uuid=" + u)) else Some("")
  }

  /** " attr=<attribution>", "unknown" standing in for a missing one. */
  function AttrText(e: map<string, Json>): Option<string> {
    var attr :- FieldOr(e, "attribution", AsString, "unknown");
    Some(" attr=" + attr)
  }

  /**
   * `toTextLine`: the head, then player, uuid, attribution and nearby parts. `fmt` renders a
   * distance with two decimals. None is the fallback to the entry's JSON text, taken when an
   * accessor throws.
   */
  function TextLine(e: map<string, Json>, clock: int -> string, fmt: real -> string): Option<string> {
    var head :- LineHead(e, clock);
    var player :- PlayerText(e);
    var uuid :- UuidText(e);
    var attr :- AttrText(e);
    var nearby :- NearbyText(e, fmt);
    Some(head + player + uuid + attr + nearby)
  }

  /** The nearby loop of `toTextLine`: items before `limit`, separated by ", ". */
  method RenderNearbyItems(items: seq<Json>, limit: nat, fmt: real -> string) returns (r: Option<string>)
    requires limit <= |items|
    ensures r == NearbyItems(items, limit, fmt)
  {
    var sb := "";
    var i := 0;
    while i < limit
      invariant 0 <= i <= limit
      invariant NearbyItems(items, i, fmt) == Some(sb)
    {
      var sep := if i > 0 then ", " else "";
      var item := NearbyItemText(items[i], fmt);
      if item.None? {
        NearbyItemsStaysFailed(items, i + 1, limit, fmt);
        return None;
      }
      sb := sb + sep + item.value;
      i := i + 1;
    }
    return Some(sb);
  }

  /** Once an item throws, every longer prefix throws too. */
  lemma {:induction false} NearbyItemsStaysFailed(items: seq<Json>, n: nat, m: nat, fmt: real -> string)
    requires 0 < n <= m <= |items| && NearbyItemText(items[n - 1], fmt).None?
    ensures NearbyItems(items, m, fmt).None?
    decreases m
  {
    if m > n {
      NearbyItemsStaysFailed(items, n, m - 1, fmt);
    }
  }

  /** `toTextLine` with the nearby loop run as a loop. */
  method ToTextLine(e: map<string, Json>, clock: int -> string, fmt: real -> string) returns (line: Option<string>)
    ensures line == TextLine(e, clock, fmt)
  {
    var head := LineHead(e, clock);
    var player := PlayerText(e);
    var uuid := UuidText(e);
    var attr := AttrText(e);
    if head.None? || player.None? || uuid.None? || attr.None? {
      return None;
    }
    var nearby := Some("");
    if "nearbyPlayers" in e && e["nearbyPlayers"].JArray? && |e["nearbyPlayers"].items| > 0 {
      var items := e["nearbyPlayers"].items;
      var limit := NearbyLimit(|items|);
      var body := RenderNearbyItems(items, limit, fmt);
      if body.None? {
        return None;
      }
      nearby := Some(" nearby=[" + body.value + (if |items| > limit then ", ..." else "") + "]");
    }
    line := Some(head.value + player.value + uuid.value + attr.value + nearby.value);
  }

  /** What `lineFallback` writes when even Gson cannot render the entry. */
  const FORMAT_ERROR_LINE: string := "{\"error\":\"failed_to_format\"}"

  /**
   * The line `appendLogLine` writes to the text log: `toTextLine`, or, when that throws,
   * `lineFallback`: the entry's JSON text `json` (None when Gson throws too) or a fixed error object.
   */
  function LogLine(e: map<string, Json>, clock: int -> string, fmt: real -> string, json: Option<string>): (line: string)
    ensures TextLine(e, clock, fmt).Some? ==> line == TextLine(e, clock, fmt).value
    ensures TextLine(e, clock, fmt).None? && json.Some? ==> line == json.value
    ensures TextLine(e, clock, fmt).None? && json.None? ==> line == FORMAT_ERROR_LINE
  {
    match TextLine(e, clock, fmt)
    case Some(l) => l
    case None => if json.Some? then json.value else FORMAT_ERROR_LINE
  }

  /** A timestamp `getAsLong` cannot read makes the line fall back to the entry's JSON text. */
  lemma UnreadableTimeFallsBack(e: map<string, Json>, clock: int -> string, fmt: real -> string, json: string)
    requires "tsMs" in e && AsLong(e["tsMs"]).None?
    ensures LogLine(e, clock, fmt, Some(json)) == json
  {
    assert LineHead(e, clock).None?;
  }

  /** Without a player name the line says "player=unknown". */
  lemma TextLinePlayerUnknown(e: map<string, Json>, clock: int -> string, fmt: real -> string)
    requires TextLine(e, clock, fmt).Some? && "playerName" !in e
    ensures HasSubstring(TextLine(e, clock, fmt).value, " player=unknown")
  {
    var head, player := LineHead(e, clock).value, PlayerText(e).value;
    var uuid, attr, nearby := UuidText(e).value, AttrText(e).value, NearbyText(e, fmt).value;
    assert player == " player=unknown";
    HasSubstringIn(head, player, []);
    assert head + player + [] == head + player;
    HasSubstringExtend(head + player, uuid, player);
    HasSubstringExtend(head + player + uuid, attr, player);
    HasSubstringExtend(head + player + uuid + attr, nearby, player);
  }

  /** Without an attribution the line says "attr=unknown". */
  lemma TextLineAttrUnknown(e: map<string, Json>, clock: int -> string, fmt: real -> string)
    requires TextLine(e, clock, fmt).Some? && "attribution" !in e
    ensures HasSubstring(TextLine(e, clock, fmt).value, " attr=unknown")
  {
    var front := LineHead(e, clock).value + PlayerText(e).value + UuidText(e).value;
    var attr, nearby := AttrText(e).value, NearbyText(e, fmt).value;
    assert attr == " attr=unknown";
    HasSubstringIn(front, attr, nearby);
  }

  /** Only the first 12 nearby items matter; a longer list always ends in ", ...]". */
  lemma {:induction false} NearbyItemsPrefix(a: seq<Json>, b: seq<Json>, n: nat, fmt: real -> string)
    requires n <= |a| && n <= |b| && a[..n] == b[..n]
    ensures NearbyItems(a, n, fmt) == NearbyItems(b, n, fmt)
  {
    if n > 0 {
      assert a[..n - 1] == b[..n - 1];
      assert a[n - 1] == a[..n][n - 1] == b[..n][n - 1] == b[n - 1];
      NearbyItemsPrefix(a, b, n - 1, fmt);
    }
  }

  /**
   * Two entries that agree except on nearby players beyond the twelfth, both lists being longer than
   * 12, print the same nearby part; it ends in ", ...]" whenever it renders.
   */
  lemma NearbyCap(e: map<string, Json>, a: seq<Json>, b: seq<Json>, fmt: real -> string)
    requires |a| > NEARBY_TEXT_LIMIT && |b| > NEARBY_TEXT_LIMIT && a[..NEARBY_TEXT_LIMIT] == b[..NEARBY_TEXT_LIMIT]
    ensures NearbyText(e["nearbyPlayers" := JArray(a)], fmt) == NearbyText(e["nearbyPlayers" := JArray(b)], fmt)
    ensures var t := NearbyText(e["nearbyPlayers" := JArray(a)], fmt);
            t.Some? ==> |t.value| >= 6 && t.value[|t.value| - 6..] == ", ...]"
  {
    NearbyItemsPrefix(a, b, NEARBY_TEXT_LIMIT, fmt);
  }

  /** The nearby players an entry carries always print: every item has a string name or none, and a number distance. */
  lemma {:induction false} NearbyArrayRenders(ps: seq<Nearby>, n: nat, fmt: real -> string)
    requires n <= |ps|
    ensures NearbyItems(NearbyArray(ps), n, fmt).Some?
  {
    if n > 0 {
      NearbyArrayRenders(ps, n - 1, fmt);
      var p := NearbyArray(ps)[n - 1];
      assert p == NearbyJson(ps[n - 1]);
      assert NearbyItemText(p, fmt).Some?;
    }
  }

  /** Proof helper: the head of a line, from the values its fields read as. */
  lemma LineHeadOf(e: map<string, Json>, clock: int -> string, ts: Int64, area: string, action: string,
                   x: Int32, y: Int32, z: Int32, oldBlock: string, oldMeta: Int32, newBlock: string, newMeta: Int32)
    requires FieldOr(e, "tsMs", AsLong, 0) == Some(ts) && "area" in e && AsString(e["area"]) == Some(area)
    requires FieldOr(e, "action", AsString, "?") == Some(action)
    requires FieldOr(e, "x", AsInt, 0) == Some(x) && FieldOr(e, "y", AsInt, 0) == Some(y) && FieldOr(e, "z", AsInt, 0) == Some(z)
    requires FieldOr(e, "oldBlock", AsString, "?") == Some(oldBlock) && FieldOr(e, "oldMeta", AsInt, 0) == Some(oldMeta)
    requires FieldOr(e, "newBlock", AsString, "?") == Some(newBlock) && FieldOr(e, "newMeta", AsInt, 0) == Some(newMeta)
    ensures LineHead(e, clock)
         == Some("[" + clock(ts) + "] " + ("[" + area + "] ") + action
                 + " (" + Dec(x) + "," + Dec(y) + "," + Dec(z) + ") "
                 + oldBlock + ":" + Dec(oldMeta) + " -> " + newBlock + ":" + Dec(newMeta))
  {
  }

  /** Proof helpers: a field the line head reads, read back from the entry. */
  lemma ReadsLong(e: map<string, Json>, k: string, v: Int64)
    requires k in e && e[k] == JInt(v)
    ensures FieldOr(e, k, AsLong, 0) == Some(v)
  {
  }

  lemma ReadsInt(e: map<string, Json>, k: string, v: Int32)
    requires k in e && e[k] == JInt(v)
    ensures FieldOr(e, k, AsInt, 0) == Some(v)
  {
  }

  lemma ReadsString(e: map<string, Json>, k: string, v: string)
    requires k in e && e[k] == JString(v)
    ensures FieldOr(e, k, AsString, "?") == Some(v)
  {
  }

  /** The entry for an area reads back its time, area, action and position. */
  lemma EntryHeadFields(areaName: string, tsMs: Int64, pos: BlockPos, dimension: Option<Int32>, action: Action,
                        oldState: BlockState, newState: BlockState, who: Attribution, nearby: Option<seq<Nearby>>)
    ensures var e := AreaEntry(areaName, tsMs, pos, dimension, action, oldState, newState, who, nearby);
            FieldOr(e, "tsMs", AsLong, 0) == Some(tsMs) && "area" in e && AsString(e["area"]) == Some(areaName)
            && FieldOr(e, "action", AsString, "?") == Some(ActionName(action))
            && FieldOr(e, "x", AsInt, 0) == Some(pos.x) && FieldOr(e, "y", AsInt, 0) == Some(pos.y)
            && FieldOr(e, "z", AsInt, 0) == Some(pos.z)
  {
    var e := AreaEntry(areaName, tsMs, pos, dimension, action, oldState, newState, who, nearby);
    MakeEntryWhatWhere(areaName, tsMs, pos, dimension, action, oldState, newState, who);
    ReadsLong(e, "tsMs", tsMs);
    ReadsString(e, "action", ActionName(action));
    ReadsInt(e, "x", pos.x);
    ReadsInt(e, "y", pos.y);
    ReadsInt(e, "z", pos.z);
  }

  /** The entry for an area reads back both block states. */
  lemma EntryBlockFields(areaName: string, tsMs: Int64, pos: BlockPos, dimension: Option<Int32>, action: Action,
                         oldState: BlockState, newState: BlockState, who: Attribution, nearby: Option<seq<Nearby>>)
    ensures var e := AreaEntry(areaName, tsMs, pos, dimension, action, oldState, newState, who, nearby);
            FieldOr(e, "oldBlock", AsString, "?") == Some(oldState.block) && FieldOr(e, "oldMeta", AsInt, 0) == Some(oldState.meta)
            && FieldOr(e, "newBlock", AsString, "?") == Some(newState.block) && FieldOr(e, "newMeta", AsInt, 0) == Some(newState.meta)
  {
    var e := AreaEntry(areaName, tsMs, pos, dimension, action, oldState, newState, who, nearby);
    MakeEntryBlocks(areaName, tsMs, pos, dimension, action, oldState, newState, who);
    ReadsString(e, "oldBlock", oldState.block);
    ReadsInt(e, "oldMeta", oldState.meta);
    ReadsString(e, "newBlock", newState.block);
    ReadsInt(e, "newMeta", newState.meta);
  }

  /** The head of an entry's line shows its time, area, action, position and both block states. */
  lemma EntryLineHead(areaName: string, tsMs: Int64, pos: BlockPos, dimension: Option<Int32>, action: Action,
                      oldState: BlockState, newState: BlockState, who: Attribution,
                      nearby: Option<seq<Nearby>>, clock: int -> string)
    ensures LineHead(AreaEntry(areaName, tsMs, pos, dimension, action, oldState, newState, who, nearby), clock)
         == Some("[" + clock(tsMs) + "] " + ("[" + areaName + "] ") + ActionName(action)
                 + " (" + Dec(pos.x) + "," + Dec(pos.y) + "," + Dec(pos.z) + ") "
                 + oldState.block + ":" + Dec(oldState.meta) + " -> " + newState.block + ":" + Dec(newState.meta))
  {
    EntryHeadFields(areaName, tsMs, pos, dimension, action, oldState, newState, who, nearby);
    EntryBlockFields(areaName, tsMs, pos, dimension, action, oldState, newState, who, nearby);
    LineHeadOf(AreaEntry(areaName, tsMs, pos, dimension, action, oldState, newState, who, nearby), clock,
               tsMs, areaName, ActionName(action), pos.x, pos.y, pos.z,
               oldState.block, oldState.meta, newState.block, newState.meta);
  }

  /**
   * The rest of an entry's line: the attributed player (or "unknown"), the uuid when known,
   * the attribution kind, and a nearby part that always renders.
   */
  lemma EntryLineTail(areaName: string, tsMs: Int64, pos: BlockPos, dimension: Option<Int32>, action: Action,
                      oldState: BlockState, newState: BlockState, who: Attribution,
                      nearby: Option<seq<Nearby>>, fmt: real -> string)
    ensures var e := AreaEntry(areaName, tsMs, pos, dimension, action, oldState, newState, who, nearby);
            PlayerText(e) == Some(" player=" + (if who.name.Some? then who.name.value else "unknown"))
            && UuidText(e) == Some(if who.uuid.Some? then " uuid=" + who.uuid.value else "")
            && AttrText(e) == Some(" attr=" + who.kind)
            && NearbyText(e, fmt).Some?
  {
    MakeEntryBlocks(areaName, tsMs, pos, dimension, action, oldState, newState, who);
    MakeEntryOptionalFields(areaName, tsMs, pos, dimension, action, oldState, newState, who);
    var e := AreaEntry(areaName, tsMs, pos, dimension, action, oldState, newState, who, nearby);
    if "nearbyPlayers" in e {
      NearbyArrayRenders(nearby.value, NearbyLimit(|nearby.value|), fmt);
    }
  }

  /** A line is never the JSON fallback for an entry the audit wrote. */
  lemma EntryLineRenders(areaName: string, tsMs: Int64, pos: BlockPos, dimension: Option<Int32>, action: Action,
                         oldState: BlockState, newState: BlockState, who: Attribution,
                         nearby: Option<seq<Nearby>>, clock: int -> string, fmt: real -> string)
    ensures TextLine(AreaEntry(areaName, tsMs, pos, dimension, action, oldState, newState, who, nearby), clock, fmt).Some?
  {
    EntryLineHead(areaName, tsMs, pos, dimension, action, oldState, newState, who, nearby, clock);
    EntryLineTail(areaName, tsMs, pos, dimension, action, oldState, newState, who, nearby, fmt);
  }

  /** An entry the audit writes is logged as its text line, never as the fallback. */
  lemma EntryLogLine(areaName: string, tsMs: Int64, pos: BlockPos, dimension: Option<Int32>, action: Action,
                     oldState: BlockState, newState: BlockState, who: Attribution,
                     nearby: Option<seq<Nearby>>, clock: int -> string, fmt: real -> string, json: Option<string>)
    ensures var e := AreaEntry(areaName, tsMs, pos, dimension, action, oldState, newState, who, nearby);
            TextLine(e, clock, fmt).Some? && LogLine(e, clock, fmt, json) == TextLine(e, clock, fmt).value
  {
    EntryLineRenders(areaName, tsMs, pos, dimension, action, oldState, newState, who, nearby, clock, fmt);
  }
}
