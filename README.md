# HousingLogs core, modelled in Dafny

HousingLogs is a Minecraft client mod with two jobs. This project models three of its parts.

**The block audit.** It keeps a registry of named, axis-aligned areas, kept in insertion order. Each area has:
- an RGBA colour;
- an enabled flag and a highlight flag.

The registry is saved as a JSON document and read back, including the legacy single-area format. For every block change inside an enabled area, the audit writes one JSON entry per matching area and one readable text line.
- A change is classified as PLACE, BREAK or CHANGE.
- It is attributed to a player who was recently seen breaking that block (within 2500 ms), or to a guess from a heuristic.
- Nobody may be attributed at all.

**The `/hlog` command.** This is the chat command that edits the registry: add, remove, clear, list, on/off, highlight and path.

**The Pro Tools automation.** It turns a "set one block" or "fill a box" request into a timed series of chat commands, one game tick at a time:
- it teleports to each corner, sends `//pos1` or `//pos2`, and waits for the chat to confirm the corner;
- a failed corner is retried up to three times;
- at the end it sends `//set` or `//fill`, teleports back and sends `//desel`.

It reads coordinates out of chat messages with three regular expressions.

## Module layout

| module | file | contents |
|---|---|---|
| `Wrappers` | `wrappers.dfy` | the `Option` type |
| `JavaText` | `java_text.dfy` | the Java library behaviour the core relies on: `trim`, ASCII `toLowerCase`, `contains`, `Integer.parseInt`, `Integer.toString` and 32/64-bit wrap-around |
| `Json` | `json.dfy` | a JSON value, and Gson's `getAsString`/`getAsBoolean`/`getAsInt`/`getAsLong`/`getAsDouble` coercions |
| `Areas` | `area.dfy` | `BlockPos`, the `Area` record, `AreaSnapshot`, the box two corners span, `normalizeKey` |
| `AreaStore` | `store.dfy` | the `LinkedHashMap` of areas as a value: keys in order plus a map |
| `Color` | `color.dfy` | `parseColorRgba` and `colorToHexRgba`/`toHexRgba` on 32-bit patterns |
| `Audit` | `audit.dfy` | classification, attribution, `makeEntry`, the nearby-player list and `toTextLine` |
| `Persist` | `persist.dfy` | the saved document and `loadAreaFromDisk` as functions on JSON |
| `Manager` | `manager.dfy` | class `BlockAuditManager`: the registry's static state as fields, and its methods |
| `Coords` | `coords.dfy` | `parseCoordsFromMessage`: the three patterns and `Matcher.find()` |
| `Workflow` | `workflow.dfy` | the automation's job as a value: transition functions and their properties |
| `Automation` | `automation.dfy` | classes `Job` and `ProtoolsAutomation`, specified by module `Workflow` |
| `Commands` | `commands.dfy` | `/hlog`: argument checks, dispatch to the registry, and what the command answers |

All source paths below are relative to the repository root.

## Model

| member | source | states |
|---|---|---|
| JavaText.Trim | src/main/java/com/github/xtimfie/housinglogs/BlockAuditManager.java:150-151 | `String.trim`: the result is an infix of the input with no character up to U+0020 at either end, and only such characters are removed |
| JavaText.TrimIdempotent | src/main/java/com/github/xtimfie/housinglogs/BlockAuditManager.java:150-151 | trimming a trimmed name changes nothing |
| JavaText.AsciiLower | src/main/java/com/github/xtimfie/housinglogs/BlockAuditManager.java:869-871 | lower-casing keeps the length and lower-cases each letter in place |
| JavaText.ParseIntegral | src/main/java/com/github/xtimfie/housinglogs/CommandBlockAudit.java:42-47 | `Integer.parseInt`: an accepted text is one optional sign followed by digits, and its value lies within the int range |
| JavaText.ParseIntegralMeaning | src/main/java/com/github/xtimfie/housinglogs/CommandBlockAudit.java:42-47 | a text is accepted exactly when, after one optional '+' or '-', it is a non-empty run of digits whose signed value lies within the bounds, and the answer is that signed value (so "+007" reads as 7) |
| JavaText.DecRoundTrip | src/main/java/com/github/xtimfie/housinglogs/CommandBlockAudit.java:42-47 | `Integer.parseInt` of `Integer.toString(i)` gives back `i` for every int |
| Json.AsBool | src/main/java/com/github/xtimfie/housinglogs/BlockAuditManager.java:773 | `getAsBoolean`: a boolean is itself; text is true exactly when it reads "true" in any case; a whole number, and a fractional number written with a leading digit or "-", read as false; null and objects throw |
| Json.AsInt | src/main/java/com/github/xtimfie/housinglogs/BlockAuditManager.java:796-797 | `getAsInt`: a number keeps its low 32 bits; text that is not an int makes it throw |
| Json.AsString | src/main/java/com/github/xtimfie/housinglogs/BlockAuditManager.java:784 | `getAsString`: a string is itself; a whole number is its decimal text and a fractional number its own text; a boolean is "true" or "false"; null and objects throw |
| Areas.SpannedBox | src/main/java/com/github/xtimfie/housinglogs/BlockAuditManager.java:155-164 | the box of two corners, given in either order, is ordered, and it contains exactly the positions between the corners on every axis (with `Area.contains`, lines 76-80) |
| Areas.NormalizeKey | src/main/java/com/github/xtimfie/housinglogs/BlockAuditManager.java:869-871 | the key is empty exactly when the name holds only trimmable characters, and it is never longer than the name |
| Areas.NormalizeKeyStable | src/main/java/com/github/xtimfie/housinglogs/BlockAuditManager.java:150-153 | a key is its own key, and a name and its trimmed form share a key, so lookups by the raw name find areas filed under the trimmed name |
| Areas.NormalizeKeyIgnoresCase | src/main/java/com/github/xtimfie/housinglogs/BlockAuditManager.java:869-871 | names that differ only in the case of ASCII letters share a key |
| Areas.LowerTrim | src/main/java/com/github/xtimfie/housinglogs/BlockAuditManager.java:869-871 | trimming and lower-casing commute |
| Areas.DefaultNameKey | src/main/java/com/github/xtimfie/housinglogs/BlockAuditManager.java:812-813 | the legacy area "default" is filed under "default" |
| Areas.Snapshot | src/main/java/com/github/xtimfie/housinglogs/BlockAuditManager.java:82-98 | a snapshot carries every field of the area except its key |
| AreaStore.Put | src/main/java/com/github/xtimfie/housinglogs/BlockAuditManager.java:166 | `LinkedHashMap.put`: the key maps to the new area and every other key is unchanged; a known key keeps its place and a new key goes last |
| AreaStore.Remove | src/main/java/com/github/xtimfie/housinglogs/BlockAuditManager.java:183 | `remove`: the key is gone and every other key keeps its area |
| AreaStore.Values | src/main/java/com/github/xtimfie/housinglogs/BlockAuditManager.java:223-226 | `values()` lists the areas in key order, one per key |
| AreaStore.PutValid | src/main/java/com/github/xtimfie/housinglogs/BlockAuditManager.java:166 | putting an area under its own name's key keeps keys unique, listed once, and each area under its name's key |
| AreaStore.RemoveValid | src/main/java/com/github/xtimfie/housinglogs/BlockAuditManager.java:183 | removing keeps the registry well formed |
| AreaStore.PutExistingKeepsOrder | src/main/java/com/github/xtimfie/housinglogs/BlockAuditManager.java:166 | re-putting a present key replaces its area in place and leaves the rest of the iteration order alone |
| AreaStore.Upserted | src/main/java/com/github/xtimfie/housinglogs/BlockAuditManager.java:147-170 | the stored area is filed under the trimmed name's key, carries the trimmed name and the given colour |
| AreaStore.UpsertFacts | src/main/java/com/github/xtimfie/housinglogs/BlockAuditManager.java:147-170 | after an upsert the area spans the corners in either order; a new key goes last, enabled and not highlighted; an existing key keeps its place and its flags; every other key keeps its area; the registry stays well formed |
| AreaStore.WithHighlight | src/main/java/com/github/xtimfie/housinglogs/BlockAuditManager.java:197-219 | only the highlight flag of the one area changes: same keys, same order, every other area unchanged |
| AreaStore.HighlightValid | src/main/java/com/github/xtimfie/housinglogs/BlockAuditManager.java:197-219 | setting a highlight keeps the registry well formed |
| AreaStore.HighlightRestores | src/main/java/com/github/xtimfie/housinglogs/BlockAuditManager.java:197-219 | setting the old highlight back restores the registry exactly |
| AreaStore.Matching | src/main/java/com/github/xtimfie/housinglogs/BlockAuditManager.java:272-281 | every match is an enabled area of the registry that contains the position |
| AreaStore.MatchingComplete | src/main/java/com/github/xtimfie/housinglogs/BlockAuditManager.java:272-281 | every enabled area containing the position is among the matches |
| AreaStore.MatchingStep | src/main/java/com/github/xtimfie/housinglogs/BlockAuditManager.java:275-280 | one more area scanned adds it exactly when it is enabled and contains the position |
| AreaStore.MatchingAreas | src/main/java/com/github/xtimfie/housinglogs/BlockAuditManager.java:269-283 | `snapshotMatchingAreas` never returns an empty list: "nothing matched" and "no areas" are both null |
| AreaStore.Snapshots | src/main/java/com/github/xtimfie/housinglogs/BlockAuditManager.java:221-229 | one snapshot per area, in order |
| AreaStore.Highlighted | src/main/java/com/github/xtimfie/housinglogs/BlockAuditManager.java:231-240 | every snapshot in the highlight list is highlighted |
| AreaStore.HighlightedSound | src/main/java/com/github/xtimfie/housinglogs/BlockAuditManager.java:231-240 | every snapshot in the highlight list comes from an area of the registry |
| AreaStore.HighlightedComplete | src/main/java/com/github/xtimfie/housinglogs/BlockAuditManager.java:231-240 | every highlighted area shows up in the highlight list |
| AreaStore.Names | src/main/java/com/github/xtimfie/housinglogs/BlockAuditManager.java:389-395 | the names of the matching areas, in their order |
| Color.ParseColorRgba | src/main/java/com/github/xtimfie/housinglogs/BlockAuditManager.java:873-888 | a null input, or one whose trimmed text without '#' does not have 6 or 8 characters, gives the fallback |
| Color.ParseGroups | src/main/java/com/github/xtimfie/housinglogs/BlockAuditManager.java:879-882 | the four channels are `Integer.parseInt(_, 16)` of the character pairs; alpha is 0xFF for six characters; any pair parseInt rejects fails the whole parse |
| Color.ColorToHexRgba | src/main/java/com/github/xtimfie/housinglogs/BlockAuditManager.java:890-896 | the text is '#' and eight hex digits |
| Color.HexUpperCase | src/main/java/com/github/xtimfie/housinglogs/BlockAuditManager.java:895 | every digit is an upper-case hex digit, as `%02X` prints them |
| Color.ColorToHexChannels | src/main/java/com/github/xtimfie/housinglogs/BlockAuditManager.java:890-896 | the four pairs are the red, green, blue and alpha bytes, in that order |
| Color.HexRoundTrip | src/main/java/com/github/xtimfie/housinglogs/BlockAuditManager.java:873-896 | the printed colour parses back to the same 32-bit pattern, whatever the fallback (this covers `toHexRgba`/`parseColorRgba` in src/main/java/com/github/xtimfie/housinglogs/CommandBlockAudit.java:147-170 as well) |
| Color.PackChannels | src/main/java/com/github/xtimfie/housinglogs/BlockAuditManager.java:883 | shifting four bytes back into place rebuilds the colour they were taken from |
| Color.RejectsNonHex | src/main/java/com/github/xtimfie/housinglogs/BlockAuditManager.java:878-887 | a character that is neither an ASCII hex digit nor a sign anywhere in the groups makes the parse fall back |
| Color.SixDigitsOpaque | src/main/java/com/github/xtimfie/housinglogs/BlockAuditManager.java:882 | six digits give alpha 0xFF |
| Color.SignedGroupBleeds | src/main/java/com/github/xtimfie/housinglogs/BlockAuditManager.java:879-883 | parseInt accepts a sign, so a group such as "-1" is the int -1; shifted into place, it sets every higher bit too, as Java's `<<` and `\|` do |
| Audit.Classify | src/main/java/com/github/xtimfie/housinglogs/BlockAuditManager.java:324-330 | PLACE exactly when air-like becomes solid, BREAK exactly when solid becomes air-like, CHANGE otherwise |
| Audit.ActionName | src/main/java/com/github/xtimfie/housinglogs/BlockAuditManager.java:328-330 | each of "PLACE", "BREAK" and "CHANGE" is logged for exactly one action, so distinct actions log distinct names |
| Audit.InitialAttribution | src/main/java/com/github/xtimfie/housinglogs/BlockAuditManager.java:332-346 | only a BREAK whose recorded breaker is at most 2500 ms old is attributed, as "break_anim"; everything else is "unknown" with no player |
| Audit.RunsHeuristic | src/main/java/com/github/xtimfie/housinglogs/BlockAuditManager.java:367-372 | the heuristic runs only when allowed, for PLACE or BREAK, with nobody attributed yet |
| Audit.FinalAttribution | src/main/java/com/github/xtimfie/housinglogs/BlockAuditManager.java:394-410 | a guess gives "heuristic_break" for a BREAK and "heuristic_look_item"/"heuristic_look" otherwise; no guess keeps the first attribution |
| Audit.AttributionKinds | src/main/java/com/github/xtimfie/housinglogs/BlockAuditManager.java:332-410 | a heuristic kind only follows an unattributed PLACE or BREAK; "break_anim" only a BREAK; every kind is one of the five known ones |
| Audit.BreakWindowEdge | src/main/java/com/github/xtimfie/housinglogs/BlockAuditManager.java:341 | the window is inclusive: a breaker recorded 2500 ms ago is used, one recorded 2501 ms ago is not |
| Audit.EntryCoreKeys | src/main/java/com/github/xtimfie/housinglogs/BlockAuditManager.java:653-676 | every entry has the same mandatory fields |
| Audit.BodyKeepsCore | src/main/java/com/github/xtimfie/housinglogs/BlockAuditManager.java:653-676 | the optional fields only add to the mandatory ones |
| Audit.MakeEntry | src/main/java/com/github/xtimfie/housinglogs/BlockAuditManager.java:653-676 | "area", "dimension", "playerUuid" and "playerName" appear exactly when given |
| Audit.MakeEntryWhatWhere | src/main/java/com/github/xtimfie/housinglogs/BlockAuditManager.java:653-664 | an entry records its time, area, action, position and "inHousing": true |
| Audit.MakeEntryBlocks | src/main/java/com/github/xtimfie/housinglogs/BlockAuditManager.java:666-673 | an entry records both block states and the attribution kind |
| Audit.MakeEntryOptionalFields | src/main/java/com/github/xtimfie/housinglogs/BlockAuditManager.java:663-672 | the optional fields hold the dimension and the attributed player's uuid and name |
| Audit.NearbyJson | src/main/java/com/github/xtimfie/housinglogs/BlockAuditManager.java:419-425 | one nearby player: "uuid" and "name" are present exactly when known and hold the uuid text and the name, and "dist" always holds the distance |
| Audit.AreaEntry | src/main/java/com/github/xtimfie/housinglogs/BlockAuditManager.java:412-428 | the nearby players are attached exactly for a BREAK that is missing a uuid or a name and has a non-empty nearby list |
| Audit.Entries | src/main/java/com/github/xtimfie/housinglogs/BlockAuditManager.java:412-431 | one entry per matching area, in order |
| Audit.EntriesDifferOnlyInArea | src/main/java/com/github/xtimfie/housinglogs/BlockAuditManager.java:412-431 | entry i names area i, and the entries of one change agree on every other field |
| Audit.NearbyLimit | src/main/java/com/github/xtimfie/housinglogs/BlockAuditManager.java:739 | at most 12 items are printed, and all of them when there are fewer |
| Audit.NearbyItemText | src/main/java/com/github/xtimfie/housinglogs/BlockAuditManager.java:742-747 | an item prints its name, or "?", and "(distance)" only for a distance that is not negative |
| Audit.RenderNearbyItems | src/main/java/com/github/xtimfie/housinglogs/BlockAuditManager.java:740-748 | the loop prints exactly the items of the specification function, separated by ", " |
| Audit.ToTextLine | src/main/java/com/github/xtimfie/housinglogs/BlockAuditManager.java:697-757 | the method with its loop equals `TextLine` |
| Audit.LogLine | src/main/java/com/github/xtimfie/housinglogs/BlockAuditManager.java:697-766 | the text log gets the rendered line; when rendering throws, the entry's JSON text; when that throws too, the fixed error object |
| Audit.UnreadableTimeFallsBack | src/main/java/com/github/xtimfie/housinglogs/BlockAuditManager.java:697-766 | an entry whose "tsMs" cannot be read as a long is logged as its JSON text |
| Audit.EntryLogLine | src/main/java/com/github/xtimfie/housinglogs/BlockAuditManager.java:412-431 | an entry the audit writes is logged as its rendered line, never as the fallback |
| Audit.TextLinePlayerUnknown | src/main/java/com/github/xtimfie/housinglogs/BlockAuditManager.java:723-727 | without a player name, the line says "player=unknown" |
| Audit.TextLineAttrUnknown | src/main/java/com/github/xtimfie/housinglogs/BlockAuditManager.java:733 | without an attribution, the line says "attr=unknown" |
| Audit.NearbyItemsPrefix | src/main/java/com/github/xtimfie/housinglogs/BlockAuditManager.java:739-750 | only the first 12 items count, and a longer list ends in ", ...]" |
| Audit.NearbyCap | src/main/java/com/github/xtimfie/housinglogs/BlockAuditManager.java:739-750 | two entries that differ only in nearby players after the twelfth print the same line |
| Audit.NearbyArrayRenders | src/main/java/com/github/xtimfie/housinglogs/BlockAuditManager.java:740-748 | the nearby list an entry carries always prints without throwing |
| Audit.EntryLineHead | src/main/java/com/github/xtimfie/housinglogs/BlockAuditManager.java:702-721 | a written entry's line shows its time, area, action, position and both block states |
| Audit.EntryLineTail | src/main/java/com/github/xtimfie/housinglogs/BlockAuditManager.java:723-750 | the rest shows the player or "unknown", the uuid when known, the attribution and the nearby players |
| Audit.EntryLineRenders | src/main/java/com/github/xtimfie/housinglogs/BlockAuditManager.java:697-765 | a written entry never falls back to its JSON text |
| Persist.AreaJson | src/main/java/com/github/xtimfie/housinglogs/BlockAuditManager.java:832-848 | one saved area holds its name, both flags, "#RRGGBBAA" colour and both corners |
| Persist.AreaJsons | src/main/java/com/github/xtimfie/housinglogs/BlockAuditManager.java:830-850 | one saved object per area, in order |
| Persist.ReadCorner | src/main/java/com/github/xtimfie/housinglogs/BlockAuditManager.java:793-800 | a corner is read only from an object with three int coordinates |
| Persist.DecodeEntry | src/main/java/com/github/xtimfie/housinglogs/BlockAuditManager.java:781-805 | one element: a non-object or a nameless one is skipped, one without both corners is skipped, one whose accessor throws ends the load |
| Persist.LoadDocument | src/main/java/com/github/xtimfie/housinglogs/BlockAuditManager.java:767-825 | what `loadAreaFromDisk` leaves: the switch and the areas read, or everything as before |
| Persist.LoadEntriesValid | src/main/java/com/github/xtimfie/housinglogs/BlockAuditManager.java:780-806 | whatever the document holds, the loaded registry is well formed |
| Persist.AbortKeepsPrefix | src/main/java/com/github/xtimfie/housinglogs/BlockAuditManager.java:780-806 | an element that throws ends the load: areas read before it stay, nothing after it is read |
| Persist.SkipIsInvisible | src/main/java/com/github/xtimfie/housinglogs/BlockAuditManager.java:781-804 | a skipped element leaves the load as if it were not there |
| Persist.IncompleteEntries | src/main/java/com/github/xtimfie/housinglogs/BlockAuditManager.java:781-804 | non-objects and nameless entries are skipped, and entries lacking a corner are never stored |
| Persist.HeaderRoundTrip | src/main/java/com/github/xtimfie/housinglogs/BlockAuditManager.java:784-790 | a saved area's name, flags and colour read back as themselves |
| Persist.DecodeSaved | src/main/java/com/github/xtimfie/housinglogs/BlockAuditManager.java:781-805 | a saved area reads back as itself |
| Persist.SaveLoadRoundTrip | src/main/java/com/github/xtimfie/housinglogs/BlockAuditManager.java:767-850 | saving a well-formed registry and loading the document back restores it exactly, order and switch included |
| Persist.UnreadableDocument | src/main/java/com/github/xtimfie/housinglogs/BlockAuditManager.java:768-775 | no file, a non-object, or an "enabled" that throws leave everything as it was |
| Persist.LegacyDocument | src/main/java/com/github/xtimfie/housinglogs/BlockAuditManager.java:805-818 | with readable corners and flags, a legacy document gives exactly one area, "default", in the default colour, whose flags default to off while the global switch defaults to on; a corner or "highlight" that throws leaves the registry empty |
| Persist.LegacyValid | src/main/java/com/github/xtimfie/housinglogs/BlockAuditManager.java:807-817 | the legacy branch leaves a well-formed registry |
| Persist.LoadDocumentValid | src/main/java/com/github/xtimfie/housinglogs/BlockAuditManager.java:767-825 | whatever document is loaded, the registry stays well formed |
| Manager.BlockAuditManager.constructor | src/main/java/com/github/xtimfie/housinglogs/BlockAuditManager.java:54 | auditing starts enabled, with no areas and no recorded breakers |
| Manager.BlockAuditManager.SaveAreaToDisk | src/main/java/com/github/xtimfie/housinglogs/BlockAuditManager.java:827-850 | the saved document is the switch and the areas in order; nothing else changes |
| Manager.BlockAuditManager.AreaItems | src/main/java/com/github/xtimfie/housinglogs/BlockAuditManager.java:831-848 | the loop builds one JSON object per area, in order |
| Manager.BlockAuditManager.SetEnabled | src/main/java/com/github/xtimfie/housinglogs/BlockAuditManager.java:126-130 | the switch takes the value, the areas stay, and the document is saved |
| Manager.BlockAuditManager.AddOrUpdateArea | src/main/java/com/github/xtimfie/housinglogs/BlockAuditManager.java:147-176 | succeeds exactly for a name that does not trim to nothing, with both corners given; on success the registry is the upsert and is saved; on failure nothing changes |
| Manager.BlockAuditManager.PutArea | src/main/java/com/github/xtimfie/housinglogs/BlockAuditManager.java:166 | the registry becomes `Put` of the area |
| Manager.BlockAuditManager.RemoveArea | src/main/java/com/github/xtimfie/housinglogs/BlockAuditManager.java:178-187 | true exactly when the name's key was present; only then is it removed and the document saved |
| Manager.BlockAuditManager.ClearAreas | src/main/java/com/github/xtimfie/housinglogs/BlockAuditManager.java:189-195 | every area and recorded breaker is forgotten, and the empty registry is saved |
| Manager.BlockAuditManager.SetAreaHighlight | src/main/java/com/github/xtimfie/housinglogs/BlockAuditManager.java:209-219 | true exactly when the key is present; then only that area's highlight changes, and the document is saved |
| Manager.BlockAuditManager.ToggleAreaHighlight | src/main/java/com/github/xtimfie/housinglogs/BlockAuditManager.java:197-207 | true exactly when the key is present; then that area's highlight flips, and the document is saved |
| Manager.BlockAuditManager.GetAreasSnapshot | src/main/java/com/github/xtimfie/housinglogs/BlockAuditManager.java:221-229 | the loop returns every area's snapshot, in order |
| Manager.BlockAuditManager.GetHighlightAreasSnapshot | src/main/java/com/github/xtimfie/housinglogs/BlockAuditManager.java:231-240 | the loop returns the highlighted areas' snapshots, in order |
| Manager.BlockAuditManager.SnapshotMatchingAreas | src/main/java/com/github/xtimfie/housinglogs/BlockAuditManager.java:269-283 | the loop returns `MatchingAreas` |
| Manager.BlockAuditManager.NoteBlockBreakAnim | src/main/java/com/github/xtimfie/housinglogs/BlockAuditManager.java:287-303 | a breaker is recorded, with the time, only while auditing, inside an enabled area, for a finished animation (-1) by a player |
| Manager.BlockAuditManager.NoteBlockChange | src/main/java/com/github/xtimfie/housinglogs/BlockAuditManager.java:315-433 | the log grows by one entry per matching area exactly when auditing is on, the position is in an enabled area, the player is in a housing, and the block really changed; nothing else changes |
| Manager.BlockAuditManager.AreaNames | src/main/java/com/github/xtimfie/housinglogs/BlockAuditManager.java:389-395 | the loop copies the area names in order |
| Manager.BlockAuditManager.LogEntries | src/main/java/com/github/xtimfie/housinglogs/BlockAuditManager.java:412-431 | the loop appends the entries of `Entries`, in order |
| Manager.BlockAuditManager.LoadAreaFromDisk | src/main/java/com/github/xtimfie/housinglogs/BlockAuditManager.java:767-825 | the switch and registry become `LoadDocument` of the document, and the registry stays well formed |
| Manager.BlockAuditManager.ReadLegacy | src/main/java/com/github/xtimfie/housinglogs/BlockAuditManager.java:807-817 | the registry becomes the legacy area |
| Manager.BlockAuditManager.ReadAreas | src/main/java/com/github/xtimfie/housinglogs/BlockAuditManager.java:780-806 | the loop stores each readable element in order and stops at the first that throws |
| Coords.IntGroupText | src/main/java/com/github/xtimfie/housinglogs/ProtoolsAutomation.java:580 | a group `(-?\d+)` captures an optional minus sign and at least one digit, running to the last digit |
| Coords.GapEnd | src/main/java/com/github/xtimfie/housinglogs/ProtoolsAutomation.java:587 | `.{0,24}` covers at most 24 characters, none a line terminator |
| Coords.BackoffFrom | src/main/java/com/github/xtimfie/housinglogs/ProtoolsAutomation.java:587 | the back-tracking over `.{0,24}` reports one of the attempts it made |
| Coords.ParenDecides | src/main/java/com/github/xtimfie/housinglogs/ProtoolsAutomation.java:579-584 | when the `(x, y, z)` pattern matches, its groups decide the result |
| Coords.LabeledDecides | src/main/java/com/github/xtimfie/housinglogs/ProtoolsAutomation.java:586-592 | when only the labelled pattern matches, its groups decide |
| Coords.BareDecides | src/main/java/com/github/xtimfie/housinglogs/ProtoolsAutomation.java:594-600 | when neither earlier pattern matches, the bare `x, y, z` pattern decides |
| Coords.ParenOverflowDecides | src/main/java/com/github/xtimfie/housinglogs/ProtoolsAutomation.java:579-584 | a matched `(x, y, z)` whose number does not fit in an int gives no position: the later patterns are never tried |
| Coords.OverflowHidesRest | src/main/java/com/github/xtimfie/housinglogs/ProtoolsAutomation.java:572-613 | "(n, y, z)" with n above Integer.MAX_VALUE gives no position, whatever follows it on the line |
| Coords.ParenRoundTrip | src/main/java/com/github/xtimfie/housinglogs/ProtoolsAutomation.java:579-584 | a position written as `(x, y, z)` reads back as itself |
| Coords.LabeledRoundTrip | src/main/java/com/github/xtimfie/housinglogs/ProtoolsAutomation.java:586-592 | a position written as `x: 1 y: 2 z: 3`, in either letter case, reads back as itself |
| Coords.BareRoundTrip | src/main/java/com/github/xtimfie/housinglogs/ProtoolsAutomation.java:594-600 | a position written as `x, y, z` reads back as itself, through the third pattern |
| Workflow.NewJob | src/main/java/com/github/xtimfie/housinglogs/ProtoolsAutomation.java:62-100 | a new job starts at step 0, with no wait, nothing pending and three retries per corner, and keeps the invariant |
| Workflow.TpCenter | src/main/java/com/github/xtimfie/housinglogs/ProtoolsAutomation.java:627-634 | the teleport goes to x + 0.5, y, z + 0.5, each written with three decimals |
| Workflow.HalfTextValue | src/main/java/com/github/xtimfie/housinglogs/ProtoolsAutomation.java:627-633 | the "%.3f" text of `v + 0.5` reads back as exactly `v + 0.5`, and is negative exactly when v is |
| Workflow.WholeTextValue | src/main/java/com/github/xtimfie/housinglogs/ProtoolsAutomation.java:627-633 | the "%.3f" text of the height `v` reads back as exactly `v` |
| Workflow.BeginConfirm | src/main/java/com/github/xtimfie/housinglogs/ProtoolsAutomation.java:501-507 | 40 ticks to confirm the pending corner, both flags cleared, the player's block recorded; nothing else changes |
| Workflow.ResetConfirm | src/main/java/com/github/xtimfie/housinglogs/ProtoolsAutomation.java:509-515 | nothing pending, no countdown, flags and recorded block cleared; nothing else changes |
| Workflow.TickConfirm | src/main/java/com/github/xtimfie/housinglogs/ProtoolsAutomation.java:520-548 | confirmed exactly when the chat confirmed it, or, with no chat mismatch, when the countdown runs out with the player recorded on the expected block; a confirmation resets the state |
| Workflow.ConfirmStep | src/main/java/com/github/xtimfie/housinglogs/ProtoolsAutomation.java:384-404 | a confirmed corner moves on after 10 ticks; a failed one is retried after 12 ticks while retries last, and otherwise ends the job (the same for the second corner at lines 436-454) |
| Workflow.EditCommand | src/main/java/com/github/xtimfie/housinglogs/ProtoolsAutomation.java:456-462 | `//fill <id>` for a fill job, `//set <id>` otherwise |
| Workflow.Advance | src/main/java/com/github/xtimfie/housinglogs/ProtoolsAutomation.java:352-499 | at most one command per step; an unknown step ends the job; a surviving job is at a known step |
| Workflow.Tick | src/main/java/com/github/xtimfie/housinglogs/ProtoolsAutomation.java:287-317 | a command goes out only for a job with the player present, no wait pending and no fault; no player means no job |
| Workflow.MentionsCorner | src/main/java/com/github/xtimfie/housinglogs/ProtoolsAutomation.java:335-337 | the lower-cased message contains "pos1", "first position" or "position 1" (the same for the second corner) |
| Workflow.Chat | src/main/java/com/github/xtimfie/housinglogs/ProtoolsAutomation.java:319-350 | only the two confirmation flags can change, and only for a non-empty message naming the pending corner with readable coordinates: equal coordinates confirm, others mark a mismatch |
| Workflow.StepKeepsInv | src/main/java/com/github/xtimfie/housinglogs/ProtoolsAutomation.java:287-350 | every tick and chat message keeps the job invariant: known step, bounded counters, and the pending corner matching the step |
| Workflow.RunKeepsInv | src/main/java/com/github/xtimfie/housinglogs/ProtoolsAutomation.java:287-499 | any sequence of events keeps the invariant |
| Workflow.StepRetries | src/main/java/com/github/xtimfie/housinglogs/ProtoolsAutomation.java:393-397 | an event never raises a retry counter, and a retry spends exactly one |
| Workflow.RetriesBounded | src/main/java/com/github/xtimfie/housinglogs/ProtoolsAutomation.java:384-454 | a corner is retried at most as often as its counter allows, whatever happens |
| Workflow.AtMostThreeRetries | src/main/java/com/github/xtimfie/housinglogs/ProtoolsAutomation.java:35 | a new job retries each corner at most three times |
| Workflow.ConfirmFailure | src/main/java/com/github/xtimfie/housinglogs/ProtoolsAutomation.java:391-402 | a failed confirmation ends the job exactly when no retries are left; otherwise the corner restarts after 12 ticks |
| Workflow.WaitOnly | src/main/java/com/github/xtimfie/housinglogs/ProtoolsAutomation.java:306-309 | while a wait is pending, ticks only count it down, whatever else they report |
| Workflow.ArrivalWithin | src/main/java/com/github/xtimfie/housinglogs/ProtoolsAutomation.java:364-373 | the arrival wait ends within 120 ticks of the teleport, however far away the player is |
| Workflow.Countdown | src/main/java/com/github/xtimfie/housinglogs/ProtoolsAutomation.java:530-540 | before the countdown is over, ticks only count it down |
| Workflow.LastCount | src/main/java/com/github/xtimfie/housinglogs/ProtoolsAutomation.java:536-547 | on the last tick of the countdown, the block recorded when `//pos` was sent decides |
| Workflow.ConfirmWithin | src/main/java/com/github/xtimfie/housinglogs/ProtoolsAutomation.java:520-548 | with no chat confirmation, a confirm step resolves exactly when its countdown runs out; it moves on exactly when the recorded block is the expected corner |
| Workflow.CornerDone | src/main/java/com/github/xtimfie/housinglogs/ProtoolsAutomation.java:354-404 | one corner takes 54 steady ticks: the teleport, `//pos`, the 40-tick confirmation and the 10-tick pause |
| Workflow.Finish | src/main/java/com/github/xtimfie/housinglogs/ProtoolsAutomation.java:456-493 | the last 42 steady ticks send the edit, the return teleport and `//desel`, and end the job |
| Workflow.SuccessPath | src/main/java/com/github/xtimfie/housinglogs/ProtoolsAutomation.java:352-499 | a job with the player standing on each corner sends exactly: teleport, `//pos1`, teleport, `//pos2`, the edit, the return teleport, `//desel`, and then ends |
| Workflow.UnknownStepClears | src/main/java/com/github/xtimfie/housinglogs/ProtoolsAutomation.java:495-497 | an unknown step ends the job and sends nothing |
| Automation.Job.constructor | src/main/java/com/github/xtimfie/housinglogs/ProtoolsAutomation.java:74-99 | the object's value is `NewJob` |
| Automation.Job.BeginConfirm | src/main/java/com/github/xtimfie/housinglogs/ProtoolsAutomation.java:501-507 | the fields become `Workflow.BeginConfirm` of the old ones |
| Automation.Job.ResetConfirm | src/main/java/com/github/xtimfie/housinglogs/ProtoolsAutomation.java:509-515 | the fields become `Workflow.ResetConfirm` of the old ones |
| Automation.Job.TickConfirm | src/main/java/com/github/xtimfie/housinglogs/ProtoolsAutomation.java:520-548 | the answer and the new fields are `Workflow.TickConfirm` of the old ones |
| Automation.ProtoolsAutomation.constructor | src/main/java/com/github/xtimfie/housinglogs/ProtoolsAutomation.java:46-49 | no job and nothing sent |
| Automation.ProtoolsAutomation.StartSetBlockJob | src/main/java/com/github/xtimfie/housinglogs/ProtoolsAutomation.java:227-256 | starts exactly when a player is present and no job runs; the new job has one block as both corners and the set operation; otherwise nothing changes |
| Automation.ProtoolsAutomation.StartFillBlocksJob | src/main/java/com/github/xtimfie/housinglogs/ProtoolsAutomation.java:258-285 | the same, with two corners and the fill operation |
| Automation.ProtoolsAutomation.Send | src/main/java/com/github/xtimfie/housinglogs/ProtoolsAutomation.java:615-618 | one command is appended to what was sent |
| Automation.ProtoolsAutomation.Fail | src/main/java/com/github/xtimfie/housinglogs/ProtoolsAutomation.java:620-625 | the job is dropped |
| Automation.ProtoolsAutomation.OnClientTick | src/main/java/com/github/xtimfie/housinglogs/ProtoolsAutomation.java:287-317 | the job and the commands sent follow `Workflow.Tick`, and the invariant is kept |
| Automation.ProtoolsAutomation.Advance | src/main/java/com/github/xtimfie/housinglogs/ProtoolsAutomation.java:352-499 | the job and the commands sent follow `Workflow.Advance` |
| Automation.ProtoolsAutomation.ConfirmCorner | src/main/java/com/github/xtimfie/housinglogs/ProtoolsAutomation.java:384-454 | the job and the commands sent follow `Workflow.ConfirmStep` |
| Automation.ProtoolsAutomation.OnChatReceived | src/main/java/com/github/xtimfie/housinglogs/ProtoolsAutomation.java:319-350 | the job follows `Workflow.Chat`, and the invariant is kept |
| Commands.Corners | src/main/java/com/github/xtimfie/housinglogs/CommandBlockAudit.java:42-47 | the corners are read exactly when all six coordinates are ints, and each coordinate is the value of its argument |
| Commands.AddRequest | src/main/java/com/github/xtimfie/housinglogs/CommandBlockAudit.java:40-54 | an `add` of the right length adds exactly when the corners are ints (otherwise "Coordinates must be integers"), under the name given, in the given colour or opaque yellow |
| Commands.ParseRequest | src/main/java/com/github/xtimfie/housinglogs/CommandBlockAudit.java:26-145 | every sub-command, matched after lower-casing, takes exactly its argument counts; wrong counts give that sub-command's usage line, and an unknown sub-command or no arguments give the general one |
| Commands.ProcessCommand | src/main/java/com/github/xtimfie/housinglogs/CommandBlockAudit.java:26-145 | the answer, the registry, the switch, the saved document and the recorded breakers are those the parsed request calls for |
| Commands.Perform | src/main/java/com/github/xtimfie/housinglogs/CommandBlockAudit.java:33-144 | each request makes its one registry call; usage, list and path change nothing |
| Commands.Edit | src/main/java/com/github/xtimfie/housinglogs/CommandBlockAudit.java:34-131 | add, clear, remove, on/off and highlight answer from the registry call's result, and change the registry as that call does |
| Commands.CornersRoundTrip | src/main/java/com/github/xtimfie/housinglogs/CommandBlockAudit.java:42-47 | coordinates typed as `Integer.toString` writes them read back as the corners |
| Commands.AddLineRoundTrip | src/main/java/com/github/xtimfie/housinglogs/CommandBlockAudit.java:34-54 | an `add` line with the corners in decimal and the colour as `toHexRgba` prints it reads back as the same request |
| Commands.CommandLineRoundTrip | src/main/java/com/github/xtimfie/housinglogs/CommandBlockAudit.java:26-145 | every request a command line can carry is read back from its printed command line, so a colour shown by `list` (lines 84-96) and typed into `add` is the same colour |
| Commands.AddDefaultColor | src/main/java/com/github/xtimfie/housinglogs/CommandBlockAudit.java:49-52 | without a colour argument, `add` uses opaque yellow #FFFF00FF |
| Commands.SubcommandIgnoresCase | src/main/java/com/github/xtimfie/housinglogs/CommandBlockAudit.java:32 | the sub-command is matched ignoring the case of its letters |
| Commands.AppliedValid | src/main/java/com/github/xtimfie/housinglogs/CommandBlockAudit.java:33-144 | every command keeps the registry well formed |
| Commands.AddThenList | src/main/java/com/github/xtimfie/housinglogs/CommandBlockAudit.java:54-96 | after a successful `add`, `list` shows an area under the trimmed name, in the given colour, spanning the corners in either order |
| Commands.RemoveThenList | src/main/java/com/github/xtimfie/housinglogs/CommandBlockAudit.java:73-96 | after `remove`, `list` shows no area whose name shares the removed name's key |
| Commands.ToggleTwice | src/main/java/com/github/xtimfie/housinglogs/CommandBlockAudit.java:110-118 | `highlight <name>` twice gives back the registry |

## Left out

- Floating point. Two things that compute in doubles are inputs of the model rather than modelled: `isNearTarget` and `getPlayerBlockPos` (src/main/java/com/github/xtimfie/housinglogs/ProtoolsAutomation.java:550-570), and the placement and break heuristic (`snapshotPlacementCandidates`, `snapshotNearbyPlayers`, `guessActorFromCandidates`). The heuristic's guess and the nearby players' distances are given as parameters.
- The return teleport's coordinates are `formatCoord` of doubles. They are carried as one opaque "x y z" string fixed when the job starts.
- The best-effort client-side rotation restore at step 7 (src/main/java/com/github/xtimfie/housinglogs/ProtoolsAutomation.java:470-472), which sets the player's yaw and pitch back to those stored when the job started, is not modelled: it changes the game client's camera, not the job or the commands sent.
- Input freezing and motion reset (`freezeMovementInputs`, `setPressed`) are not modelled.
- File I/O, the background executor and locking are not modelled: `saveAreaToDiskAsync` produces the document as a value, and `appendLogLine` appends the entry to a sequence.
  - `ensureLogFilesExistAsync` and the file getters (`getAreaFile`, `getJsonlLogFile`, `getTextLogFile`) only touch files, so they are not modelled.
  - Gson's JSON text, and the "HH:mm:ss" time format, are parameters of the text line.
- Chat feedback texts, colours and the `[HousingLogs]` prefixes are reduced to the `Reply` datatype. The `path` sub-command's absolute file paths are not modelled.
- `HousingContext.isInHousing`, the current dimension and the clock are inputs.
- `isEnabled`, `hasAnyArea` and `hasAnyEnabledArea` are field reads. They only decide whether log files are touched, so they are not modelled.
- The registration classes `CommandProtoSetBlock` and `CommandProtoFillBlocks` are not modelled (src/main/java/com/github/xtimfie/housinglogs/ProtoolsAutomation.java:108-225). The jobs they start are modelled through `StartSetBlockJob` and `StartFillBlocksJob`.
  - Likewise the mod's initialisation, the highlight renderer and the mixins that call into the registry.
- `onClientTick` is modelled for the END phase only: the START phase returns at once.
  - An exception inside `advance` is modelled as a `fault` flag on the tick. It ends the job before any command of that tick is sent.
- Json.AsReal: a JSON string gives None, where Gson's `getAsDouble` would call `Double.parseDouble` on it. The only reader is the nearby list of the text line, and the entries the audit writes always hold a number under "dist" (src/main/java/com/github/xtimfie/housinglogs/BlockAuditManager.java:424).
- Case folding: `toLowerCase` and the regex's CASE_INSENSITIVE flag are modelled for the ASCII letters only. `String.trim` is modelled exactly.
- JavaText.ParseIntegral: digits are the ASCII ones. `Character.digit` also accepts every other Unicode decimal digit and the fullwidth Latin letters, so a coordinate such as "١" or a colour group in fullwidth letters, which Java reads, is rejected by the model.
- Color.RejectsNonHex: "hex digit" means an ASCII one, for the reason given for JavaText.ParseIntegral; a colour written with other Unicode digits falls back in the model but parses in Java.
- Commands.Corners: coordinates are read with ASCII digits only, for the same reason.
- Local chat messages of the automation ("Executed //pos1", "//pos1 confirmed at target", "Retrying pos1 (n left)...", the same for pos2, "Done.", the `fail` reasons, and "Automation failed: " with the error class on a fault) are not modelled: they go to the player's own chat window, not to the server. The modelled effects are the commands sent, and the job being kept or dropped.
- Manager.BlockAuditManager.NoteBlockChange: takes one `now` for both clock reads. The code reads `System.currentTimeMillis()` once for the 2500 ms window test and again for the entry's `tsMs`; the model gives both the same value.
- The comment above the bare coordinate fallback says the message must contain "pos"; the code does not check it. The model follows the code.
- Counters are unbounded integers. 32-bit wrap-around of `step`, `waitTicks` and the other job counters cannot occur, because the job invariant keeps them between 0 and 120.
