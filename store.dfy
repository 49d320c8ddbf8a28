/**
 * The registry's `LinkedHashMap<String, Area>` as a value: the keys in insertion order and
 * the area filed under each. Putting an existing key replaces its area in place; putting a
 * new key appends it; removing a key keeps the others in their order.
 */
module AreaStore {
  import opened Wrappers
  import opened JavaText
  import opened Areas

  datatype Store = Store(order: seq<string>, areas: map<string, Area>)

  /** No key is listed twice. */
  predicate Unique(order: seq<string>) {
    forall i, j :: 0 <= i < j < |order| ==> order[i] != order[j]
  }

  /** The listed keys are exactly the keys of the map. */
  predicate Listed(s: Store) {
    (forall k :: k in s.order ==> k in s.areas) && (forall k :: k in s.areas ==> k in s.order)
  }

  /** The area under `k`, if any, carries `k` as its key, and `k` is its name's key. */
  predicate KeyedAt(areas: map<string, Area>, k: string) {
    k in areas ==> areas[k].key == k && NormalizeKey(areas[k].name) == k
  }

  /** Every area sits under the key of its own name. */
  ghost predicate Keyed(areas: map<string, Area>) {
    forall k :: KeyedAt(areas, k)
  }

  /** Keys are unique, listed exactly once each, and every area sits under the key of its own name. */
  ghost predicate Valid(s: Store) {
    Unique(s.order) && Listed(s) && Keyed(s.areas)
  }

  const Empty: Store := Store([], map[])

  /** `put(a.key, a)`. */
  function Put(s: Store, a: Area): (r: Store)
    ensures a.key in r.areas && r.areas[a.key] == a
    ensures forall k :: k != a.key ==> (k in r.areas <==> k in s.areas) && (k in s.areas ==> r.areas[k] == s.areas[k])
    ensures a.key in s.areas ==> r.order == s.order
    ensures a.key !in s.areas ==> r.order == s.order + [a.key]
  {
    Store(if a.key in s.areas then s.order else s.order + [a.key], s.areas[a.key := a])
  }

  /** The order with one key taken out, the rest kept in place. */
  function Without(order: seq<string>, key: string): (r: seq<string>)
    ensures forall k :: k in r <==> k in order && k != key
    ensures |r| <= |order|
  {
    if |order| == 0 then []
    else if order[0] == key then Without(order[1..], key)
    else [order[0]] + Without(order[1..], key)
  }

  /** `remove(key)`. */
  function Remove(s: Store, key: string): (r: Store)
    ensures key !in r.areas
    ensures forall k :: k != key ==> (k in r.areas <==> k in s.areas) && (k in s.areas ==> r.areas[k] == s.areas[k])
  {
    Store(Without(s.order, key), s.areas - {key})
  }

  /** `values()`, in iteration order. */
  function Values(s: Store): (vs: seq<Area>)
    requires forall k :: k in s.order ==> k in s.areas
    ensures |vs| == |s.order|
    ensures forall i :: 0 <= i < |s.order| ==> vs[i] == s.areas[s.order[i]]
  {
    seq(|s.order|, i requires 0 <= i < |s.order| => s.areas[s.order[i]])
  }

  /** Putting an area under the key of its own name keeps the store valid. */
  lemma PutValid(s: Store, a: Area)
    requires Valid(s) && NormalizeKey(a.name) == a.key
    ensures Valid(Put(s, a))
  {
    var r := Put(s, a);
    forall k ensures KeyedAt(r.areas, k) {
      if k != a.key && k in r.areas {
        assert r.areas[k] == s.areas[k];
        assert KeyedAt(s.areas, k);
      }
    }
    assert Listed(r);
    if a.key !in s.areas {
      assert a.key !in s.order;
      forall i, j | 0 <= i < j < |r.order| ensures r.order[i] != r.order[j] {
        if j == |s.order| {
          assert r.order[i] == s.order[i];
        } else {
          assert r.order[i] == s.order[i] && r.order[j] == s.order[j];
        }
      }
    }
  }

  lemma {:induction false} WithoutUnique(order: seq<string>, key: string)
    requires Unique(order)
    ensures Unique(Without(order, key))
  {
    if |order| > 0 {
      var tail := order[1..];
      assert Unique(tail) by {
        forall i, j | 0 <= i < j < |tail| ensures tail[i] != tail[j] {
          assert tail[i] == order[i + 1] && tail[j] == order[j + 1];
        }
      }
      WithoutUnique(tail, key);
      var rest := Without(tail, key);
      if order[0] != key {
        assert order[0] !in tail by {
          forall m | 0 <= m < |tail| ensures tail[m] != order[0] {
            assert tail[m] == order[m + 1];
          }
        }
        var r := [order[0]] + rest;
        assert Without(order, key) == r;
        forall i, j | 0 <= i < j < |r| ensures r[i] != r[j] {
          assert r[j] == rest[j - 1];
          if i == 0 {
            assert r[j] in rest;
          } else {
            assert r[i] == rest[i - 1];
          }
        }
      }
    }
  }

  /** Removing a key keeps the store valid. */
  lemma RemoveValid(s: Store, key: string)
    requires Valid(s)
    ensures Valid(Remove(s, key))
  {
    WithoutUnique(s.order, key);
    var r := Remove(s, key);
    forall k ensures KeyedAt(r.areas, k) {
      assert KeyedAt(s.areas, k);
    }
  }

  /** Removing a key that is not there changes nothing, not even the order. */
  lemma {:induction false} WithoutAbsent(order: seq<string>, key: string)
    requires key !in order
    ensures Without(order, key) == order
  {
    if |order| > 0 {
      WithoutAbsent(order[1..], key);
      assert order == [order[0]] + order[1..];
    }
  }

  /** Re-putting a present key keeps every key where it was and every other area as it was. */
  lemma PutExistingKeepsOrder(s: Store, a: Area)
    requires Valid(s) && a.key in s.areas
    ensures Values(Put(s, a)) == Values(s)[IndexOf(s.order, a.key) := a]
  {
  }

  /** Where a listed key sits in the order. */
  function IndexOf(order: seq<string>, key: string): (i: nat)
    requires key in order
    ensures i < |order| && order[i] == key
  {
    if order[0] == key then 0 else 1 + IndexOf(order[1..], key)
  }

  // ---------------------------------------------------------------- operations on values

  /**
   * The area `addOrUpdateArea` stores for a name whose trim is not empty: filed under the
   * trimmed name's key, spanning the two corners, keeping the flags of an area already
   * under that key (a new one is enabled and not highlighted).
   */
  function Upserted(s: Store, name: string, a: BlockPos, b: BlockPos, color: bv32): (r: Area)
    requires Trim(name) != []
    ensures r.key == NormalizeKey(Trim(name)) && r.name == Trim(name) && r.color == color
  {
    var trimmed := Trim(name);
    var key := NormalizeKey(trimmed);
    var enabled := key !in s.areas || s.areas[key].enabled;
    var highlight := key in s.areas && s.areas[key].highlight;
    Area(key, trimmed, LowCorner(a, b), HighCorner(a, b), color, enabled, highlight)
  }

  /**
   * Upserting keeps the store valid and files the area under the name's key, spanning the
   * corners in either order. A new key is appended enabled and not highlighted; an existing
   * key keeps its place and its flags; every other key keeps its area.
   */
  lemma UpsertFacts(s: Store, name: string, a: BlockPos, b: BlockPos, color: bv32)
    requires Valid(s) && Trim(name) != []
    ensures var key := NormalizeKey(name);
            var r := Put(s, Upserted(s, name, a, b, color));
            Valid(r) && key in r.areas
            && r.areas[key].name == Trim(name) && r.areas[key].color == color
            && r.areas[key].min == LowCorner(a, b) && r.areas[key].max == HighCorner(a, b)
            && Ordered(r.areas[key])
            && (key !in s.areas ==> r.order == s.order + [key] && r.areas[key].enabled && !r.areas[key].highlight)
            && (key in s.areas ==> r.order == s.order && r.areas[key].enabled == s.areas[key].enabled
                                   && r.areas[key].highlight == s.areas[key].highlight)
            && (forall k :: k in s.areas && k != key ==> k in r.areas && r.areas[k] == s.areas[k])
  {
    NormalizeKeyStable(name);
    var area := Upserted(s, name, a, b, color);
    assert NormalizeKey(area.name) == area.key;
    PutValid(s, area);
    SpannedBox(area.key, area.name, a, b, color, area.enabled, area.highlight, a);
  }

  /** The area under `key` with its highlight flag set to `highlight`, everything else kept. */
  function WithHighlight(s: Store, key: string, highlight: bool): (r: Store)
    requires key in s.areas
    ensures r.order == s.order && r.areas.Keys == s.areas.Keys
    ensures r.areas[key] == s.areas[key].(highlight := highlight)
    ensures forall k :: k in s.areas && k != key ==> r.areas[k] == s.areas[k]
  {
    Store(s.order, s.areas[key := s.areas[key].(highlight := highlight)])
  }

  /** Setting a highlight keeps the store valid. */
  lemma HighlightValid(s: Store, key: string, highlight: bool)
    requires Valid(s) && key in s.areas
    ensures Valid(WithHighlight(s, key, highlight))
  {
    var r := WithHighlight(s, key, highlight);
    assert r.order == s.order && r.areas.Keys == s.areas.Keys;
    assert Unique(r.order);
    assert Listed(r);
    forall k ensures KeyedAt(r.areas, k) {
      assert KeyedAt(s.areas, k);
      if k == key {
        assert r.areas[k].name == s.areas[key].name;
      } else if k in r.areas {
        assert r.areas[k] == s.areas[k];
      }
    }
  }

  /** Setting the old highlight back restores the store. */
  lemma HighlightRestores(s: Store, key: string, highlight: bool)
    requires key in s.areas
    ensures WithHighlight(WithHighlight(s, key, highlight), key, s.areas[key].highlight) == s
  {
    var r := WithHighlight(WithHighlight(s, key, highlight), key, s.areas[key].highlight);
    assert r.areas == s.areas;
  }

  /** The enabled areas containing `pos`, in order. */
  function Matching(vs: seq<Area>, pos: BlockPos): (m: seq<Area>)
    ensures |m| <= |vs|
    ensures forall a :: a in m ==> a in vs && a.enabled && Contains(a, pos)
  {
    if |vs| == 0 then []
    else
      var last := vs[|vs| - 1];
      Matching(vs[..|vs| - 1], pos) + (if last.enabled && Contains(last, pos) then [last] else [])
  }

  /** Every enabled area containing the position is among the matches. */
  lemma {:induction false} MatchingComplete(vs: seq<Area>, pos: BlockPos, i: nat)
    requires i < |vs| && vs[i].enabled && Contains(vs[i], pos)
    ensures vs[i] in Matching(vs, pos)
    decreases |vs|
  {
    if i < |vs| - 1 {
      assert vs[..|vs| - 1][i] == vs[i];
      MatchingComplete(vs[..|vs| - 1], pos, i);
    }
  }

  /** Extending the scanned prefix by one area adds it to the matches exactly when it is enabled and contains the position. */
  lemma MatchingStep(vs: seq<Area>, pos: BlockPos, i: nat)
    requires i < |vs|
    ensures Matching(vs[..i + 1], pos)
         == Matching(vs[..i], pos) + (if vs[i].enabled && Contains(vs[i], pos) then [vs[i]] else [])
  {
    assert vs[..i + 1][..i] == vs[..i];
  }

  /** `snapshotMatchingAreas`: None for an empty registry and when nothing matches. */
  function MatchingAreas(s: Store, pos: BlockPos): (r: Option<seq<Area>>)
    requires Listed(s)
    ensures r.Some? ==> |r.value| > 0
  {
    if |s.order| == 0 then None
    else
      var m := Matching(Values(s), pos);
      if |m| == 0 then None else Some(m)
  }

  /** `getAreasSnapshot`: every area, in order. */
  function Snapshots(vs: seq<Area>): (out: seq<AreaSnapshot>)
    ensures |out| == |vs|
    ensures forall i :: 0 <= i < |vs| ==> out[i] == Snapshot(vs[i])
  {
    seq(|vs|, i requires 0 <= i < |vs| => Snapshot(vs[i]))
  }

  /** `getHighlightAreasSnapshot`: the highlighted areas, in order. */
  function Highlighted(vs: seq<Area>): (out: seq<AreaSnapshot>)
    ensures |out| <= |vs|
    ensures forall x :: x in out ==> x.highlight
  {
    if |vs| == 0 then []
    else
      var last := vs[|vs| - 1];
      Highlighted(vs[..|vs| - 1]) + (if last.highlight then [Snapshot(last)] else [])
  }

  /** Every snapshot in the highlight list is the snapshot of one of the areas. */
  lemma {:induction false} HighlightedSound(vs: seq<Area>, x: AreaSnapshot)
    requires x in Highlighted(vs)
    ensures exists a :: a in vs && Snapshot(a) == x
    decreases |vs|
  {
    var last := vs[|vs| - 1];
    if x in Highlighted(vs[..|vs| - 1]) {
      HighlightedSound(vs[..|vs| - 1], x);
      var a :| a in vs[..|vs| - 1] && Snapshot(a) == x;
      assert a in vs;
    } else {
      assert Snapshot(last) == x;
    }
  }

  /** Extending the scanned prefix by one area adds its snapshot exactly when it is highlighted. */
  lemma HighlightedStep(vs: seq<Area>, i: nat)
    requires i < |vs|
    ensures Highlighted(vs[..i + 1]) == Highlighted(vs[..i]) + (if vs[i].highlight then [Snapshot(vs[i])] else [])
  {
    assert vs[..i + 1][..i] == vs[..i];
  }

  /** Every highlighted area shows up in the highlight snapshot. */
  lemma {:induction false} HighlightedComplete(vs: seq<Area>, i: nat)
    requires i < |vs| && vs[i].highlight
    ensures Snapshot(vs[i]) in Highlighted(vs)
    decreases |vs|
  {
    if i < |vs| - 1 {
      assert vs[..|vs| - 1][i] == vs[i];
      HighlightedComplete(vs[..|vs| - 1], i);
    }
  }

  /** The area names, in order. */
  function Names(vs: seq<Area>): (ns: seq<string>)
    ensures |ns| == |vs|
    ensures forall i :: 0 <= i < |vs| ==> ns[i] == vs[i].name
  {
    seq(|vs|, i requires 0 <= i < |vs| => vs[i].name)
  }
}
