/** Collecting the settings of a legacy configuration for a proposal
    (`collect_migration_settings` in `src/tfr/gateway_migration.py`). */
module MigrationCollection {
  import opened Wrappers
  import opened Sequences
  import opened Configuration
  import opened Migration

  // Plugin configuration objects are flattened down to their topmost known keys, and what is
  // collected is sorted by key.

  /** A legacy value, and the items of one that is an object. */
  datatype Legacy = Plain(value: Value) | Dictionary(value: Value, items: seq<(Name, Legacy)>)

  /** What collecting depends on: the key whose object is flattened, the key of a name below
      another key, and the sorted order of keys. */
  datatype Collecting = Collecting(rules: Rules, pluginsKey: Key, below: (Key, Name) -> Key, position: Key -> real) {
    predicate Known(k: Key) { rules.registry.setting(k).Some? }

    ghost predicate Proper() { forall j, k :: position(j) == position(k) ==> j == k }
  }

  datatype CollectionError = TooManySettings

  // ------------------------------------------------------------------------ flattening

  /** What flattening assigns, in order. */
  function Flattened(c: Collecting, prefix: Key, v: Legacy): seq<(Key, Value)>
    decreases v, 1
  {
    if c.Known(prefix) then [(prefix, v.value)]
    else if v.Dictionary? then FlattenedItems(c, prefix, v, |v.items|)
    else []
  }

  /** The same for the first `n` items of an object. */
  function FlattenedItems(c: Collecting, prefix: Key, v: Legacy, n: nat): seq<(Key, Value)>
    requires v.Dictionary? && n <= |v.items|
    decreases v, 0, n
  {
    if n == 0 then []
    else FlattenedItems(c, prefix, v, n - 1) + Flattened(c, c.below(prefix, v.items[n - 1].0), v.items[n - 1].1)
  }

  /** `end` is where the names lead through objects. */
  ghost predicate Leads(v: Legacy, path: seq<Name>, end: Legacy)
    decreases |path|
  {
    if path == [] then end == v
    else v.Dictionary? && exists i :: 0 <= i < |v.items| && v.items[i].0 == path[0] && Leads(v.items[i].1, path[1..], end)
  }

  function KeyAt(c: Collecting, prefix: Key, path: seq<Name>): Key
    decreases |path|
  {
    if path == [] then prefix else KeyAt(c, c.below(prefix, path[0]), path[1..])
  }

  /** The key at the end of the path is known, and none on the way is. */
  ghost predicate Topmost(c: Collecting, prefix: Key, path: seq<Name>) {
    c.Known(KeyAt(c, prefix, path)) && forall n :: 0 <= n < |path| ==> !c.Known(KeyAt(c, prefix, path[..n]))
  }

  ghost predicate Found(c: Collecting, prefix: Key, v: Legacy, path: seq<Name>, end: Legacy, x: (Key, Value)) {
    Leads(v, path, end) && Topmost(c, prefix, path) && x == (KeyAt(c, prefix, path), end.value)
  }

  /** Some path leads to the value under a topmost known key. */
  ghost predicate Reachable(c: Collecting, prefix: Key, v: Legacy, x: (Key, Value)) {
    exists path, end :: Found(c, prefix, v, path, end, x)
  }

  lemma {:induction false} TopmostBelow(c: Collecting, prefix: Key, path: seq<Name>)
    requires path != []
    ensures Topmost(c, prefix, path) <==> !c.Known(prefix) && Topmost(c, c.below(prefix, path[0]), path[1..])
  {
    var next, rest := c.below(prefix, path[0]), path[1..];
    forall n: nat | n < |rest| ensures KeyAt(c, prefix, path[..n + 1]) == KeyAt(c, next, rest[..n]) {
      assert path[..n + 1][1..] == rest[..n];
    }
    assert path[..0] == [];
    if Topmost(c, prefix, path) {
      assert !c.Known(KeyAt(c, prefix, path[..0]));
      forall n: nat | n < |rest| ensures !c.Known(KeyAt(c, next, rest[..n])) {
        assert !c.Known(KeyAt(c, prefix, path[..n + 1]));
      }
    }
    if !c.Known(prefix) && Topmost(c, next, rest) {
      forall n: nat | n < |path| ensures !c.Known(KeyAt(c, prefix, path[..n])) {
        if n > 0 {
          assert KeyAt(c, prefix, path[..n - 1 + 1]) == KeyAt(c, next, rest[..n - 1]);
        }
      }
    }
  }

  lemma {:induction false} ReachableHere(c: Collecting, prefix: Key, v: Legacy, x: (Key, Value))
    requires c.Known(prefix)
    ensures Reachable(c, prefix, v, x) <==> x == (prefix, v.value)
  {
    assert Topmost(c, prefix, []) && Leads(v, [], v);
    if x == (prefix, v.value) {
      assert Found(c, prefix, v, [], v, x);
    }
    forall path, end | Found(c, prefix, v, path, end, x) ensures path == [] {
      if path != [] {
        TopmostBelow(c, prefix, path);
      }
    }
  }

  lemma {:induction false} ReachableBelow(c: Collecting, prefix: Key, v: Legacy, x: (Key, Value))
    requires !c.Known(prefix)
    ensures Reachable(c, prefix, v, x) <==>
      v.Dictionary? && exists i :: 0 <= i < |v.items| && Reachable(c, c.below(prefix, v.items[i].0), v.items[i].1, x)
  {
    if Reachable(c, prefix, v, x) {
      var path, end :| Found(c, prefix, v, path, end, x);
      TopmostBelow(c, prefix, path);
      hide Topmost;
      var i :| 0 <= i < |v.items| && v.items[i].0 == path[0] && Leads(v.items[i].1, path[1..], end);
      assert Found(c, c.below(prefix, v.items[i].0), v.items[i].1, path[1..], end, x);
    }
    if i :| v.Dictionary? && 0 <= i < |v.items| && Reachable(c, c.below(prefix, v.items[i].0), v.items[i].1, x) {
      var next := c.below(prefix, v.items[i].0);
      var rest, end :| Found(c, next, v.items[i].1, rest, end, x);
      var path := [v.items[i].0] + rest;
      assert path[1..] == rest;
      TopmostBelow(c, prefix, path);
      hide Topmost;
      assert Found(c, prefix, v, path, end, x);
    }
  }

  /** Flattening assigns exactly the values that stand under a topmost known key. */
  lemma {:induction false} FlattenedIs(c: Collecting, prefix: Key, v: Legacy, x: (Key, Value))
    ensures x in Flattened(c, prefix, v) <==> Reachable(c, prefix, v, x)
    decreases v, 1
  {
    hide Reachable;
    if c.Known(prefix) {
      ReachableHere(c, prefix, v, x);
    } else {
      ReachableBelow(c, prefix, v, x);
      if v.Dictionary? {
        FlattenedItemsAre(c, prefix, v, |v.items|, x);
      }
    }
  }

  lemma {:induction false} FlattenedItemsAre(c: Collecting, prefix: Key, v: Legacy, n: nat, x: (Key, Value))
    requires v.Dictionary? && n <= |v.items|
    ensures x in FlattenedItems(c, prefix, v, n) <==>
      exists i :: 0 <= i < n && Reachable(c, c.below(prefix, v.items[i].0), v.items[i].1, x)
    decreases v, 0, n
  {
    hide Reachable, Flattened;
    if n > 0 {
      FlattenedItemsAre(c, prefix, v, n - 1, x);
      FlattenedIs(c, c.below(prefix, v.items[n - 1].0), v.items[n - 1].1, x);
    }
  }

  // --------------------------------------------------------------- the expanded settings

  /** Assignments to a dictionary: the last one to a key stays. */
  function Assigned(output: map<Key, Value>, assignments: seq<(Key, Value)>): map<Key, Value> {
    if assignments == [] then output
    else
      var last := assignments[|assignments| - 1];
      Assigned(output, assignments[..|assignments| - 1])[last.0 := last.1]
  }

  lemma {:induction false} AssignedAppend(output: map<Key, Value>, a: seq<(Key, Value)>, b: seq<(Key, Value)>)
    ensures Assigned(output, a + b) == Assigned(Assigned(output, a), b)
  {
    if b == [] {
      assert a + b == a;
    } else {
      AssignedAppend(output, a, b[..|b| - 1]);
      assert (a + b)[..|a + b| - 1] == a + b[..|b| - 1];
    }
  }

  /** What one legacy entry assigns: only the plugins' object is flattened. */
  function Expansion(c: Collecting, key: Key, v: Legacy): seq<(Key, Value)> {
    if key == c.pluginsKey && v.Dictionary? then FlattenedItems(c, key, v, |v.items|) else [(key, v.value)]
  }

  function Expansions(c: Collecting, values: seq<(Key, Legacy)>): seq<(Key, Value)> {
    if values == [] then []
    else
      var last := values[|values| - 1];
      Expansions(c, values[..|values| - 1]) + Expansion(c, last.0, last.1)
  }

  /** A dictionary ends with the last assignment to each key, and no other keys. */
  lemma {:induction false} LastAssigned(assignments: seq<(Key, Value)>, i: nat)
    requires i < |assignments| && forall j :: i < j < |assignments| ==> assignments[j].0 != assignments[i].0
    ensures var d := Assigned(map[], assignments); assignments[i].0 in d && d[assignments[i].0] == assignments[i].1
  {
    if i < |assignments| - 1 {
      LastAssigned(assignments[..|assignments| - 1], i);
    }
  }

  lemma {:induction false} OnlyAssigned(assignments: seq<(Key, Value)>, k: Key)
    requires k in Assigned(map[], assignments)
    ensures exists i :: 0 <= i < |assignments| && assignments[i].0 == k
  {
    if assignments[|assignments| - 1].0 != k {
      var init := assignments[..|assignments| - 1];
      OnlyAssigned(init, k);
      var i :| 0 <= i < |init| && init[i].0 == k;
      assert assignments[i] == init[i];
    }
  }

  /** What the legacy entries assign: each its own value, but an object under the plugins' key
      the values under the topmost known keys below it. */
  lemma {:induction false} ExpansionsAre(c: Collecting, values: seq<(Key, Legacy)>, key: Key, v: Legacy, x: (Key, Value))
    ensures Expansions(c, []) == []
    ensures Expansions(c, values + [(key, v)]) == Expansions(c, values) + Expansion(c, key, v)
    ensures x in Expansion(c, key, v) <==>
      if key == c.pluginsKey && v.Dictionary?
      then exists i :: 0 <= i < |v.items| && Reachable(c, c.below(key, v.items[i].0), v.items[i].1, x)
      else x == (key, v.value)
    ensures !(key == c.pluginsKey && v.Dictionary?) ==> Expansion(c, key, v) == [(key, v.value)]
  {
    assert (values + [(key, v)])[..|values|] == values;
    if v.Dictionary? {
      FlattenedItemsAre(c, key, v, |v.items|, x);
    }
    hide Reachable, FlattenedItems;
  }

  /** `_flatten_plugin_config`. */
  method FlattenPluginConfig(c: Collecting, output: map<Key, Value>, prefix: Key, v: Legacy) returns (r: map<Key, Value>)
    ensures r == Assigned(output, Flattened(c, prefix, v))
    decreases v, 1
  {
    if c.Known(prefix) {
      assert [(prefix, v.value)][..0] == [];
      return output[prefix := v.value];
    }
    r := output;
    if v.Dictionary? {
      r := FlattenItems(c, output, prefix, v);
    }
  }

  method FlattenItems(c: Collecting, output: map<Key, Value>, prefix: Key, v: Legacy) returns (r: map<Key, Value>)
    requires v.Dictionary?
    ensures r == Assigned(output, FlattenedItems(c, prefix, v, |v.items|))
    decreases v, 0
  {
    hide Assigned, Flattened;
    r := output;
    NothingAssigned(output);
    for i := 0 to |v.items|
      invariant r == Assigned(output, FlattenedItems(c, prefix, v, i))
    {
      var (name, item) := v.items[i];
      AssignedAppend(output, FlattenedItems(c, prefix, v, i), Flattened(c, c.below(prefix, name), item));
      r := FlattenPluginConfig(c, r, c.below(prefix, name), item);
    }
  }

  lemma {:induction false} NothingAssigned(output: map<Key, Value>)
    ensures Assigned(output, []) == output
  {
  }

  method Expand(c: Collecting, values: seq<(Key, Legacy)>) returns (expanded: map<Key, Value>)
    ensures expanded == Assigned(map[], Expansions(c, values))
  {
    expanded := map[];
    for i := 0 to |values|
      invariant expanded == Assigned(map[], Expansions(c, values[..i]))
    {
      var (key, v) := values[i];
      assert values[..i + 1][..i] == values[..i];
      AssignedAppend(map[], Expansions(c, values[..i]), Expansion(c, key, v));
      if key == c.pluginsKey && v.Dictionary? {
        expanded := FlattenItems(c, expanded, key, v);
      } else {
        assert [(key, v.value)][..0] == [];
        expanded := expanded[key := v.value];
      }
    }
    assert values[..|values|] == values;
  }

  // ------------------------------------------------------------------------- collecting

  ghost predicate SortedKeys(c: Collecting, items: seq<(Key, Value)>) {
    forall i, j :: 0 <= i < j < |items| ==> c.position(items[i].0) < c.position(items[j].0)
  }

  /** The items of a dictionary in the order of their keys. */
  ghost predicate Enumerates(c: Collecting, items: seq<(Key, Value)>, d: map<Key, Value>) {
    SortedKeys(c, items) && forall x :: x in items <==> x.0 in d && x.1 == d[x.0]
  }

  method SortedItems(c: Collecting, d: map<Key, Value>) returns (items: seq<(Key, Value)>)
    requires c.Proper()
    ensures Enumerates(c, items, d)
  {
    items := [];
    var left := d.Keys;
    while left != {}
      invariant left <= d.Keys && SortedKeys(c, items)
      invariant forall x, k :: x in items && k in left ==> c.position(x.0) < c.position(k)
      invariant forall x :: x in items <==> x.0 in d && x.0 !in left && x.1 == d[x.0]
      decreases |left|
    {
      var k := Least(left, c.position);
      left := left - {k};
      items := items + [(k, d[k])];
    }
  }

  lemma {:induction false} SortedDistinct(c: Collecting, items: seq<(Key, Value)>)
    requires SortedKeys(c, items)
    ensures DistinctKeys(items)
  {
  }

  /** `collect_migration_settings`: refused exactly for too many entries; otherwise what the
      sorted items of the expanded dictionary collect, which targets its own UI in UI scope and
      proposes no slot twice. */
  method CollectMigrationSettings(c: Collecting, origin: Origin, ui: UiId, values: seq<(Key, Legacy)>)
    returns (r: Result<seq<Setting>, CollectionError>)
    requires c.Proper()
    ensures r.Failure? <==> |values| > 2_000
    ensures r.Success? ==> OwnSlots(c.rules, ui, r.value)
    ensures r.Success? ==> exists items ::
      Enumerates(c, items, Assigned(map[], Expansions(c, values))) && r.value == Collected(c.rules, origin, ui, items)
  {
    hide Assigned, Expansions, Collected, Collecting.Proper, SortedKeys;
    if |values| > MAX_MIGRATION_SETTINGS {
      return Failure(TooManySettings);
    }
    var expanded := Expand(c, values);
    var items := SortedItems(c, expanded);
    var output := CollectSettings(c.rules, origin, ui, items);
    SortedDistinct(c, items);
    CollectedOwnSlots(c.rules, origin, ui, items);
    return Success(output);
  }
}
