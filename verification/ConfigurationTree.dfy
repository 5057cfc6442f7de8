/** Applying dotted keys to nested configuration objects
    (`src/tfr/gateway_configuration.py`, `src/tfr/gateway_client.py`). */
module ConfigurationTree {
  import opened Wrappers
  import opened Sequences

  // `_apply_key` and `apply_gateway_configuration` on the Gateway, and
  // `_apply_gateway_ui_configuration` in the client.

  /** The parts of a dotted key, and the values that are not objects. */
  type Segment(==, !new)
  type Leaf(==, !new)

  datatype Node = Plain(leaf: Leaf) | Object(children: map<Segment, Node>)

  type Tree = map<Segment, Node>

  /** A dotted key: splitting gives at least one segment. */
  datatype Key = Key(first: Segment, rest: seq<Segment>) {
    function Path(): (p: seq<Segment>)
      ensures p != []
    {
      [first] + rest
    }
  }

  /** The object below `t` at `s`; anything else counts as an empty object. */
  function Child(t: Tree, s: Segment): Tree { if s in t && t[s].Object? then t[s].children else map[] }

  /** `t` with `value` at `p`, creating objects on the way. */
  function Written(t: Tree, p: seq<Segment>, value: Node): Tree
    requires p != []
    decreases |p|
  {
    if |p| == 1 then t[p[0] := value] else t[p[0] := Object(Written(Child(t, p[0]), p[1..], value))]
  }

  function Read(t: Tree, p: seq<Segment>): Option<Node>
    requires p != []
    decreases |p|
  {
    if p[0] !in t then None
    else if |p| == 1 then Some(t[p[0]])
    else if t[p[0]].Object? then Read(t[p[0]].children, p[1..])
    else None
  }

  predicate Comparable(p: seq<Segment>, q: seq<Segment>) { p <= q || q <= p }

  // ------------------------------------------------------------------- the tree laws

  lemma {:induction false} ComparableTails(p: seq<Segment>, q: seq<Segment>)
    requires p != [] && q != []
    ensures Comparable(p, q) <==> p[0] == q[0] && Comparable(p[1..], q[1..])
  {
    assert p == [p[0]] + p[1..] && q == [q[0]] + q[1..];
  }

  lemma {:induction false} WriteReadsBack(t: Tree, p: seq<Segment>, value: Node)
    requires p != []
    ensures Read(Written(t, p, value), p) == Some(value)
    decreases |p|
  {
    if |p| > 1 {
      WriteReadsBack(Child(t, p[0]), p[1..], value);
    }
  }

  /** A write is seen only along its own path: entries at incomparable paths stay. */
  lemma {:induction false} WriteElsewhere(t: Tree, p: seq<Segment>, value: Node, q: seq<Segment>)
    requires p != [] && q != [] && !Comparable(p, q)
    ensures Read(Written(t, p, value), q) == Read(t, q)
    decreases |p|
  {
    ComparableTails(p, q);
    if p[0] == q[0] {
      assert |p| > 1 && |q| > 1 by {
        assert [] <= p[1..] && [] <= q[1..];
      }
      WriteElsewhere(Child(t, p[0]), p[1..], value, q[1..]);
      assert q[1..] != [];
      ReadNothing(q[1..]);
    }
  }

  lemma {:induction false} ReadNothing(q: seq<Segment>)
    requires q != []
    ensures Read(map[], q) == None
  {
  }

  /** Two writes below the same segment are two writes to the same child. */
  lemma {:induction false} WrittenTwice(t: Tree, p: seq<Segment>, v: Node, q: seq<Segment>, w: Node)
    requires |p| > 1 && |q| > 1 && p[0] == q[0]
    ensures Written(Written(t, p, v), q, w) ==
      t[p[0] := Object(Written(Written(Child(t, p[0]), p[1..], v), q[1..], w))]
  {
    var x := Written(Child(t, p[0]), p[1..], v);
    assert Written(t, p, v) == t[p[0] := Object(x)];
    assert Child(t[p[0] := Object(x)], p[0]) == x;
  }

  /** What a write puts under the first name of its path. */
  function Placed(t: Tree, p: seq<Segment>, v: Node): Node
    requires p != []
  {
    if |p| == 1 then v else Object(Written(Child(t, p[0]), p[1..], v))
  }

  lemma {:induction false} WrittenPlaces(t: Tree, p: seq<Segment>, v: Node)
    requires p != []
    ensures Written(t, p, v) == t[p[0] := Placed(t, p, v)]
  {
  }

  /** It depends on nothing under other names. */
  lemma {:induction false} PlacedApart(t: Tree, s: Segment, x: Node, q: seq<Segment>, w: Node)
    requires q != [] && s != q[0]
    ensures Placed(t[s := x], q, w) == Placed(t, q, w)
  {
    assert Child(t[s := x], q[0]) == Child(t, q[0]);
  }

  /** Writes under different names do not meet. */
  lemma {:induction false} WritesApart(t: Tree, p: seq<Segment>, v: Node, q: seq<Segment>, w: Node)
    requires p != [] && q != [] && p[0] != q[0]
    ensures Written(Written(t, p, v), q, w) == Written(Written(t, q, w), p, v)
  {
    var x, y := Placed(t, p, v), Placed(t, q, w);
    hide Written, Placed;
    WrittenPlaces(t, p, v);
    WrittenPlaces(t, q, w);
    WrittenPlaces(t[p[0] := x], q, w);
    WrittenPlaces(t[q[0] := y], p, v);
    PlacedApart(t, p[0], x, q, w);
    PlacedApart(t, q[0], y, p, v);
    assert t[p[0] := x][q[0] := y] == t[q[0] := y][p[0] := x];
  }

  lemma {:induction false} WritesCommute(t: Tree, p: seq<Segment>, v: Node, q: seq<Segment>, w: Node)
    requires p != [] && q != [] && !Comparable(p, q)
    ensures Written(Written(t, p, v), q, w) == Written(Written(t, q, w), p, v)
    decreases |p|
  {
    hide Written;
    if p[0] != q[0] {
      WritesApart(t, p, v, q, w);
    } else {
      LongerTails(p, q);
      WritesCommute(Child(t, p[0]), p[1..], v, q[1..], w);
      WrittenTwice(t, p, v, q, w);
      WrittenTwice(t, q, w, p, v);
    }
  }

  lemma {:induction false} LongerTails(p: seq<Segment>, q: seq<Segment>)
    requires p != [] && q != [] && p[0] == q[0] && !Comparable(p, q)
    ensures |p| > 1 && |q| > 1 && !Comparable(p[1..], q[1..])
  {
    ComparableTails(p, q);
    assert [] <= p[1..] && [] <= q[1..];
  }

  /** Writing at or above a path discards what was written there before. */
  lemma {:induction false} WriteOverwrites(t: Tree, p: seq<Segment>, v: Node, q: seq<Segment>, w: Node)
    requires p != [] && q != [] && q <= p
    ensures Written(Written(t, p, v), q, w) == Written(t, q, w)
    decreases |p|
  {
    assert p[0] == q[0];
    if |q| > 1 {
      assert q[1..] <= p[1..];
      WriteOverwrites(Child(t, p[0]), p[1..], v, q[1..], w);
      WrittenTwice(t, p, v, q, w);
    }
  }

  function ChildrenOf(v: Node): Tree { if v.Object? then v.children else map[] }

  /** Writing below a written value is writing into that value. */
  lemma {:induction false} WriteBelow(t: Tree, p: seq<Segment>, v: Node, r: seq<Segment>, w: Node)
    requires p != [] && r != []
    ensures Written(Written(t, p, v), p + r, w) == Written(t, p, Object(Written(ChildrenOf(v), r, w)))
    decreases |p|
  {
    if |p| == 1 {
      assert (p + r)[1..] == r;
    } else {
      assert (p + r)[1..] == p[1..] + r;
      WrittenTwice(t, p, v, p + r, w);
      WriteBelow(Child(t, p[0]), p[1..], v, r, w);
    }
  }

  /** Writing what is already there changes nothing. */
  lemma {:induction false} WriteSame(t: Tree, p: seq<Segment>, v: Node)
    requires p != []
    ensures Written(t, p, v) == t <==> Read(t, p) == Some(v)
    decreases |p|
  {
    WriteReadsBack(t, p, v);
    if |p| > 1 && Read(t, p) == Some(v) {
      WriteSame(t[p[0]].children, p[1..], v);
    }
  }

  /** The value `w` at `p + r` is already part of `v` at `p`. */
  predicate Holds(v: Node, r: seq<Segment>, w: Node)
    requires r != []
  {
    v.Object? && Read(v.children, r) == Some(w)
  }

  /** When two writes can be made in either order: at incomparable paths, with the same value
      at the same path, or when the value at the upper path already holds the lower one. */
  predicate Agree(p: seq<Segment>, v: Node, q: seq<Segment>, w: Node) {
    if p == q then v == w
    else if p < q then Holds(v, q[|p|..], w)
    else if q < p then Holds(w, p[|q|..], v)
    else true
  }

  lemma {:induction false} UpperWriteWins(t: Tree, p: seq<Segment>, v: Node, q: seq<Segment>, w: Node)
    requires p != [] && p < q
    ensures Written(Written(t, p, v), q, w) == Written(Written(t, q, w), p, v) <==> Holds(v, q[|p|..], w)
  {
    var r := q[|p|..];
    assert q == p + r;
    WriteBelow(t, p, v, r, w);
    WriteOverwrites(t, q, w, p, v);
    WriteReadsBack(t, p, v);
    WriteReadsBack(t, p, Object(Written(ChildrenOf(v), r, w)));
    WriteSame(ChildrenOf(v), r, w);
    hide Written, Read;
  }

  /** Two writes commute exactly when they agree. */
  lemma {:induction false} WritesCommuteIff(t: Tree, p: seq<Segment>, v: Node, q: seq<Segment>, w: Node)
    requires p != [] && q != []
    ensures Written(Written(t, p, v), q, w) == Written(Written(t, q, w), p, v) <==> Agree(p, v, q, w)
  {
    hide Written, Read, Holds;
    if p == q {
      WriteOverwrites(t, p, v, q, w);
      WriteOverwrites(t, q, w, p, v);
      WriteReadsBack(t, p, v);
      WriteReadsBack(t, q, w);
    } else if p < q {
      UpperWriteWins(t, p, v, q, w);
    } else if q < p {
      UpperWriteWins(t, q, w, p, v);
    } else {
      WritesCommute(t, p, v, q, w);
    }
  }

  // ------------------------------------------------------- the three effective objects

  /** The segments that route a key. */
  datatype Names = Names(worlds: Segment, providers: Segment, agents: Segment,
                         schema: Segment, schemaVersion: Segment, defaults: Segment,
                         ui: Segment, updates: Segment, plugins: Segment)
  {
    ghost predicate Distinct() {
      worlds !in {schema, schemaVersion, defaults}
    }
  }

  datatype Destination = Main | Worlds | Agents

  datatype Effective = Effective(main: Tree, worlds: Tree, agents: Tree) {
    function At(d: Destination): Tree {
      match d
      case Main => main
      case Worlds => worlds
      case Agents => agents
    }

    function With(d: Destination, t: Tree): Effective {
      match d
      case Main => this.(main := t)
      case Worlds => this.(worlds := t)
      case Agents => this.(agents := t)
    }
  }

  function DestinationOf(n: Names, key: seq<Segment>): Destination
    requires key != []
  {
    if key[0] == n.worlds then Worlds else if key[0] in {n.providers, n.agents} then Agents else Main
  }

  /** World-file settings that are not worlds live at the top of the worlds object. */
  function PathOf(n: Names, key: seq<Segment>): (p: seq<Segment>)
    requires key != []
    ensures p != []
  {
    if key[0] == n.worlds && |key| > 1 && key[1] in {n.schema, n.schemaVersion, n.defaults} then key[1..] else key
  }

  datatype Entry = Entry(name: Key, value: Node) {
    function Key(): (p: seq<Segment>)
      ensures p != []
    {
      name.Path()
    }
  }

  /** `_apply_key`. */
  function Applied(n: Names, e: Effective, entry: Entry): Effective {
    var d := DestinationOf(n, entry.Key());
    e.With(d, Written(e.At(d), PathOf(n, entry.Key()), entry.value))
  }

  /** Where one key lands, on its own segments: `worlds` in the worlds object (the world-file
      settings without that first segment), `providers` and `agents` in the agents object, any
      other in the main object. It reads back there, what lies apart from it stays, and so do
      the other two objects. */
  lemma {:induction false} AppliedLands(n: Names, e: Effective, first: Segment, rest: seq<Segment>, value: Node, apart: seq<Segment>)
    requires apart != []
    ensures var f := Applied(n, e, Entry(Key(first, rest), value));
      if first == n.worlds then
        var path := if rest != [] && rest[0] in {n.schema, n.schemaVersion, n.defaults} then rest else [first] + rest;
        && f.main == e.main && f.agents == e.agents && Read(f.worlds, path) == Some(value)
        && (!(path <= apart) && !(apart <= path) ==> Read(f.worlds, apart) == Read(e.worlds, apart))
      else if first == n.providers || first == n.agents then
        && f.main == e.main && f.worlds == e.worlds && Read(f.agents, [first] + rest) == Some(value)
        && (!([first] + rest <= apart) && !(apart <= [first] + rest) ==> Read(f.agents, apart) == Read(e.agents, apart))
      else
        && f.worlds == e.worlds && f.agents == e.agents && Read(f.main, [first] + rest) == Some(value)
        && (!([first] + rest <= apart) && !(apart <= [first] + rest) ==> Read(f.main, apart) == Read(e.main, apart))
  {
    var entry := Entry(Key(first, rest), value);
    var d, p := DestinationOf(n, entry.Key()), PathOf(n, entry.Key());
    assert entry.Key() == [first] + rest && ([first] + rest)[1..] == rest;
    hide Written, Read;
    WriteReadsBack(e.At(d), p, value);
    if !(p <= apart) && !(apart <= p) {
      WriteElsewhere(e.At(d), p, value, apart);
    }
  }

  ghost predicate PrefixFree(entries: seq<Entry>) {
    forall i, j :: 0 <= i < j < |entries| ==> !Comparable(entries[i].Key(), entries[j].Key())
  }

  lemma {:induction false} Incomparable(entries: seq<Entry>, x: Entry, y: Entry)
    requires PrefixFree(entries) && x in entries && y in entries && x != y
    ensures !Comparable(x.Key(), y.Key())
  {
    hide Entry.Key;
  }

  /** Routing keeps incomparable keys of one destination incomparable. */
  lemma {:induction false} RoutingSeparates(n: Names, k: seq<Segment>, l: seq<Segment>)
    requires n.Distinct() && k != [] && l != [] && !Comparable(k, l)
    requires DestinationOf(n, k) == DestinationOf(n, l)
    ensures !Comparable(PathOf(n, k), PathOf(n, l))
  {
    var p, q := PathOf(n, k), PathOf(n, l);
    ComparableTails(k, l);
    ComparableTails(p, q);
  }

  lemma {:induction false} AppliedCommute(n: Names, e: Effective, a: Entry, b: Entry)
    requires n.Distinct() && !Comparable(a.Key(), b.Key())
    ensures Applied(n, Applied(n, e, a), b) == Applied(n, Applied(n, e, b), a)
  {
    hide Written, Comparable, PathOf, DestinationOf, Key.Path;
    if DestinationOf(n, a.Key()) == DestinationOf(n, b.Key()) {
      RoutingSeparates(n, a.Key(), b.Key());
      WritesCommute(e.At(DestinationOf(n, a.Key())), PathOf(n, a.Key()), a.value, PathOf(n, b.Key()), b.value);
    }
  }

  /** Two entries can be applied in either order exactly when they go to different objects or
      their routed writes agree. */
  lemma {:induction false} AppliedCommuteIff(n: Names, e: Effective, a: Entry, b: Entry)
    ensures Applied(n, Applied(n, e, a), b) == Applied(n, Applied(n, e, b), a) <==>
      DestinationOf(n, a.Key()) != DestinationOf(n, b.Key()) || Agree(PathOf(n, a.Key()), a.value, PathOf(n, b.Key()), b.value)
  {
    hide Written, Agree, PathOf, DestinationOf, Entry.Key;
    if DestinationOf(n, a.Key()) == DestinationOf(n, b.Key()) {
      WritesCommuteIff(e.At(DestinationOf(n, a.Key())), PathOf(n, a.Key()), a.value, PathOf(n, b.Key()), b.value);
    }
  }

  function Applying(n: Names): (Effective, Entry) -> Effective { (e: Effective, entry: Entry) => Applied(n, e, entry) }

  /** The effective configuration of a prefix-free set of keys does not depend on the order
      in which sections and entries are applied. */
  lemma {:induction false} OrderIrrelevant(n: Names, e: Effective, a: seq<Entry>, b: seq<Entry>)
    requires n.Distinct() && multiset(a) == multiset(b) && PrefixFree(a)
    ensures Fold(Applying(n), e, a) == Fold(Applying(n), e, b)
  {
    hide Applied, Comparable;
    PrefixFreeCommutes(n, a);
    FoldPermutes(Applying(n), e, a, b);
  }

  lemma {:induction false} PrefixFreeCommutes(n: Names, entries: seq<Entry>)
    requires n.Distinct() && PrefixFree(entries)
    ensures Commutes(Applying(n), entries)
  {
    hide Applied, Comparable;
    var f := Applying(n);
    forall x, y, e | x in entries && y in entries && x != y ensures f(f(e, x), y) == f(f(e, y), x) {
      Incomparable(entries, x, y);
      AppliedCommute(n, e, x, y);
    }
  }

  /** Every entry of a prefix-free set reads back from the result. */
  lemma {:induction false} AllReadBack(n: Names, e: Effective, entries: seq<Entry>, i: nat)
    requires n.Distinct() && PrefixFree(entries) && i < |entries|
    ensures var key := entries[i].Key();
      Read(Fold(Applying(n), e, entries).At(DestinationOf(n, key)), PathOf(n, key)) == Some(entries[i].value)
    decreases |entries|
  {
    hide Comparable, Written, Read, PathOf, DestinationOf, Entry.Key;
    var f, last := Applying(n), |entries| - 1;
    var key := entries[i].Key();
    FoldSnoc(f, e, entries[..last], entries[last]);
    assert entries == entries[..last] + [entries[last]];
    var before := Fold(f, e, entries[..last]);
    if i == last {
      WriteReadsBack(before.At(DestinationOf(n, key)), PathOf(n, key), entries[i].value);
    } else {
      AllReadBack(n, e, entries[..last], i);
      if DestinationOf(n, key) == DestinationOf(n, entries[last].Key()) {
        RoutingSeparates(n, key, entries[last].Key());
        IncomparableSymmetric(PathOf(n, key), PathOf(n, entries[last].Key()));
        WriteElsewhere(before.At(DestinationOf(n, key)), PathOf(n, entries[last].Key()), entries[last].value, PathOf(n, key));
      }
    }
  }

  lemma {:induction false} IncomparableSymmetric(p: seq<Segment>, q: seq<Segment>)
    requires !Comparable(p, q)
    ensures !Comparable(q, p)
  {
  }

  // -------------------------------------------------------------------- the UI overlay

  /** `_apply_gateway_ui_configuration` skips keys outside three roots. */
  function Overlaid(n: Names, t: Tree, entry: Entry): Tree {
    if entry.Key()[0] in {n.ui, n.updates, n.plugins} then Written(t, entry.Key(), entry.value) else t
  }

  function Overlaying(n: Names): (Tree, Entry) -> Tree { (t: Tree, entry: Entry) => Overlaid(n, t, entry) }

  lemma {:induction false} OverlayOrderIrrelevant(n: Names, t: Tree, a: seq<Entry>, b: seq<Entry>)
    requires multiset(a) == multiset(b) && PrefixFree(a)
    ensures Fold(Overlaying(n), t, a) == Fold(Overlaying(n), t, b)
  {
    hide Written, Comparable;
    OverlayCommutes(n, a);
    FoldPermutes(Overlaying(n), t, a, b);
  }

  lemma {:induction false} OverlayCommutes(n: Names, entries: seq<Entry>)
    requires PrefixFree(entries)
    ensures Commutes(Overlaying(n), entries)
  {
    hide Written, Comparable;
    var f := Overlaying(n);
    forall x, y, t | x in entries && y in entries && x != y ensures f(f(t, x), y) == f(f(t, y), x) {
      Incomparable(entries, x, y);
      WritesCommute(t, x.Key(), x.value, y.Key(), y.value);
    }
  }

  /** The overlay leaves alone every entry outside the allowed roots. */
  lemma {:induction false} OverlayStaysInside(n: Names, t: Tree, entries: seq<Entry>, root: Segment)
    requires root !in {n.ui, n.updates, n.plugins}
    ensures root in Fold(Overlaying(n), t, entries) <==> root in t
    ensures root in t ==> Fold(Overlaying(n), t, entries)[root] == t[root]
    decreases |entries|
  {
    if entries != [] {
      OverlayStaysInside(n, Overlaid(n, t, entries[0]), entries[1..], root);
    }
  }

  /** Every entry of a prefix-free set under an allowed root reads back from the overlay. */
  lemma {:induction false} OverlayReadsBack(n: Names, t: Tree, entries: seq<Entry>, i: nat)
    requires PrefixFree(entries) && i < |entries| && entries[i].name.first in {n.ui, n.updates, n.plugins}
    ensures Read(Fold(Overlaying(n), t, entries), [entries[i].name.first] + entries[i].name.rest) == Some(entries[i].value)
    decreases |entries|
  {
    hide Comparable, Written, Read;
    var f, last := Overlaying(n), |entries| - 1;
    FoldSnoc(f, t, entries[..last], entries[last]);
    assert entries == entries[..last] + [entries[last]];
    var before := Fold(f, t, entries[..last]);
    if i == last {
      WriteReadsBack(before, entries[i].Key(), entries[i].value);
    } else {
      OverlayReadsBack(n, t, entries[..last], i);
      IncomparableSymmetric(entries[i].Key(), entries[last].Key());
      WriteElsewhere(before, entries[last].Key(), entries[last].value, entries[i].Key());
    }
  }

  // ------------------------------------------------------------------ the loop over segments

  /** Walk to the parent of the last segment, creating objects, and write there. */
  method WriteAt(t: Tree, p: seq<Segment>, value: Node) returns (r: Tree)
    requires p != []
    ensures r == Written(t, p, value)
  {
    var trail := [t];
    for i := 0 to |p| - 1
      invariant |trail| == i + 1 && trail[0] == t
      invariant forall j :: 0 <= j < i ==> trail[j + 1] == Child(trail[j], p[j])
    {
      trail := trail + [Child(trail[i], p[i])];
    }
    var k: nat := |p| - 1;
    r := trail[k][p[k] := value];
    while k > 0
      invariant k < |p| && r == Written(trail[k], p[k..], value)
    {
      k := k - 1;
      assert p[k..][1..] == p[k + 1..];
      r := trail[k][p[k] := Object(r)];
    }
    assert p[0..] == p;
  }

  /** The objects that persisted values are applied to before runtime objects exist. */
  class EffectiveConfiguration {
    var main: Tree
    var worlds: Tree
    var agents: Tree
    const names: Names

    ghost function State(): Effective
      reads this
    {
      Effective(main, worlds, agents)
    }

    constructor (names: Names, main: Tree, worlds: Tree, agents: Tree)
      ensures this.names == names && State() == Effective(main, worlds, agents)
    {
      this.names, this.main, this.worlds, this.agents := names, main, worlds, agents;
    }

    method ApplyKey(name: Key, value: Node)
      modifies this
      ensures State() == Applied(names, old(State()), Entry(name, value))
      ensures name.first != names.worlds ==> worlds == old(worlds)
      ensures name.first == names.worlds || name.first !in {names.providers, names.agents} ==> agents == old(agents)
      ensures name.first in {names.worlds, names.providers, names.agents} ==> main == old(main)
      ensures name.first == names.worlds ==>
        Read(worlds, if name.rest != [] && name.rest[0] in {names.schema, names.schemaVersion, names.defaults} then name.rest
                     else [name.first] + name.rest) == Some(value)
      ensures name.first != names.worlds && name.first in {names.providers, names.agents} ==>
        Read(agents, [name.first] + name.rest) == Some(value)
      ensures name.first !in {names.worlds, names.providers, names.agents} ==> Read(main, [name.first] + name.rest) == Some(value)
    {
      AppliedLands(names, State(), name.first, name.rest, value, [name.first]);
      hide Written, Read;
      var key := name.Path();
      var path := PathOf(names, key);
      if key[0] == names.worlds {
        worlds := WriteAt(worlds, path, value);
      } else if key[0] in {names.providers, names.agents} {
        agents := WriteAt(agents, path, value);
      } else {
        main := WriteAt(main, path, value);
      }
    }

    /** Every entry of every section, in the order the sections are walked. */
    method ApplyAll(entries: seq<Entry>)
      modifies this
      ensures State() == Fold(Applying(names), old(State()), entries)
    {
      hide Applied;
      for i := 0 to |entries|
        invariant State() == Fold(Applying(names), old(State()), entries[..i])
      {
        assert entries[..i + 1] == entries[..i] + [entries[i]];
        FoldSnoc(Applying(names), old(State()), entries[..i], entries[i]);
        ApplyKey(entries[i].name, entries[i].value);
      }
      assert entries[..|entries|] == entries;
    }
  }
}
