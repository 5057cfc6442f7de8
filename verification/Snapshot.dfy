/** Which retained events a history snapshot keeps: the heap merge over the worlds'
    windows in `EventHistory.subscribe`, and the simple rule it computes. */
module Snapshot {
  import opened Wrappers
  import opened Sequences
  import opened EventLog

  /** A `Counter` over worlds. */
  type Tally = map<World, nat>

  function Count(t: Tally, w: World): nat { if w in t then t[w] else 0 }

  function Bump(t: Tally, w: World): Tally { t[w := Count(t, w) + 1] }

  // -------------------------------------------------------------- the simple rule

  /** The events of `s` of which fewer than `k` newer ones of the same world exist,
      counting those in `newer`. */
  function CapWorlds(s: seq<Sequenced>, k: nat, newer: Tally): (r: seq<Sequenced>)
    ensures forall x :: x in r ==> x in s
  {
    if s == [] then [] else
      var x := s[|s| - 1];
      if Count(newer, x.event.world) < k
      then CapWorlds(s[..|s| - 1], k, Bump(newer, x.event.world)) + [x]
      else CapWorlds(s[..|s| - 1], k, newer)
  }

  function Weight(s: seq<Sequenced>, size: Event -> nat): nat {
    if s == [] then 0 else Weight(s[1..], size) + size(s[0].event)
  }

  predicate Fits(s: seq<Sequenced>, count: Option<nat>, bytes: Option<nat>, size: Event -> nat) {
    (count.None? || |s| <= count.value) && (bytes.None? || Weight(s, size) <= bytes.value)
  }

  /** The newest events of `s`, taken one by one until a budget is exhausted. */
  function NewestWithin(s: seq<Sequenced>, count: Option<nat>, bytes: Option<nat>, size: Event -> nat): (r: seq<Sequenced>)
    ensures |r| <= |s|
  {
    if s == [] || count == Some(0) || (bytes.Some? && size(s[|s| - 1].event) > bytes.value) then []
    else
      var x := s[|s| - 1];
      NewestWithin(s[..|s| - 1], Less(count, 1), Less(bytes, size(x.event)), size) + [x]
  }

  function Less(budget: Option<nat>, used: nat): Option<nat>
    requires budget.Some? ==> used <= budget.value
  {
    if budget.None? then None else Some(budget.value - used)
  }

  lemma {:induction false} WeightSnoc(s: seq<Sequenced>, x: Sequenced, size: Event -> nat)
    ensures Weight(s + [x], size) == Weight(s, size) + size(x.event)
  {
    if s != [] {
      WeightSnoc(s[1..], x, size);
      assert (s + [x])[1..] == s[1..] + [x];
    } else {
      assert s + [x] == [x] && [x][1..] == [];
    }
  }

  lemma {:induction false} NewestWithinIsSuffix(s: seq<Sequenced>, count: Option<nat>, bytes: Option<nat>, size: Event -> nat)
    ensures var r := NewestWithin(s, count, bytes, size); r == s[|s| - |r|..]
  {
    if s != [] && NewestWithin(s, count, bytes, size) != [] {
      var init, x := s[..|s| - 1], s[|s| - 1];
      NewestWithinIsSuffix(init, Less(count, 1), Less(bytes, size(x.event)), size);
      assert s == init + [x];
    } else {
      assert s[|s|..] == [];
    }
  }

  /** `NewestWithin` keeps the longest run of newest events that fits both budgets. */
  lemma {:induction false} NewestWithinIsLongest(s: seq<Sequenced>, count: Option<nat>, bytes: Option<nat>,
                                                 size: Event -> nat, n: nat)
    requires n <= |s|
    ensures Fits(s[|s| - n..], count, bytes, size) <==> n <= |NewestWithin(s, count, bytes, size)|
  {
    if n > 0 {
      var init, x := s[..|s| - 1], s[|s| - 1];
      var suffix := init[|init| - (n - 1)..];
      assert s[|s| - n..] == suffix + [x];
      WeightSnoc(suffix, x, size);
      var stop := count == Some(0) || (bytes.Some? && size(x.event) > bytes.value);
      assert stop ==> |NewestWithin(s, count, bytes, size)| == 0;
      if !stop {
        assert NewestWithin(s, count, bytes, size) == NewestWithin(init, Less(count, 1), Less(bytes, size(x.event)), size) + [x];
        NewestWithinIsLongest(init, Less(count, 1), Less(bytes, size(x.event)), size, n - 1);
      }
      hide Weight, NewestWithin;
    } else {
      assert s[|s|..] == [];
    }
  }

  function Room(newer: Tally, k: nat, w: World): nat {
    if Count(newer, w) >= k then 0 else k - Count(newer, w)
  }

  lemma {:induction false} CapWorldsSnoc(s: seq<Sequenced>, x: Sequenced, k: nat, newer: Tally)
    ensures CapWorlds(s + [x], k, newer) ==
      if Count(newer, x.event.world) < k then CapWorlds(s, k, Bump(newer, x.event.world)) + [x] else CapWorlds(s, k, newer)
  {
    assert (s + [x])[..|s|] == s;
  }

  lemma {:induction false} RoomStep(newer: Tally, k: nat, v: World, w: World)
    ensures Count(newer, v) < k ==>
      Room(newer, k, w) == if v == w then Room(Bump(newer, v), k, w) + 1 else Room(Bump(newer, v), k, w)
    ensures Count(newer, v) >= k ==> Room(newer, k, v) == 0
  {
  }

  /** Capping leaves the newest `k` events of each world. */
  lemma {:induction false} CapWorldsKeepsNewest(s: seq<Sequenced>, k: nat, newer: Tally, w: World)
    ensures InWorld(CapWorlds(s, k, newer), w) ==
      LastN(InWorld(s, w), Room(newer, k, w))
    decreases |s|, 0
  {
    if s == [] {
      assert CapWorlds(s, k, newer) == [] && InWorld(s, w) == [];
    } else {
      var init, x := s[..|s| - 1], s[|s| - 1];
      CapWorldsKeepsNewestSnoc(init, x, k, newer, w);
      assert s == init + [x];
    }
  }

  lemma {:induction false} CapWorldsKeepsNewestSnoc(s: seq<Sequenced>, x: Sequenced, k: nat, newer: Tally, w: World)
    ensures InWorld(CapWorlds(s + [x], k, newer), w) == LastN(InWorld(s + [x], w), Room(newer, k, w))
    decreases |s|, 1
  {
    hide Filter, CapWorlds, LastN, Room, Bump, Count;
    var kept := Count(newer, x.event.world) < k;
    var newer' := if kept then Bump(newer, x.event.world) else newer;
    CapWorldsKeepsNewest(s, k, newer', w);
    CapWorldsSnoc(s, x, k, newer);
    RoomStep(newer, k, x.event.world, w);
    FilterSnoc(s, x, Inside(w));
    FilterSnoc(CapWorlds(s, k, newer'), x, Inside(w));
    LastNSnoc(InWorld(s, w), x, Room(newer, k, w));
  }

  lemma {:induction false} CapWorldsAscending(s: seq<Sequenced>, k: nat, newer: Tally)
    requires Ascending(s)
    ensures Ascending(CapWorlds(s, k, newer))
  {
    if s != [] {
      var init, x := s[..|s| - 1], s[|s| - 1];
      var kept := Count(newer, x.event.world) < k;
      var rest := CapWorlds(init, k, if kept then Bump(newer, x.event.world) else newer);
      CapWorldsAscending(init, k, if kept then Bump(newer, x.event.world) else newer);
      forall i | 0 <= i < |rest| ensures rest[i].cursor < x.cursor {
        assert rest[i] in init;
      }
    }
  }

  /** The limits of one history request. */
  datatype Budget = Budget(includeHistory: bool, perWorld: Option<nat>, events: Option<nat>,
                           bytes: Option<nat>, size: Event -> nat)

  /** The simple rule for the events of a snapshot: with a per-world limit, the newest
      candidates of each world within both budgets; without one, the newest candidates,
      and then the byte budget is not consulted. */
  function SnapshotEvents(candidates: seq<Sequenced>, b: Budget): seq<Sequenced> {
    if !b.includeHistory then []
    else if b.perWorld.Some? then NewestWithin(CapWorlds(candidates, b.perWorld.value, map[]), b.events, b.bytes, b.size)
    else NewestWithin(candidates, b.events, None, b.size)
  }

  lemma {:induction false} SnapshotIsOrderedPart(candidates: seq<Sequenced>, b: Budget)
    requires Ascending(candidates)
    ensures Ascending(SnapshotEvents(candidates, b))
    ensures forall x :: x in SnapshotEvents(candidates, b) ==> x in candidates
  {
    hide CapWorlds, NewestWithin, Ascending;
    if !b.includeHistory {
      SuffixAscending(candidates, |candidates|);
      assert candidates[|candidates|..] == [];
    } else {
      var from, bytes := candidates, None;
      if b.perWorld.Some? {
        CapWorldsAscending(candidates, b.perWorld.value, map[]);
        from, bytes := CapWorlds(candidates, b.perWorld.value, map[]), b.bytes;
      }
      NewestWithinIsSuffix(from, b.events, bytes, b.size);
      SuffixAscending(from, |from| - |NewestWithin(from, b.events, bytes, b.size)|);
    }
  }

  lemma {:induction false} SuffixAscending(s: seq<Sequenced>, i: nat)
    requires Ascending(s) && i <= |s|
    ensures Ascending(s[i..]) && forall x :: x in s[i..] ==> x in s
  {
  }

  /** With no limits at all the snapshot is every candidate. */
  lemma {:induction false} UnlimitedSnapshot(candidates: seq<Sequenced>, size: Event -> nat)
    ensures SnapshotEvents(candidates, Budget(true, None, None, None, size)) == candidates
  {
    NewestWithinIsSuffix(candidates, None, None, size);
    NewestWithinIsLongest(candidates, None, None, size, |candidates|);
    assert candidates[0..] == candidates;
  }

  // --------------------------------------------------------------------- the merge

  /** The generator over a reversed window: the newest accepted event before `position`. */
  method NextAccepted(window: seq<Sequenced>, position: nat, q: Query)
    returns (item: Option<Sequenced>, position': nat)
    requires position <= |window|
    ensures position' <= position
    ensures item.None? ==> Accepted(window[..position], q) == []
    ensures item.Some? ==> Accepted(window[..position], q) == Accepted(window[..position'], q) + [item.value]
  {
    position' := position;
    while position' > 0
      invariant position' <= position
      invariant Accepted(window[..position], q) == Accepted(window[..position'], q)
    {
      assert window[..position'][..position' - 1] == window[..position' - 1];
      position' := position' - 1;
      if q.Accepts(window[position']) {
        return Some(window[position']), position';
      }
    }
    assert window[..position'] == [];
    return None, position';
  }

  /** `heapq.heappop`: entries are ordered newest first, and cursors never tie. */
  method PopNewest(heap: set<Sequenced>) returns (newest: Sequenced, rest: set<Sequenced>)
    requires heap != {}
    ensures newest in heap && rest == heap - {newest}
    ensures forall x :: x in heap ==> x.cursor <= newest.cursor
  {
    newest :| newest in heap;
    var todo := heap - {newest};
    while todo != {}
      invariant todo <= heap && newest in heap
      invariant forall x :: x in heap - todo ==> x.cursor <= newest.cursor
      decreases todo
    {
      var x :| x in todo;
      todo := todo - {x};
      if x.cursor > newest.cursor {
        newest := x;
      }
    }
    rest := heap - {newest};
  }

  /** `x` is the newest event of its world in `s`. */
  ghost predicate IsTop(s: seq<Sequenced>, x: Sequenced) {
    var own := InWorld(s, x.event.world);
    own != [] && own[|own| - 1] == x
  }

  /** Of world `w`, `taken` pool events are in the snapshot, and if one is left it stands
      on the heap while the window before `position` holds the older ones. */
  ghost predicate Iterating(window: seq<Sequenced>, q: Query, pool: seq<Sequenced>, m: nat,
                            w: World, position: nat, taken: nat)
    requires m <= |pool|
  {
    && position <= |window|
    && taken == |InWorld(pool[m..], w)|
    && (InWorld(pool[..m], w) != [] ==>
          var a := Accepted(window, q);
          taken < |a| && Accepted(window[..position], q) == a[..|a| - taken - 1])
  }

  /** `pool` is what the merge may choose from: the newest `k` accepted events of each window. */
  ghost predicate Pools(windows: map<World, seq<Sequenced>>, q: Query, k: nat, pool: seq<Sequenced>) {
    && Ascending(pool)
    && (forall x :: x in pool ==> x.event.world in windows && q.Covers(x.event.world))
    && (forall w :: w in windows && q.Covers(w) ==> InWorld(pool, w) == LastN(Accepted(windows[w], q), k))
  }

  lemma {:induction false} SplitWorld(pool: seq<Sequenced>, m: nat, w: World)
    requires m < |pool|
    ensures InWorld(pool, w) == InWorld(pool[..m], w) + InWorld(pool[m..], w)
    ensures InWorld(pool[..m + 1], w) == if pool[m].event.world == w then InWorld(pool[..m], w) + [pool[m]] else InWorld(pool[..m], w)
    ensures InWorld(pool[m..], w) == if pool[m].event.world == w then [pool[m]] + InWorld(pool[m + 1..], w) else InWorld(pool[m + 1..], w)
  {
    hide Filter;
    assert pool == pool[..m] + pool[m..];
    FilterAppend(pool[..m], pool[m..], Inside(w));
    assert pool[..m + 1] == pool[..m] + [pool[m]];
    FilterSnoc(pool[..m], pool[m], Inside(w));
    assert pool[m..] == [pool[m]] + pool[m + 1..];
    FilterCons(pool[m], pool[m + 1..], Inside(w));
  }

  /** The newest event left is on the heap, and nothing on the heap is newer. */
  lemma {:induction false} NewestIsTop(pool: seq<Sequenced>, m: nat, heap: set<Sequenced>)
    requires 0 < m <= |pool| && Ascending(pool)
    requires forall x :: x in heap <==> IsTop(pool[..m], x)
    ensures pool[m - 1] in heap
    ensures forall x :: x in heap && x.cursor >= pool[m - 1].cursor ==> x == pool[m - 1]
  {
    hide Filter;
    SplitWorld(pool, m - 1, pool[m - 1].event.world);
    forall x | x in heap ensures x in pool[..m] {
      FilterMember(pool[..m], Inside(x.event.world));
      assert x in InWorld(pool[..m], x.event.world);
    }
  }

  lemma {:induction false} TopsOfNothing(heap: set<Sequenced>)
    requires forall x :: x in heap <==> IsTop([], x)
    ensures heap == {}
  {
  }

  /** When the newest `k` of `a` are `own` and then `got`, with `got` taken off `a` leaving
      `older`, the newest of `own` is the newest of `older`. */
  lemma {:induction false} NextOlder<T>(a: seq<T>, k: nat, own: seq<T>, got: seq<T>, older: seq<T>)
    requires LastN(a, k) == own + got && |got| <= |a| && older == a[..|a| - |got|]
    ensures own != [] <==> |got| < k && older != []
    ensures own != [] ==> own[|own| - 1] == older[|older| - 1]
    ensures own != [] ==> older[..|older| - 1] == a[..|a| - |got| - 1]
  {
    var last := LastN(a, k);
    assert forall i :: 0 <= i < |last| ==> last[i] == a[|a| - |last| + i];
    assert forall i :: 0 <= i < |own| ==> own[i] == last[i];
  }

  /** Popping the newest event of its world exposes the next older one. */
  lemma {:induction false} NextTop(windows: map<World, seq<Sequenced>>, q: Query, k: nat, pool: seq<Sequenced>, m: nat,
                                   position: nat, taken: nat)
    requires Pools(windows, q, k, pool) && m < |pool|
    requires var w := pool[m].event.world; w in windows && Iterating(windows[w], q, pool, m + 1, w, position, taken)
    ensures var w := pool[m].event.world;
      var own := InWorld(pool[..m], w);
      var older := Accepted(windows[w][..position], q);
      && |InWorld(pool[m..], w)| == taken + 1
      && (own != [] <==> taken + 1 < k && older != [])
      && (own != [] ==> own[|own| - 1] == older[|older| - 1])
      && (own != [] ==> taken + 1 < |Accepted(windows[w], q)| && older[..|older| - 1] == Accepted(windows[w], q)[..|Accepted(windows[w], q)| - taken - 2])
  {
    hide Filter, LastN;
    var w := pool[m].event.world;
    assert pool[m] in pool;
    SplitWorld(pool, m, w);
    NextOlder(Accepted(windows[w], q), k, InWorld(pool[..m], w), InWorld(pool[m..], w), Accepted(windows[w][..position], q));
  }

  lemma {:induction false} TopElsewhere(pool: seq<Sequenced>, m: nat, x: Sequenced)
    requires m < |pool| && x.event.world != pool[m].event.world
    ensures IsTop(pool[..m], x) <==> IsTop(pool[..m + 1], x)
  {
    hide InWorld;
    SplitWorld(pool, m, x.event.world);
  }

  lemma {:induction false} TopHere(pool: seq<Sequenced>, m: nat, x: Sequenced)
    requires m < |pool| && x.event.world == pool[m].event.world
    ensures IsTop(pool[..m + 1], x) <==> x == pool[m]
  {
    hide InWorld;
    SplitWorld(pool, m, x.event.world);
  }

  lemma {:induction false} OlderTop(pool: seq<Sequenced>, m: nat, w: World)
    requires m < |pool| && Ascending(pool)
    ensures var own := InWorld(pool[..m], w);
      own != [] ==> own[|own| - 1] != pool[m] && own[|own| - 1].event.world == w
  {
    FilterMember(pool[..m], Inside(w));
    hide Filter;
    var own := InWorld(pool[..m], w);
    if own != [] {
      assert own[|own| - 1] in own;
    }
  }

  /** The heap after popping `pool[m]` and pushing the next older event of its world. */
  lemma {:induction false} TopsAfterPop(pool: seq<Sequenced>, m: nat, heap: set<Sequenced>, heap': set<Sequenced>)
    requires m < |pool| && Ascending(pool)
    requires forall x :: x in heap <==> IsTop(pool[..m + 1], x)
    requires var own := InWorld(pool[..m], pool[m].event.world);
      heap' == if own != [] then heap - {pool[m]} + {own[|own| - 1]} else heap - {pool[m]}
    ensures forall x :: x in heap' <==> IsTop(pool[..m], x)
  {
    hide InWorld, Ascending;
    OlderTop(pool, m, pool[m].event.world);
    forall x ensures x in heap' <==> IsTop(pool[..m], x) {
      if x.event.world == pool[m].event.world {
        TopHere(pool, m, x);
      } else {
        TopElsewhere(pool, m, x);
        hide IsTop;
      }
    }
  }

  lemma {:induction false} IteratingElsewhere(window: seq<Sequenced>, q: Query, pool: seq<Sequenced>, m: nat,
                                              w: World, position: nat, taken: nat)
    requires m < |pool| && pool[m].event.world != w
    requires Iterating(window, q, pool, m + 1, w, position, taken)
    ensures Iterating(window, q, pool, m, w, position, taken)
  {
    hide Filter;
    SplitWorld(pool, m, w);
  }

  /** The merge state once the newest `|pool| - m` events are in the snapshot. */
  ghost predicate Merging(windows: map<World, seq<Sequenced>>, q: Query, pool: seq<Sequenced>, m: nat,
                          heap: set<Sequenced>, positions: map<World, nat>, taken: Tally) {
    && m <= |pool|
    && (forall x :: x in heap <==> IsTop(pool[..m], x))
    && (forall w :: w in windows && q.Covers(w) && InWorld(pool[..m], w) != [] ==>
          w in positions && Iterating(windows[w], q, pool, m, w, positions[w], Count(taken, w)))
  }

  /** The worlds in `done` have their newest accepted event on the heap. */
  ghost predicate Seeded(windows: map<World, seq<Sequenced>>, q: Query, pool: seq<Sequenced>, done: set<World>,
                         heap: set<Sequenced>, positions: map<World, nat>) {
    && done <= windows.Keys
    && (forall x :: x in heap <==> x.event.world in done && IsTop(pool, x))
    && (forall w :: w in done && q.Covers(w) && InWorld(pool, w) != [] ==>
          w in positions && Iterating(windows[w], q, pool, |pool|, w, positions[w], 0))
  }

  lemma {:induction false} SeedUncovered(windows: map<World, seq<Sequenced>>, q: Query, k: nat, pool: seq<Sequenced>,
                                         x: Sequenced)
    requires Pools(windows, q, k, pool) && IsTop(pool, x)
    ensures x.event.world in windows && q.Covers(x.event.world)
  {
    hide Filter;
    var own := InWorld(pool, x.event.world);
    FilterMember(pool, Inside(x.event.world));
    assert own[|own| - 1] in own;
  }

  lemma {:induction false} SeedStep(windows: map<World, seq<Sequenced>>, q: Query, k: nat, pool: seq<Sequenced>,
                                    w: World, first: Option<Sequenced>, position: nat)
    requires 1 <= k && Pools(windows, q, k, pool) && w in windows && q.Covers(w) && position <= |windows[w]|
    requires first.None? ==> Accepted(windows[w], q) == []
    requires first.Some? ==> Accepted(windows[w], q) == Accepted(windows[w][..position], q) + [first.value]
    ensures first.None? ==> InWorld(pool, w) == []
    ensures first.Some? ==> first.value.event.world == w && IsTop(pool, first.value)
    ensures first.Some? ==> Iterating(windows[w], q, pool, |pool|, w, position, 0)
  {
    hide Filter;
    assert pool[|pool|..] == [] && pool[..|pool|] == pool;
    if first.Some? {
      var own := InWorld(pool, w);
      FilterMember(pool, Inside(w));
      assert own[|own| - 1] == first.value && own[|own| - 1] in own;
    }
  }

  method SeedHeap(windows: map<World, seq<Sequenced>>, q: Query, k: nat, ghost pool: seq<Sequenced>)
    returns (heap: set<Sequenced>, positions: map<World, nat>)
    requires 1 <= k && Pools(windows, q, k, pool)
    ensures Merging(windows, q, pool, |pool|, heap, positions, map[])
  {
    hide Filter;
    heap, positions := {}, map[];
    var todo := windows.Keys;
    while todo != {}
      invariant todo <= windows.Keys
      invariant Seeded(windows, q, pool, windows.Keys - todo, heap, positions)
      decreases todo
    {
      var w :| w in todo;
      if q.Covers(w) {
        assert windows[w][..|windows[w]|] == windows[w];
        var first, position := NextAccepted(windows[w], |windows[w]|, q);
        SeedStep(windows, q, k, pool, w, first, position);
        if first.Some? {
          heap := heap + {first.value};
          positions := positions[w := position];
        }
      }
      forall x | IsTop(pool, x) ensures q.Covers(x.event.world) {
        SeedUncovered(windows, q, k, pool, x);
      }
      todo := todo - {w};
    }
    assert pool[..|pool|] == pool;
    forall x | IsTop(pool, x) ensures x.event.world in windows {
      SeedUncovered(windows, q, k, pool, x);
    }
  }

  lemma {:induction false} WeightStep(pool: seq<Sequenced>, m: nat, size: Event -> nat)
    requires m < |pool|
    ensures Weight(pool[m..], size) == Weight(pool[m + 1..], size) + size(pool[m].event)
  {
    assert pool[m..][1..] == pool[m + 1..];
  }

  lemma {:induction false} StartOfMerge(pool: seq<Sequenced>, count: Option<nat>, bytes: Option<nat>, size: Event -> nat)
    ensures Weight(pool[|pool|..], size) == 0 && Reverse(pool[|pool|..]) == []
    ensures Fits(pool[|pool|..], count, bytes, size)
  {
    assert pool[|pool|..] == [];
  }

  lemma {:induction false} LongestRun(pool: seq<Sequenced>, m: nat, count: Option<nat>, bytes: Option<nat>, size: Event -> nat)
    requires m <= |pool| && Fits(pool[m..], count, bytes, size)
    requires m > 0 ==> !Fits(pool[m - 1..], count, bytes, size)
    ensures pool[m..] == NewestWithin(pool, count, bytes, size)
  {
    NewestWithinIsSuffix(pool, count, bytes, size);
    NewestWithinIsLongest(pool, count, bytes, size, |pool| - m);
    if m > 0 {
      NewestWithinIsLongest(pool, count, bytes, size, |pool| - m + 1);
    }
  }

  lemma {:induction false} OthersUntouched(windows: map<World, seq<Sequenced>>, q: Query, pool: seq<Sequenced>, m: nat,
                                           heap: set<Sequenced>, positions: map<World, nat>, taken: Tally)
    requires m < |pool| && Merging(windows, q, pool, m + 1, heap, positions, taken)
    ensures forall v :: v in windows && q.Covers(v) && v != pool[m].event.world && InWorld(pool[..m], v) != [] ==>
      v in positions && Iterating(windows[v], q, pool, m, v, positions[v], Count(taken, v))
  {
    hide Filter, IsTop;
    forall v | v in windows && q.Covers(v) && v != pool[m].event.world && InWorld(pool[..m], v) != []
      ensures v in positions && Iterating(windows[v], q, pool, m, v, positions[v], Count(taken, v))
    {
      SplitWorld(pool, m, v);
      IteratingElsewhere(windows[v], q, pool, m, v, positions[v], Count(taken, v));
    }
  }

  /** One round: `pool[m]` leaves the heap and the next older event of its world, if any
      may still be taken, enters it. */
  lemma {:induction false} MergeStep(windows: map<World, seq<Sequenced>>, q: Query, k: nat, pool: seq<Sequenced>, m: nat,
                                     heap: set<Sequenced>, positions: map<World, nat>, taken: Tally,
                                     following: Option<Sequenced>, position: nat)
    requires Pools(windows, q, k, pool) && m < |pool|
    requires Merging(windows, q, pool, m + 1, heap, positions, taken)
    requires var w := pool[m].event.world;
      && w in windows && w in positions
      && Iterating(windows[w], q, pool, m + 1, w, positions[w], Count(taken, w))
      && position <= |windows[w]|
      && (following.None? ==> Count(taken, w) + 1 >= k || Accepted(windows[w][..positions[w]], q) == [])
      && (following.Some? ==> Count(taken, w) + 1 < k)
      && (following.Some? ==> Accepted(windows[w][..positions[w]], q) == Accepted(windows[w][..position], q) + [following.value])
    ensures var w := pool[m].event.world;
      var heap' := heap - {pool[m]};
      && (following.None? ==> Merging(windows, q, pool, m, heap', positions, Bump(taken, w)))
      && (following.Some? ==> Merging(windows, q, pool, m, heap' + {following.value}, positions[w := position], Bump(taken, w)))
  {
    hide Filter;
    var w := pool[m].event.world;
    NextTop(windows, q, k, pool, m, positions[w], Count(taken, w));
    OthersUntouched(windows, q, pool, m, heap, positions, taken);
    if following.Some? {
      assert Iterating(windows[w], q, pool, m, w, position, Count(taken, w) + 1);
      TopsAfterPop(pool, m, heap, heap - {pool[m]} + {following.value});
    } else {
      TopsAfterPop(pool, m, heap, heap - {pool[m]});
    }
    hide IsTop, Pools, Iterating, InWorld, Accepted;
  }

  lemma {:induction false} ReverseStep(pool: seq<Sequenced>, m: nat)
    requires m < |pool|
    ensures Reverse(pool[m..]) == Reverse(pool[m + 1..]) + [pool[m]]
  {
  }

  /** With events left, popping yields the newest of them, and its world's iterator is live. */
  lemma {:induction false} PopIsNewest(windows: map<World, seq<Sequenced>>, q: Query, k: nat, pool: seq<Sequenced>, m: nat,
                                       heap: set<Sequenced>, positions: map<World, nat>, taken: Tally)
    requires Pools(windows, q, k, pool) && heap != {} && Merging(windows, q, pool, m, heap, positions, taken)
    ensures 0 < m && pool[m - 1] in heap
    ensures forall x :: x in heap && x.cursor >= pool[m - 1].cursor ==> x == pool[m - 1]
    ensures var w := pool[m - 1].event.world;
      w in windows && w in positions && Iterating(windows[w], q, pool, m, w, positions[w], Count(taken, w))
  {
    hide Filter;
    if m == 0 {
      TopsOfNothing(heap);
      assert false;
    }
    NewestIsTop(pool, m, heap);
    assert pool[m - 1] in pool;
    SplitWorld(pool, m - 1, pool[m - 1].event.world);
  }

  lemma {:induction false} EmptyHeap(windows: map<World, seq<Sequenced>>, q: Query, k: nat, pool: seq<Sequenced>,
                                     m: nat, positions: map<World, nat>, taken: Tally)
    requires Pools(windows, q, k, pool) && Merging(windows, q, pool, m, {}, positions, taken)
    ensures m == 0
  {
    hide Filter;
    if m > 0 {
      NewestIsTop(pool, m, {});
      assert false;
    }
  }

  method PopMerged(windows: map<World, seq<Sequenced>>, q: Query, k: nat, heap: set<Sequenced>, positions: map<World, nat>,
                   taken: Tally, ghost pool: seq<Sequenced>, ghost m: nat)
    returns (item: Sequenced, rest: set<Sequenced>)
    requires Pools(windows, q, k, pool) && heap != {} && Merging(windows, q, pool, m, heap, positions, taken)
    ensures 0 < m && item == pool[m - 1] && rest == heap - {item}
    ensures var w := item.event.world;
      w in windows && w in positions && Iterating(windows[w], q, pool, m, w, positions[w], Count(taken, w))
  {
    hide Filter;
    PopIsNewest(windows, q, k, pool, m, heap, positions, taken);
    item, rest := PopNewest(heap);
  }

  /** The end of one round of the merge: count the event and push the next of its world. */
  method PushFollowing(windows: map<World, seq<Sequenced>>, q: Query, k: nat, item: Sequenced, ghost heap0: set<Sequenced>,
                       rest: set<Sequenced>, positions0: map<World, nat>, taken0: Tally,
                       ghost pool: seq<Sequenced>, ghost m: nat)
    returns (heap: set<Sequenced>, positions: map<World, nat>, taken: Tally)
    requires Pools(windows, q, k, pool) && m < |pool| && item == pool[m] && rest == heap0 - {item}
    requires Merging(windows, q, pool, m + 1, heap0, positions0, taken0)
    requires item.event.world in windows && item.event.world in positions0
    requires Iterating(windows[item.event.world], q, pool, m + 1, item.event.world, positions0[item.event.world], Count(taken0, item.event.world))
    ensures Merging(windows, q, pool, m, heap, positions, taken)
  {
    hide Filter;
    var w := item.event.world;
    heap, positions := rest, positions0;
    taken := Bump(taken0, w);
    if Count(taken, w) < k {
      var following, position := NextAccepted(windows[w], positions[w], q);
      MergeStep(windows, q, k, pool, m, heap0, positions0, taken0, following, position);
      if following.Some? {
        heap := heap + {following.value};
        positions := positions[w := position];
      }
    } else {
      MergeStep(windows, q, k, pool, m, heap0, positions0, taken0, None, 0);
    }
  }

  /** The per-world branch of `subscribe`: the heap merge keeps exactly the longest run of
      newest events that the simple rule allows. */
  method MergeNewest(windows: map<World, seq<Sequenced>>, q: Query, k: nat, count: Option<nat>, bytes: Option<nat>,
                     size: Event -> nat, ghost pool: seq<Sequenced>)
    returns (retained: seq<Sequenced>)
    requires 1 <= k && Pools(windows, q, k, pool)
    ensures retained == NewestWithin(pool, count, bytes, size)
  {
    hide Filter, Merging, Pools, Weight, NewestWithin, Reverse;
    StartOfMerge(pool, count, bytes, size);
    var heap, positions := SeedHeap(windows, q, k, pool);
    var taken: Tally := map[];
    var used: nat := 0;
    retained := [];
    ghost var m: nat := |pool|;
    while heap != {}
      invariant Merging(windows, q, pool, m, heap, positions, taken)
      invariant retained == Reverse(pool[m..])
      invariant used == Weight(pool[m..], size)
      invariant Fits(pool[m..], count, bytes, size)
      decreases m
    {
      if count.Some? && |retained| >= count.value {
        LongestRun(pool, m, count, bytes, size);
        return Reverse(retained);
      }
      var item, rest := PopMerged(windows, q, k, heap, positions, taken, pool, m);
      WeightStep(pool, m - 1, size);
      if bytes.Some? && used + size(item.event) > bytes.value {
        LongestRun(pool, m, count, bytes, size);
        return Reverse(retained);
      }
      ReverseStep(pool, m - 1);
      retained := retained + [item];
      used := used + size(item.event);
      heap, positions, taken := PushFollowing(windows, q, k, item, heap, rest, positions, taken, pool, m - 1);
      m := m - 1;
    }
    EmptyHeap(windows, q, k, pool, m, positions, taken);
    LongestRun(pool, m, count, bytes, size);
    retained := Reverse(retained);
  }

  /** The branches without a per-world limit: the newest `count` candidates by cursor. No
      byte budget is consulted there. */
  method NewestByCursor(candidates: set<Sequenced>, count: Option<nat>, size: Event -> nat, ghost pool: seq<Sequenced>)
    returns (retained: seq<Sequenced>)
    requires Ascending(pool) && forall x :: x in candidates <==> x in pool
    ensures retained == NewestWithin(pool, count, None, size)
  {
    hide Weight, NewestWithin;
    var left := candidates;
    ghost var m: nat := |pool|;
    retained := [];
    while left != {} && (count.None? || |retained| < count.value)
      invariant m <= |pool| && retained == pool[m..]
      invariant forall x :: x in left <==> x in pool[..m]
      invariant count.Some? ==> |retained| <= count.value
      decreases m
    {
      NewestOfRest(pool, m, left);
      var newest, rest := PopNewest(left);
      assert newest == pool[m - 1] && [pool[m - 1]] + pool[m..] == pool[m - 1..];
      retained := [newest] + retained;
      left := rest;
      m := m - 1;
    }
    if m > 0 {
      assert pool[m - 1] in pool[..m];
    }
    LongestRun(pool, m, count, None, size);
  }

  lemma {:induction false} NewestOfRest(pool: seq<Sequenced>, m: nat, left: set<Sequenced>)
    requires m <= |pool| && Ascending(pool) && left != {} && forall x :: x in left <==> x in pool[..m]
    ensures 0 < m && pool[m - 1] in left
    ensures forall x :: x in left && x.cursor >= pool[m - 1].cursor ==> x == pool[m - 1]
    ensures forall x :: x in left && x != pool[m - 1] ==> x in pool[..m - 1]
    ensures forall x :: x in pool[..m - 1] ==> x in left && x != pool[m - 1]
  {
    if m == 0 {
      assert false;
    }
    assert pool[..m] == pool[..m - 1] + [pool[m - 1]];
    assert pool[m - 1] in pool[..m];
    assert forall x :: x in pool[..m - 1] ==> x.cursor < pool[m - 1].cursor;
  }
}
