/** The counters `EventHistory.subscribe` keeps beside the snapshot: how many candidate
    events there are, per world and connection generation, and which of those keys the
    snapshot leaves incomplete. */
module SnapshotCounts {
  import opened Sequences
  import opened EventLog
  import opened Snapshot

  /** A world and one of its connection generations. */
  type Key = (World, nat)

  function KeyOf(x: Sequenced): Key { (x.event.world, x.event.generation) }

  function WithKey(k: Key): Sequenced -> bool { (x: Sequenced) => KeyOf(x) == k }

  function KeyCount(s: seq<Sequenced>, k: Key): nat { |Filter(s, WithKey(k))| }

  type KeyTally = map<Key, nat>

  function CountKey(t: KeyTally, k: Key): nat { if k in t then t[k] else 0 }

  function BumpKey(t: KeyTally, k: Key): (r: KeyTally)
    ensures forall j :: CountKey(r, j) == if j == k then CountKey(t, j) + 1 else CountKey(t, j)
  {
    t[k := CountKey(t, k) + 1]
  }

  function InWorlds(ws: set<World>): Sequenced -> bool { (x: Sequenced) => x.event.world in ws }

  lemma {:induction false} KeyCountSnoc(s: seq<Sequenced>, x: Sequenced, k: Key)
    ensures KeyCount(s + [x], k) == if KeyOf(x) == k then KeyCount(s, k) + 1 else KeyCount(s, k)
  {
    hide Filter;
    FilterSnoc(s, x, WithKey(k));
  }

  /** `Counter(key of item for item in s)`. */
  method Tallied(s: seq<Sequenced>) returns (t: KeyTally)
    ensures forall k :: CountKey(t, k) == KeyCount(s, k)
  {
    t := map[];
    assert forall k :: KeyCount([], k) == 0;
    hide Filter;
    for i := 0 to |s|
      invariant forall k :: CountKey(t, k) == KeyCount(s[..i], k)
    {
      assert s[..i + 1] == s[..i] + [s[i]];
      forall k ensures KeyCount(s[..i + 1], k) == if KeyOf(s[i]) == k then KeyCount(s[..i], k) + 1 else KeyCount(s[..i], k) {
        KeyCountSnoc(s[..i], s[i], k);
      }
      t := BumpKey(t, KeyOf(s[i]));
      hide KeyCount, BumpKey, CountKey;
    }
    assert s[..|s|] == s;
  }

  /** One world's part of the candidate count. */
  method CountWindow(window: seq<Sequenced>, q: Query, w: World, count0: nat, tally0: KeyTally)
    returns (count: nat, tally: KeyTally)
    requires forall x :: x in window ==> x.event.world == w
    ensures count == count0 + |Accepted(window, q)|
    ensures forall k :: CountKey(tally, k) == CountKey(tally0, k) + KeyCount(Accepted(window, q), k)
  {
    count, tally := count0, tally0;
    NoneAccepted(q);
    hide Accepted, KeyCount, BumpKey, CountKey;
    for i := 0 to |window|
      invariant count == count0 + |Accepted(window[..i], q)|
      invariant forall k :: CountKey(tally, k) == CountKey(tally0, k) + KeyCount(Accepted(window[..i], q), k)
    {
      assert window[..i + 1] == window[..i] + [window[i]];
      OneMoreAccepted(window[..i], window[i], q);
      if q.Accepts(window[i]) {
        count := count + 1;
        tally := BumpKey(tally, KeyOf(window[i]));
      }
    }
    assert window[..|window|] == window;
  }

  lemma {:induction false} NoneAccepted(q: Query)
    ensures |Accepted([], q)| == 0 && forall k :: KeyCount(Accepted([], q), k) == 0
  {
  }

  lemma {:induction false} OneMoreAccepted(s: seq<Sequenced>, x: Sequenced, q: Query)
    ensures |Accepted(s + [x], q)| == if q.Accepts(x) then |Accepted(s, q)| + 1 else |Accepted(s, q)|
    ensures forall k ::
      KeyCount(Accepted(s + [x], q), k) == KeyCount(Accepted(s, q), k) + if q.Accepts(x) && KeyOf(x) == k then 1 else 0
  {
    hide Filter, KeyCount;
    FilterSnoc(s, x, Accepting(q));
    forall k ensures KeyCount(Accepted(s, q) + [x], k) ==
        if KeyOf(x) == k then KeyCount(Accepted(s, q), k) + 1 else KeyCount(Accepted(s, q), k)
    {
      KeyCountSnoc(Accepted(s, q), x, k);
    }
  }

  /** Adding one world to those counted so far. */
  lemma {:induction false} WorldCounted(candidates: seq<Sequenced>, done: set<World>, w: World)
    requires w !in done
    ensures |Filter(candidates, InWorlds(done + {w}))| == |Filter(candidates, InWorlds(done))| + |InWorld(candidates, w)|
    ensures forall k ::
      KeyCount(Filter(candidates, InWorlds(done + {w})), k) ==
      KeyCount(Filter(candidates, InWorlds(done)), k) + KeyCount(InWorld(candidates, w), k)
  {
    hide Filter;
    FilterSplitCount(candidates, InWorlds(done), Inside(w), InWorlds(done + {w}));
    forall k ensures KeyCount(Filter(candidates, InWorlds(done + {w})), k) ==
      KeyCount(Filter(candidates, InWorlds(done)), k) + KeyCount(InWorld(candidates, w), k)
    {
      var a := (x: Sequenced) => x.event.world in done && KeyOf(x) == k;
      var b := (x: Sequenced) => x.event.world == w && KeyOf(x) == k;
      var c := (x: Sequenced) => x.event.world in done + {w} && KeyOf(x) == k;
      FilterTwice(candidates, InWorlds(done), WithKey(k), a);
      FilterTwice(candidates, Inside(w), WithKey(k), b);
      FilterTwice(candidates, InWorlds(done + {w}), WithKey(k), c);
      FilterSplitCount(candidates, a, b, c);
    }
  }

  /** `count` and `tally` are the counters of the candidates from the worlds in `done`. */
  ghost predicate Counted(candidates: seq<Sequenced>, done: set<World>, count: nat, tally: KeyTally) {
    && count == |Filter(candidates, InWorlds(done))|
    && forall k :: CountKey(tally, k) == KeyCount(Filter(candidates, InWorlds(done)), k)
  }

  lemma {:induction false} CountedEnds(candidates: seq<Sequenced>, done: set<World>, count: nat, tally: KeyTally)
    ensures Counted(candidates, {}, 0, map[])
    ensures Counted(candidates, done, count, tally) && (forall x :: x in candidates ==> x.event.world in done) ==>
      count == |candidates| && forall k :: CountKey(tally, k) == KeyCount(candidates, k)
  {
    FilterNone(candidates, InWorlds({}));
    assert forall k :: KeyCount([], k) == 0;
    if forall x :: x in candidates ==> x.event.world in done {
      FilterAll(candidates, InWorlds(done));
    }
    hide Filter;
  }

  lemma {:induction false} CountedStep(candidates: seq<Sequenced>, done: set<World>, w: World, accepted: seq<Sequenced>,
                                       count: nat, tally: KeyTally, count': nat, tally': KeyTally)
    requires Counted(candidates, done, count, tally) && w !in done
    requires accepted == InWorld(candidates, w)
    requires count' == count + |accepted|
    requires forall k :: CountKey(tally', k) == CountKey(tally, k) + KeyCount(accepted, k)
    ensures Counted(candidates, done + {w}, count', tally')
  {
    hide Filter, KeyCount;
    WorldCounted(candidates, done, w);
  }

  /** One world's window, skipped when its world is not asked for. */
  method CountWorld(window: seq<Sequenced>, q: Query, w: World, count0: nat, tally0: KeyTally) returns (count: nat, tally: KeyTally)
    requires forall x :: x in window ==> x.event.world == w
    ensures count == count0 + |Accepted(window, q)|
    ensures forall k :: CountKey(tally, k) == CountKey(tally0, k) + KeyCount(Accepted(window, q), k)
  {
    if q.Covers(w) {
      count, tally := CountWindow(window, q, w, count0, tally0);
    } else {
      FilterNone(window, Accepting(q));
      count, tally := count0, tally0;
    }
  }

  /** The candidate counters over all worlds. */
  method CountCandidates(windows: map<World, seq<Sequenced>>, q: Query, ghost candidates: seq<Sequenced>)
    returns (count: nat, tally: KeyTally)
    requires forall w, x :: w in windows && x in windows[w] ==> x.event.world == w
    requires forall w :: w in windows ==> InWorld(candidates, w) == Accepted(windows[w], q)
    requires forall x :: x in candidates ==> x.event.world in windows
    ensures count == |candidates|
    ensures forall k :: CountKey(tally, k) == KeyCount(candidates, k)
  {
    hide Filter, KeyCount, CountKey, Counted, InWorld, Accepted;
    count, tally := 0, map[];
    CountedEnds(candidates, {}, 0, map[]);
    var todo := windows.Keys;
    ghost var done: set<World> := {};
    while todo != {}
      invariant done + todo == windows.Keys && done !! todo
      invariant Counted(candidates, done, count, tally)
      decreases |todo|
    {
      var w :| w in todo;
      ghost var count0, tally0 := count, tally;
      count, tally := CountWorld(windows[w], q, w, count, tally);
      CountedStep(candidates, done, w, Accepted(windows[w], q), count0, tally0, count, tally);
      todo, done := todo - {w}, done + {w};
    }
    assert done == windows.Keys;
    CountedEnds(candidates, done, count, tally);
  }

  /** A key has more candidates than snapshot events exactly when one was left out. */
  lemma {:induction false} LeftOut(candidates: seq<Sequenced>, kept: seq<Sequenced>, k: Key)
    requires Ascending(candidates) && Ascending(kept)
    requires forall x :: x in kept ==> x in candidates
    ensures KeyCount(candidates, k) > KeyCount(kept, k) <==> exists x :: x in candidates && KeyOf(x) == k && x !in kept
  {
    hide Filter;
    var isKept := (x: Sequenced) => x in kept;
    var keptKey := (x: Sequenced) => x in kept && KeyOf(x) == k;
    var leftKey := (x: Sequenced) => x !in kept && KeyOf(x) == k;
    FilterMember(candidates, isKept);
    FilterAscending(candidates, isKept);
    AscendingUnique(Filter(candidates, isKept), kept);
    FilterTwice(candidates, isKept, WithKey(k), keptKey);
    FilterSplitCount(candidates, keptKey, leftKey, WithKey(k));
    FilterEmpty(candidates, leftKey);
  }

  /** There are more candidates than snapshot events exactly when one was left out. */
  lemma {:induction false} LeftOutAny(candidates: seq<Sequenced>, kept: seq<Sequenced>)
    requires Ascending(candidates) && Ascending(kept)
    requires forall x :: x in kept ==> x in candidates
    ensures |candidates| > |kept| <==> exists x :: x in candidates && x !in kept
  {
    hide Filter;
    var isKept := (x: Sequenced) => x in kept;
    var isLeft := (x: Sequenced) => x !in kept;
    var all := (x: Sequenced) => true;
    FilterMember(candidates, isKept);
    FilterAscending(candidates, isKept);
    AscendingUnique(Filter(candidates, isKept), kept);
    FilterSplitCount(candidates, isKept, isLeft, all);
    FilterAll(candidates, all);
    FilterEmpty(candidates, isLeft);
  }

  /** An event of generation `g` whose class passes `classes`. */
  function Matching(projection: Event -> bool, g: nat, classes: EventClass -> bool): Sequenced -> bool {
    (x: Sequenced) => projection(x.event) && x.event.generation == g && classes(x.event.Class())
  }

  function OfClass(projection: Event -> bool, g: nat, c: EventClass): Sequenced -> bool {
    (x: Sequenced) => projection(x.event) && x.event.generation == g && x.event.Class() == c
  }

  type ClassCounts = map<EventClass, nat>

  function CountOf(counts: ClassCounts, c: EventClass): nat { if c in counts then counts[c] else 0 }

  /** `sum(count for class, count in counts if class passes)`: the number of matching events. */
  method SumMatching(counts: ClassCounts, classes: EventClass -> bool, projection: Event -> bool, g: nat,
                     ghost s: seq<Sequenced>)
    returns (total: nat)
    requires forall c :: CountOf(counts, c) == |Filter(s, OfClass(projection, g, c))|
    ensures total == |Filter(s, Matching(projection, g, classes))|
  {
    total := 0;
    ghost var seen := (done: set<EventClass>) =>
      ((x: Sequenced) => projection(x.event) && x.event.generation == g && classes(x.event.Class()) && x.event.Class() in done);
    FilterNone(s, seen({}));
    hide Filter;
    var todo := counts.Keys;
    assert counts.Keys - todo == {};
    while todo != {}
      invariant todo <= counts.Keys
      invariant total == |Filter(s, seen(counts.Keys - todo))|
      decreases todo
    {
      var c :| c in todo;
      var done := counts.Keys - todo;
      assert done + {c} == counts.Keys - (todo - {c});
      if classes(c) {
        total := total + counts[c];
        assert CountOf(counts, c) == counts[c];
        FilterSplitCount(s, seen(done), OfClass(projection, g, c), seen(done + {c}));
      } else {
        FilterSame(s, seen(done), seen(done + {c}));
      }
      todo := todo - {c};
    }
    assert counts.Keys - todo == counts.Keys;
    forall x | x in s ensures seen(counts.Keys)(x) == Matching(projection, g, classes)(x) {
      FilterEmpty(s, OfClass(projection, g, x.event.Class()));
      assert OfClass(projection, g, x.event.Class())(x) ==> CountOf(counts, x.event.Class()) > 0;
    }
    FilterSame(s, seen(counts.Keys), Matching(projection, g, classes));
  }

  /** `oldest` is the least cursor among projected retained events of the covered worlds. */
  ghost predicate IsOldest(windows: map<World, seq<Sequenced>>, done: set<World>, q: Query, default: nat, oldest: nat) {
    && oldest <= default
    && (forall w, x :: w in done && w in windows && q.Covers(w) && x in windows[w] && q.projection(x.event) ==> oldest <= x.cursor)
    && (oldest < default ==> exists w, x :: w in done && w in windows && q.Covers(w) && x in windows[w] && q.projection(x.event) && x.cursor == oldest)
  }

  /** The least of `oldest` and the cursors of one window's projected events. */
  method OldestOf(window: seq<Sequenced>, projection: Event -> bool, oldest0: nat) returns (oldest: nat)
    ensures oldest <= oldest0
    ensures forall x :: x in window && projection(x.event) ==> oldest <= x.cursor
    ensures oldest < oldest0 ==> exists x :: x in window && projection(x.event) && x.cursor == oldest
  {
    oldest := oldest0;
    for i := 0 to |window|
      invariant oldest <= oldest0
      invariant forall j :: 0 <= j < i && projection(window[j].event) ==> oldest <= window[j].cursor
      invariant oldest < oldest0 ==> exists x :: x in window && projection(x.event) && x.cursor == oldest
    {
      if projection(window[i].event) && window[i].cursor < oldest {
        assert window[i] in window;
        oldest := window[i].cursor;
      }
    }
  }

  method OldestCursor(windows: map<World, seq<Sequenced>>, q: Query, default: nat) returns (oldest: nat)
    ensures IsOldest(windows, windows.Keys, q, default, oldest)
  {
    oldest := default;
    var todo := windows.Keys;
    while todo != {}
      invariant todo <= windows.Keys
      invariant IsOldest(windows, windows.Keys - todo, q, default, oldest)
      decreases todo
    {
      var w :| w in todo;
      if q.Covers(w) {
        oldest := OldestOf(windows[w], q.projection, oldest);
      }
      todo := todo - {w};
    }
    assert windows.Keys - todo == windows.Keys;
  }
}
