/** What a history snapshot holds, in terms of the events alone (`src/tfr/gateway.py`). */
module SnapshotMeaning {
  import opened Wrappers
  import opened Sequences
  import opened EventLog
  import opened Snapshot
  import opened SnapshotCounts

  // ----------------------------------------------------------- the newest of a sequence

  /** The events of `s` that are newer than `x`. */
  function Newer(s: seq<Sequenced>, x: Sequenced): set<Sequenced> { set y | y in s && y.cursor > x.cursor }

  function Members(s: seq<Sequenced>): set<Sequenced> { set y | y in s }

  lemma {:induction false} MembersCounted(s: seq<Sequenced>)
    requires Ascending(s)
    ensures |Members(s)| == |s|
  {
    if s != [] {
      LastIsGreatest(s);
      var init, x := s[..|s| - 1], s[|s| - 1];
      MembersCounted(init);
      assert Members(s) == Members(init) + {x} && x !in Members(init);
    }
  }

  lemma {:induction false} NewerCounted(s: seq<Sequenced>, i: nat)
    requires Ascending(s) && i < |s|
    ensures |Newer(s, s[i])| == |s| - 1 - i
  {
    var rest := s[i + 1..];
    assert forall j :: 0 <= j < |rest| ==> rest[j] == s[i + 1 + j];
    MembersCounted(rest);
    assert Newer(s, s[i]) == Members(rest) by {
      forall y | y in Newer(s, s[i]) ensures y in Members(rest) {
        var j :| 0 <= j < |s| && s[j] == y;
        assert rest[j - i - 1] == y;
      }
    }
  }

  lemma {:induction false} InSuffix(s: seq<Sequenced>, cut: nat, i: nat)
    requires Ascending(s) && cut <= |s| && i < |s|
    ensures s[i] in s[cut..] <==> i >= cut
  {
    if i >= cut {
      assert s[cut..][i - cut] == s[i];
    } else {
      forall j | 0 <= j < |s| - cut ensures s[cut..][j] != s[i] {
        assert s[cut..][j] == s[cut + j];
      }
    }
  }

  lemma {:induction false} NewestAreSuffix(s: seq<Sequenced>, k: nat)
    ensures LastN(s, k) == s[if |s| <= k then 0 else |s| - k..]
  {
  }

  /** The newest `k` are those with fewer than `k` newer ones. */
  lemma {:induction false} InNewest(s: seq<Sequenced>, k: nat, x: Sequenced)
    requires Ascending(s)
    ensures x in LastN(s, k) <==> x in s && |Newer(s, x)| < k
  {
    hide LastN, Newer;
    NewestAreSuffix(s, k);
    var cut := if |s| <= k then 0 else |s| - k;
    if x in s {
      var i :| 0 <= i < |s| && s[i] == x;
      NewerCounted(s, i);
      InSuffix(s, cut, i);
    } else {
      assert forall y :: y in s[cut..] ==> y in s;
    }
  }

  // ------------------------------------------------------------------- retained events

  /** The newer events of the same world. */
  function NewerOfWorld(log: Log, x: Sequenced): set<Sequenced> {
    set y | y in log && y.event.world == x.event.world && y.cursor > x.cursor
  }

  /** The history still holds an event of the log: fewer newer ones of its world than its
      world's own limit, or the default one, exist. */
  ghost predicate Held(log: Log, limits: Limits, x: Sequenced) {
    && x in log
    && |NewerOfWorld(log, x)| < if x.event.world in limits.perWorld then limits.perWorld[x.event.world] else limits.default
  }

  lemma {:induction false} RetainedIs(log: Log, limits: Limits, x: Sequenced)
    requires Numbered(log)
    ensures x in log && Retained(log, limits, x) <==> Held(log, limits, x)
  {
    var w := x.event.world;
    WindowIsRetained(log, limits, w);
    WorldIsAscending(log, w);
    hide Retained, InWorld, Numbered;
    assert Newer(InWorld(log, w), x) == NewerOfWorld(log, x);
    InNewest(InWorld(log, w), limits.Of(w), x);
  }

  /** What a request accepts: a wanted world, the Gateway's projection, its own filter, and
      later than its cursor. */
  ghost predicate Meets(worlds: Option<set<World>>, projection: Event -> bool, filter: Event -> bool, after: Option<nat>, x: Sequenced) {
    && (worlds.None? || x.event.world in worlds.value)
    && projection(x.event) && filter(x.event)
    && (after.None? || x.cursor > after.value)
  }

  /** Exactly the held events that meet the request are candidates, in order. */
  lemma {:induction false} CandidatesMeet(log: Log, limits: Limits, worlds: Option<set<World>>, projection: Event -> bool,
                                          filter: Event -> bool, after: Option<nat>)
    requires Numbered(log)
    ensures var candidates := Candidates(log, limits, Query(worlds, projection, filter, after));
      && Ascending(candidates)
      && forall x :: x in candidates <==> Held(log, limits, x) && Meets(worlds, projection, filter, after, x)
  {
    var q := Query(worlds, projection, filter, after);
    CandidatesAre(log, limits, q);
    forall x ensures x in Candidates(log, limits, q) <==> Held(log, limits, x) && Meets(worlds, projection, filter, after, x) {
      RetainedIs(log, limits, x);
    }
  }

  // ------------------------------------------------------------------------- selection

  /** The candidates of the same world that are newer. */
  function NewerCandidates(candidates: seq<Sequenced>, x: Sequenced): set<Sequenced> {
    set y | y in candidates && y.event.world == x.event.world && y.cursor > x.cursor
  }

  /** A candidate that a per-world limit leaves. */
  ghost predicate Eligible(candidates: seq<Sequenced>, perWorld: Option<nat>, x: Sequenced) {
    x in candidates && (perWorld.None? || |NewerCandidates(candidates, x)| < perWorld.value)
  }

  lemma {:induction false} CappedIs(candidates: seq<Sequenced>, k: nat, x: Sequenced)
    requires Ascending(candidates)
    ensures x in CapWorlds(candidates, k, map[]) <==> Eligible(candidates, Some(k), x)
  {
    var w := x.event.world;
    CapWorldsKeepsNewest(candidates, k, map[], w);
    FilterMember(CapWorlds(candidates, k, map[]), Inside(w));
    FilterMember(candidates, Inside(w));
    FilterAscending(candidates, Inside(w));
    hide CapWorlds, Filter;
    InNewest(InWorld(candidates, w), k, x);
    assert Newer(InWorld(candidates, w), x) == NewerCandidates(candidates, x);
  }

  /** What every event takes, together. */
  function TotalSize(s: seq<Sequenced>, size: Event -> nat): nat {
    if s == [] then 0 else TotalSize(s[1..], size) + size(s[0].event)
  }

  lemma {:induction false} TotalSizeIs(s: seq<Sequenced>, size: Event -> nat)
    ensures TotalSize(s, size) == Weight(s, size)
  {
    if s != [] {
      TotalSizeIs(s[1..], size);
    }
  }

  ghost predicate NewestOutside(all: iset<Sequenced>, events: seq<Sequenced>, y: Sequenced) {
    y in all && y !in events && forall z :: z in all && z !in events ==> z.cursor <= y.cursor
  }

  /** `events` are the newest of `all` that the limits leave room for: a newest part of it,
      within both limits, and with the next older event no longer so. */
  ghost predicate NewestFitting(all: iset<Sequenced>, events: seq<Sequenced>, count: Option<nat>, bytes: Option<nat>, size: Event -> nat) {
    && Ascending(events)
    && (forall x :: x in events ==> x in all)
    && (forall x, y :: x in events && y in all && y !in events ==> y.cursor < x.cursor)
    && (count.Some? ==> |events| <= count.value) && (bytes.Some? ==> TotalSize(events, size) <= bytes.value)
    && (forall y :: NewestOutside(all, events, y) ==>
          (count.Some? && |events| == count.value) || (bytes.Some? && TotalSize(events, size) + size(y.event) > bytes.value))
  }

  lemma {:induction false} SuffixIsNewest(s: seq<Sequenced>, cut: nat)
    requires Ascending(s) && cut <= |s|
    ensures forall x, y :: x in s[cut..] && y in s && y !in s[cut..] ==> y.cursor < x.cursor
  {
    forall x, y | x in s[cut..] && y in s && y !in s[cut..] ensures y.cursor < x.cursor {
      var i :| 0 <= i < |s| - cut && s[cut..][i] == x;
      var j :| 0 <= j < |s| && s[j] == y;
      assert s[cut + i] == x;
      InSuffix(s, cut, j);
    }
  }

  lemma {:induction false} NewestWithinFits(s: seq<Sequenced>, count: Option<nat>, bytes: Option<nat>, size: Event -> nat)
    requires Ascending(s)
    ensures NewestFitting((iset x | x in s), NewestWithin(s, count, bytes, size), count, bytes, size)
  {
    hide NewestWithin, TotalSize, Ascending, Fits;
    var r := NewestWithin(s, count, bytes, size);
    NewestWithinIsSuffix(s, count, bytes, size);
    NewestWithinIsLongest(s, count, bytes, size, |r|);
    RoomLeft(r, count, bytes, size);
    SuffixAscending(s, |s| - |r|);
    SuffixIsNewest(s, |s| - |r|);
    hide NewestOutside;
    forall y | NewestOutside((iset x | x in s), r, y)
      ensures (count.Some? && |r| == count.value) || (bytes.Some? && TotalSize(r, size) + size(y.event) > bytes.value)
    {
      NoRoomForNext(s, count, bytes, size, y);
    }
  }

  lemma {:induction false} RoomLeft(r: seq<Sequenced>, count: Option<nat>, bytes: Option<nat>, size: Event -> nat)
    requires Fits(r, count, bytes, size)
    ensures (count.Some? ==> |r| <= count.value) && (bytes.Some? ==> TotalSize(r, size) <= bytes.value)
  {
    TotalSizeIs(r, size);
  }

  lemma {:induction false} NoRoomForNext(s: seq<Sequenced>, count: Option<nat>, bytes: Option<nat>, size: Event -> nat, y: Sequenced)
    requires Ascending(s) && NewestOutside((iset x | x in s), NewestWithin(s, count, bytes, size), y)
    ensures var r := NewestWithin(s, count, bytes, size);
      (count.Some? && |r| == count.value) || (bytes.Some? && TotalSize(r, size) + size(y.event) > bytes.value)
  {
    hide NewestWithin, TotalSize, Ascending, Fits;
    var r := NewestWithin(s, count, bytes, size);
    var cut := |s| - |r|;
    NewestWithinIsSuffix(s, count, bytes, size);
    NextOlderIs(s, cut, y);
    NewestWithinIsLongest(s, count, bytes, size, |r|);
    NewestWithinIsLongest(s, count, bytes, size, |r| + 1);
    NextDoesNotFit(s, cut, count, bytes, size);
  }

  /** The newest event outside a newest part stands right before it. */
  lemma {:induction false} NextOlderIs(s: seq<Sequenced>, cut: nat, y: Sequenced)
    requires Ascending(s) && cut <= |s| && y in s && y !in s[cut..]
    requires forall z :: z in s && z !in s[cut..] ==> z.cursor <= y.cursor
    ensures cut > 0 && s[cut - 1] == y
  {
    var j :| 0 <= j < |s| && s[j] == y;
    InSuffix(s, cut, j);
    InSuffix(s, cut, cut - 1);
    assert s[cut - 1] in s;
  }

  lemma {:induction false} NextDoesNotFit(s: seq<Sequenced>, cut: nat, count: Option<nat>, bytes: Option<nat>, size: Event -> nat)
    requires 0 < cut <= |s| && Fits(s[cut..], count, bytes, size) && !Fits(s[cut - 1..], count, bytes, size)
    ensures (count.Some? && |s[cut..]| == count.value) || (bytes.Some? && TotalSize(s[cut..], size) + size(s[cut - 1].event) > bytes.value)
  {
    assert s[cut - 1..][1..] == s[cut..];
    TotalSizeIs(s[cut..], size);
  }

  /** What a snapshot selects: nothing when no history is wanted; with a per-world limit the
      newest eligible events within both limits; without one the newest candidates within the
      limit on their number, whatever they take. */
  lemma {:induction false} SelectionMeans(candidates: seq<Sequenced>, includeHistory: bool, perWorld: Option<nat>, count: Option<nat>,
                                          bytes: Option<nat>, size: Event -> nat)
    requires Ascending(candidates)
    ensures var events := SnapshotEvents(candidates, Budget(includeHistory, perWorld, count, bytes, size));
      if !includeHistory then events == []
      else NewestFitting((iset x | Eligible(candidates, perWorld, x)), events, count, if perWorld.Some? then bytes else None, size)
  {
    if perWorld.Some? {
      var capped := CapWorlds(candidates, perWorld.value, map[]);
      CapWorldsAscending(candidates, perWorld.value, map[]);
      hide CapWorlds, NewestWithin;
      NewestWithinFits(capped, count, bytes, size);
      forall x ensures x in capped <==> Eligible(candidates, perWorld, x) {
        CappedIs(candidates, perWorld.value, x);
      }
      assert (iset x | x in capped) == (iset x | Eligible(candidates, perWorld, x));
    } else {
      hide NewestWithin;
      NewestWithinFits(candidates, count, None, size);
      assert (iset x | x in candidates) == (iset x | Eligible(candidates, perWorld, x));
    }
  }

  // ---------------------------------------------------------------------------- counts

  lemma {:induction false} FilterCounted(s: seq<Sequenced>, p: Sequenced -> bool)
    requires Ascending(s)
    ensures |Filter(s, p)| == |set x | x in s && p(x)|
  {
    FilterAscending(s, p);
    FilterMember(s, p);
    MembersCounted(Filter(s, p));
    assert Members(Filter(s, p)) == set x | x in s && p(x);
  }

  /** The projected events of one generation of a world whose kind and actor pass. */
  ghost function CountedEvents(log: Log, projection: Event -> bool, classes: ((EventKind, Option<ActorType>)) -> bool, w: World, g: nat): set<Sequenced> {
    set x | x in log && x.event.world == w && x.event.generation == g && projection(x.event) && classes((x.event.kind, x.event.actorType))
  }

  lemma {:induction false} AvailableIs(log: Log, projection: Event -> bool, classes: EventClass -> bool, w: World, g: nat)
    requires Numbered(log)
    ensures |Filter(InWorld(log, w), Matching(projection, g, classes))| == |CountedEvents(log, projection, classes, w, g)|
  {
    WorldIsAscending(log, w);
    FilterCounted(InWorld(log, w), Matching(projection, g, classes));
    assert (set x | x in InWorld(log, w) && Matching(projection, g, classes)(x)) == CountedEvents(log, projection, classes, w, g);
  }
}
