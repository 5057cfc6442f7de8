/** The Gateway's bounded event history: one global cursor, a bounded window per world, class
    counters and bounded queues. */
module EventHistory {
  import opened Wrappers
  import opened Sequences
  import opened EventLog
  import opened Snapshot
  import opened SnapshotCounts
  import opened SnapshotMeaning

  // `EventHistory` in `src/tfr/gateway.py`. The ghost `log` is everything ever ingested; `Valid`
  // ties every stored field to it. The counters describe each world's newest connection
  // generation.

  // ------------------------------------------------- counters and what they mean

  function Lookup<K, V>(m: map<K, V>, k: K): Option<V> { if k in m then Some(m[k]) else None }

  /** `entry` holds the newest generation in `s` and, per class, how many projected events
      of that generation `s` has. */
  ghost predicate CountsDescribe(s: seq<Sequenced>, projection: Event -> bool, entry: Option<(nat, ClassCounts)>) {
    match entry
    case None => s == []
    case Some((g, counts)) =>
      && (exists x :: x in s && x.event.generation == g)
      && (forall x :: x in s ==> x.event.generation <= g)
      && (forall c :: CountOf(counts, c) == |Filter(s, OfClass(projection, g, c))|)
  }

  /** `x` is a projected event of generation `g` and class `c`. */
  predicate Projected(projection: Event -> bool, x: Sequenced, g: nat, c: EventClass) {
    projection(x.event) && x.event.generation == g && x.event.Class() == c
  }

  /** `entry` holds the newest generation among the projected events of `s` and, per class,
      the last cursor of that generation. */
  ghost predicate LastDescribe(s: seq<Sequenced>, projection: Event -> bool, entry: Option<(nat, ClassCounts)>) {
    match entry
    case None => forall x :: x in s ==> !projection(x.event)
    case Some((g, last)) =>
      && (exists x :: x in s && projection(x.event) && x.event.generation == g)
      && (forall x :: x in s && projection(x.event) ==> x.event.generation <= g)
      && (forall x :: x in s && projection(x.event) && x.event.generation == g ==>
            x.event.Class() in last && x.cursor <= last[x.event.Class()])
      && (forall c :: c in last ==> exists x :: x in s && Projected(projection, x, g, c) && x.cursor == last[c])
  }

  /** Count one event, starting afresh when its generation is newer. */
  method CountEvent(entry: Option<(nat, ClassCounts)>, item: Sequenced, projection: Event -> bool,
                    ghost s: seq<Sequenced>)
    returns (r: (nat, ClassCounts))
    requires CountsDescribe(s, projection, entry)
    ensures CountsDescribe(s + [item], projection, Some(r))
  {
    var event := item.event;
    var generation, counts := event.generation, map[];
    if entry.Some? && event.generation <= entry.value.0 {
      generation, counts := entry.value.0, entry.value.1;
    }
    CountsRestart(s, projection, entry, event.generation);
    if projection(event) && event.generation == generation {
      counts := counts[event.Class() := CountOf(counts, event.Class()) + 1];
    }
    forall c ensures CountOf(counts, c) == |Filter(s + [item], OfClass(projection, generation, c))| {
      FilterSnoc(s, item, OfClass(projection, generation, c));
    }
    assert item in s + [item];
    forall x | x in s ensures x in s + [item] {}
    r := (generation, counts);
  }

  /** A generation newer than the recorded one has no events yet. */
  lemma {:induction false} CountsRestart(s: seq<Sequenced>, projection: Event -> bool, entry: Option<(nat, ClassCounts)>, g: nat)
    requires CountsDescribe(s, projection, entry)
    ensures entry.None? || g > entry.value.0 ==> forall c :: |Filter(s, OfClass(projection, g, c))| == 0
  {
    if entry.None? || g > entry.value.0 {
      forall c ensures |Filter(s, OfClass(projection, g, c))| == 0 {
        FilterNone(s, OfClass(projection, g, c));
      }
    }
  }

  /** Note one dropped event: only projected events of the newest dropped generation count. */
  method NoteDropped(entry: Option<(nat, ClassCounts)>, item: Sequenced, projection: Event -> bool,
                     ghost s: seq<Sequenced>)
    returns (r: Option<(nat, ClassCounts)>)
    requires LastDescribe(s, projection, entry) && Ascending(s + [item])
    ensures LastDescribe(s + [item], projection, r)
    ensures r.None? ==> entry.None?
  {
    r := entry;
    assert forall x :: x in s + [item] <==> x in s || x == item;
    if projection(item.event) {
      var generation, last := item.event.generation, map[];
      if entry.Some? && item.event.generation <= entry.value.0 {
        generation, last := entry.value.0, entry.value.1;
      }
      forall x | x in s ensures x.cursor < item.cursor {
        var i :| 0 <= i < |s| && s[i] == x;
        assert (s + [item])[i] == x && (s + [item])[|s|] == item;
      }
      if item.event.generation == generation {
        last := last[item.event.Class() := item.cursor];
      }
      LastNoted(s, projection, entry, item, generation, last);
      r := Some((generation, last));
    }
  }

  lemma {:induction false} LastNoted(s: seq<Sequenced>, projection: Event -> bool, entry: Option<(nat, ClassCounts)>,
                                     item: Sequenced, g: nat, last: ClassCounts)
    requires LastDescribe(s, projection, entry) && projection(item.event)
    requires forall x :: x in s ==> x.cursor < item.cursor
    requires g == if entry.Some? && item.event.generation <= entry.value.0 then entry.value.0 else item.event.generation
    requires var kept := if entry.Some? && item.event.generation <= entry.value.0 then entry.value.1 else map[];
      last == if item.event.generation == g then kept[item.event.Class() := item.cursor] else kept
    ensures LastDescribe(s + [item], projection, Some((g, last)))
  {
    var t := s + [item];
    assert forall x :: x in t <==> x in s || x == item;
    var kept := if entry.Some? && item.event.generation <= entry.value.0 then entry.value.1 else map[];
    forall c | c in last ensures exists x :: x in t && Projected(projection, x, g, c) && x.cursor == last[c] {
      if item.event.generation == g && c == item.event.Class() {
        assert item in t && Projected(projection, item, g, c);
      } else {
        assert c in kept;
        var x :| x in s && Projected(projection, x, g, c) && x.cursor == kept[c];
        assert x in t;
      }
    }
    if item.event.generation == g {
      assert item in t;
    } else {
      var x :| x in s && projection(x.event) && x.event.generation == g;
      assert x in t;
    }
  }

  // ------------------------------------------------------------- the stored state

  ghost predicate WindowsDescribe(log: Log, limits: Limits, history: map<World, seq<Sequenced>>) {
    forall w :: Lookup(history, w) == if InWorld(log, w) == [] then None else Some(Window(log, limits, w))
  }

  ghost predicate GenerationsDescribe(log: Log, projection: Event -> bool, generationCounts: map<World, (nat, ClassCounts)>) {
    forall w :: CountsDescribe(InWorld(log, w), projection, Lookup(generationCounts, w))
  }

  ghost predicate MarksDescribe(log: Log, limits: Limits, projection: Event -> bool, generationDropped: map<World, (nat, ClassCounts)>) {
    forall w :: LastDescribe(Dropped(log, limits, w), projection, Lookup(generationDropped, w))
  }

  /** `x` is a projected event that the history has dropped. */
  ghost predicate Lost(log: Log, limits: Limits, projection: Event -> bool, x: Sequenced) {
    x in Dropped(log, limits, x.event.world) && projection(x.event)
  }

  ghost predicate ThroughDescribes(log: Log, limits: Limits, projection: Event -> bool, droppedThrough: nat) {
    && (forall x :: Lost(log, limits, projection, x) ==> x.cursor <= droppedThrough)
    && (droppedThrough > 0 ==> exists x :: Lost(log, limits, projection, x) && x.cursor == droppedThrough)
  }

  lemma {:induction false} DroppedIn(log: Log, limits: Limits, w: World)
    ensures forall x :: x in Dropped(log, limits, w) ==> x.event.world == w && x in log
  {
    FilterMember(log, Inside(w));
    var all, d := InWorld(log, w), Dropped(log, limits, w);
    forall x | x in d ensures x in all {
      var i :| 0 <= i < |d| && d[i] == x;
      assert all[i] == x;
    }
    hide Dropped, InWorld;
  }

  lemma {:induction false} WindowsStep(log: Log, limits: Limits, item: Sequenced, history: map<World, seq<Sequenced>>)
    requires limits.Positive() && WindowsDescribe(log, limits, history)
    ensures var w := item.event.world;
      var window := Window(log, limits, w);
      && (w in history ==> history[w] == window)
      && (w !in history ==> window == [])
      && WindowsDescribe(log + [item], limits, history[w := (if |window| == limits.Of(w) then window[1..] else window) + [item]])
  {
    hide Filter;
    var w := item.event.world;
    WindowSlides(log, limits, item);
    assert Lookup(history, w) == if InWorld(log, w) == [] then None else Some(Window(log, limits, w));
    assert InWorld(log + [item], w) != [];
    hide InWorld, Window;
  }

  lemma {:induction false} GenerationsStep(log: Log, limits: Limits, item: Sequenced, projection: Event -> bool,
                                           generationCounts: map<World, (nat, ClassCounts)>, counted: (nat, ClassCounts))
    requires limits.Positive() && GenerationsDescribe(log, projection, generationCounts)
    requires CountsDescribe(InWorld(log, item.event.world) + [item], projection, Some(counted))
    ensures GenerationsDescribe(log + [item], projection, generationCounts[item.event.world := counted])
  {
    hide CountsDescribe, Filter;
    forall w ensures CountsDescribe(InWorld(log + [item], w), projection, Lookup(generationCounts[item.event.world := counted], w)) {
      FilterSnoc(log, item, Inside(w));
      assert CountsDescribe(InWorld(log, w), projection, Lookup(generationCounts, w));
    }
  }

  lemma {:induction false} MarksStep(log: Log, limits: Limits, item: Sequenced, projection: Event -> bool,
                                     generationDropped: map<World, (nat, ClassCounts)>, noted: Option<(nat, ClassCounts)>)
    requires limits.Positive() && MarksDescribe(log, limits, projection, generationDropped)
    requires LastDescribe(Dropped(log + [item], limits, item.event.world), projection, noted)
    ensures noted.Some? ==> MarksDescribe(log + [item], limits, projection, generationDropped[item.event.world := noted.value])
    ensures noted == Lookup(generationDropped, item.event.world) ==> MarksDescribe(log + [item], limits, projection, generationDropped)
  {
    WindowSlides(log, limits, item);
    hide InWorld, LastDescribe, Dropped;
  }

  /** Ingesting an event loses at most the oldest event of its world's window. */
  lemma {:induction false} LostStep(log: Log, limits: Limits, item: Sequenced, projection: Event -> bool, x: Sequenced)
    requires limits.Positive() && Numbered(log)
    ensures var window := Window(log, limits, item.event.world);
      Lost(log + [item], limits, projection, x) <==>
        Lost(log, limits, projection, x) || (|window| == limits.Of(item.event.world) && x == window[0] && projection(x.event))
  {
    hide Filter;
    var w := item.event.world;
    var window := Window(log, limits, w);
    WindowSlides(log, limits, item);
    WindowIsRetained(log, limits, w);
    DroppedIn(log, limits, x.event.world);
    if |window| == limits.Of(w) {
      assert window[0] in window;
      assert forall y :: y in Dropped(log + [item], limits, w) <==> y in Dropped(log, limits, w) || y == window[0];
    }
    hide InWorld, Window, Dropped;
  }

  lemma {:induction false} ThroughStep(log: Log, limits: Limits, item: Sequenced, projection: Event -> bool, through: nat)
    requires limits.Positive() && Numbered(log) && ThroughDescribes(log, limits, projection, through)
    ensures var window := Window(log, limits, item.event.world);
      var through' := if |window| == limits.Of(item.event.world) && projection(window[0].event) && window[0].cursor > through
                      then window[0].cursor else through;
      ThroughDescribes(log + [item], limits, projection, through')
  {
    forall x ensures Lost(log + [item], limits, projection, x) <==>
        Lost(log, limits, projection, x) ||
        (|Window(log, limits, item.event.world)| == limits.Of(item.event.world) &&
         x == Window(log, limits, item.event.world)[0] && projection(x.event))
    {
      LostStep(log, limits, item, projection, x);
    }
    hide Window, Lost;
    var window := Window(log, limits, item.event.world);
    if |window| == limits.Of(item.event.world) && projection(window[0].event) {
      assert Lost(log + [item], limits, projection, window[0]);
    }
  }

  datatype HistorySnapshot = HistorySnapshot(
    events: seq<Sequenced>, cursor: nat, oldestCursor: nat, truncated: bool,
    availableCounts: KeyTally, afterCursorGaps: set<Key>, resumed: bool)

  /** `g` is the newest generation of any event of `w`. */
  ghost predicate NewestGeneration(log: Log, w: World, g: nat) {
    && (exists x :: x in InWorld(log, w) && x.event.generation == g)
    && (forall x :: x in InWorld(log, w) ==> x.event.generation <= g)
  }

  /** `g` is the newest generation of any projected event that `w` has dropped. */
  ghost predicate NewestLost(log: Log, limits: Limits, projection: Event -> bool, w: World, g: nat) {
    && (exists x :: Lost(log, limits, projection, x) && KeyOf(x) == (w, g))
    && (forall x :: Lost(log, limits, projection, x) && x.event.world == w ==> x.event.generation <= g)
  }

  /** How many projected events of generation `g` of `w` were ever ingested in a class that
      passes: those retained and those dropped. */
  ghost function Available(log: Log, projection: Event -> bool, classes: EventClass -> bool, w: World, g: nat): nat {
    |Filter(InWorld(log, w), Matching(projection, g, classes))|
  }

  /** A projected event of `(w, g)` in a passing class was dropped after the cursor. */
  ghost predicate DroppedAfter(log: Log, limits: Limits, projection: Event -> bool, classes: EventClass -> bool,
                               after: nat, w: World, g: nat) {
    exists x :: Lost(log, limits, projection, x) && KeyOf(x) == (w, g) && classes(x.event.Class()) && x.cursor > after
  }

  /** A candidate of `(w, g)` is not in the snapshot. */
  ghost predicate OmittedFrom(candidates: seq<Sequenced>, events: seq<Sequenced>, k: Key) {
    exists x :: x in candidates && KeyOf(x) == k && x !in events
  }

  /** Some wanted event is not in the snapshot: a candidate was left out, or a projected
      event after the cursor (of any world) had been dropped. */
  ghost predicate Incomplete(log: Log, limits: Limits, q: Query, events: seq<Sequenced>) {
    || (exists x :: x in Candidates(log, limits, q) && x !in events)
    || (q.after.Some? && exists x :: Lost(log, limits, q.projection, x) && x.cursor > q.after.value)
  }

  /** `(w, g)` is reported as a gap. */
  ghost predicate Gap(log: Log, limits: Limits, q: Query, events: seq<Sequenced>, classes: EventClass -> bool, w: World, g: nat) {
    && q.after.Some?
    && (|| OmittedFrom(Candidates(log, limits, q), events, (w, g))
        || (q.Covers(w) && NewestLost(log, limits, q.projection, w, g) &&
            DroppedAfter(log, limits, q.projection, classes, q.after.value, w, g)))
  }

  ghost predicate CountsTell(counts: KeyTally, log: Log, q: Query, classes: EventClass -> bool) {
    forall w, g: nat ::
      ((w, g) in counts <==> q.Covers(w) && NewestGeneration(log, w, g) && Available(log, q.projection, classes, w, g) > 0) &&
      ((w, g) in counts ==> counts[(w, g)] == Available(log, q.projection, classes, w, g))
  }

  ghost predicate Offered(log: Log, limits: Limits, q: Query, x: Sequenced) {
    x in log && Retained(log, limits, x) && q.Covers(x.event.world) && q.projection(x.event)
  }

  ghost predicate OldestTells(oldest: nat, log: Log, limits: Limits, q: Query) {
    && oldest <= |log| + 1
    && (forall x :: Offered(log, limits, q, x) ==> oldest <= x.cursor)
    && (oldest <= |log| ==> exists x :: Offered(log, limits, q, x) && x.cursor == oldest)
  }

  /** What a snapshot says about the log. */
  ghost predicate Tells(snapshot: HistorySnapshot, log: Log, limits: Limits, q: Query, b: Budget, classes: EventClass -> bool) {
    && snapshot.events == SnapshotEvents(Candidates(log, limits, q), b)
    && snapshot.cursor == |log|
    && snapshot.resumed == q.after.Some?
    && snapshot.truncated == (b.includeHistory && Incomplete(log, limits, q, snapshot.events))
    && (forall w, g: nat :: (w, g) in snapshot.afterCursorGaps <==> Gap(log, limits, q, snapshot.events, classes, w, g))
    && CountsTell(snapshot.availableCounts, log, q, classes)
    && OldestTells(snapshot.oldestCursor, log, limits, q)
  }

  lemma {:induction false} TellsCursor(snapshot: HistorySnapshot, log: Log, limits: Limits, q: Query, b: Budget, classes: EventClass -> bool)
    requires Tells(snapshot, log, limits, q, b, classes)
    ensures snapshot.cursor == |log|
  {
  }

  /** A snapshot holds only events that the history still holds and the request asks for, and
      without a limit all of them; its counts and gaps name only the request's worlds. */
  lemma {:induction false} TellsEvents(snapshot: HistorySnapshot, log: Log, limits: Limits, worlds: Option<set<World>>,
                                       projection: Event -> bool, filter: Event -> bool, after: Option<nat>, b: Budget,
                                       classes: EventClass -> bool)
    requires Numbered(log) && Tells(snapshot, log, limits, Query(worlds, projection, filter, after), b, classes)
    ensures forall x :: x in snapshot.events ==>
      && Held(log, limits, x) && (worlds.None? || x.event.world in worlds.value) && projection(x.event) && filter(x.event)
      && (after.None? || x.cursor > after.value)
    ensures b.includeHistory && b.events.None? && b.perWorld.None? ==> forall x ::
      (&& Held(log, limits, x) && (worlds.None? || x.event.world in worlds.value) && projection(x.event) && filter(x.event)
       && (after.None? || x.cursor > after.value))
      ==> x in snapshot.events
    ensures worlds.Some? ==>
      && (forall w, g: nat :: (w, g) in snapshot.availableCounts ==> w in worlds.value)
      && (forall w, g: nat :: (w, g) in snapshot.afterCursorGaps ==> w in worlds.value)
  {
    var q := Query(worlds, projection, filter, after);
    var candidates := Candidates(log, limits, q);
    CandidatesMeet(log, limits, worlds, projection, filter, after);
    SnapshotIsOrderedPart(candidates, b);
    if b.includeHistory && b.events.None? && b.perWorld.None? {
      UnlimitedSnapshot(candidates, b.size);
    }
    forall w, g: nat | (w, g) in snapshot.afterCursorGaps && worlds.Some? ensures w in worlds.value {
      assert Gap(log, limits, q, snapshot.events, classes, w, g);
    }
    hide Candidates, SnapshotEvents, Held, Incomplete, OldestTells, Gap, NewestGeneration;
  }

  /** `put_nowait` on a bounded subscriber queue: a full queue is emptied and closed. */
  function Enqueue(queue: seq<Option<Sequenced>>, item: Sequenced, size: nat): seq<Option<Sequenced>> {
    if |queue| >= size then [None] else queue + [Some(item)]
  }

  /** What the drop mark of one world says about events lost after a cursor. */
  lemma {:induction false} MarkTells(log: Log, limits: Limits, projection: Event -> bool, w: World, mark: Option<(nat, ClassCounts)>,
                                     g: nat, classes: EventClass -> bool, after: nat)
    requires LastDescribe(Dropped(log, limits, w), projection, mark)
    ensures (mark.Some? && mark.value.0 == g && PassedMark(mark.value.1, classes, after)) <==>
            NewestLost(log, limits, projection, w, g) && DroppedAfter(log, limits, projection, classes, after, w, g)
  {
    var d := Dropped(log, limits, w);
    LostOf(log, limits, projection, w);
    hide Dropped, Lost;
    assert NewestLost(log, limits, projection, w, g) <==>
        (exists x :: x in d && projection(x.event) && x.event.generation == g)
        && (forall x :: x in d && projection(x.event) ==> x.event.generation <= g);
    assert DroppedAfter(log, limits, projection, classes, after, w, g) <==>
        exists x :: x in d && projection(x.event) && x.event.generation == g && classes(x.event.Class()) && x.cursor > after;
    hide NewestLost, DroppedAfter;
    MarkOf(d, projection, mark, g, classes, after);
  }

  lemma {:induction false} LostOf(log: Log, limits: Limits, projection: Event -> bool, w: World)
    ensures forall x: Sequenced {:trigger Lost(log, limits, projection, x)} {:trigger x in Dropped(log, limits, w)} ::
      x in Dropped(log, limits, w) && projection(x.event) <==> Lost(log, limits, projection, x) && x.event.world == w
  {
    DroppedIn(log, limits, w);
    hide Dropped;
  }

  /** What a drop mark says about the events it describes. */
  lemma {:induction false} MarkOf(d: seq<Sequenced>, projection: Event -> bool, mark: Option<(nat, ClassCounts)>,
                                  g: nat, classes: EventClass -> bool, after: nat)
    requires LastDescribe(d, projection, mark)
    ensures (mark.Some? && mark.value.0 == g && PassedMark(mark.value.1, classes, after)) <==>
      ((exists x :: x in d && projection(x.event) && x.event.generation == g)
       && (forall x :: x in d && projection(x.event) ==> x.event.generation <= g)
       && (exists x :: x in d && projection(x.event) && x.event.generation == g && classes(x.event.Class()) && x.cursor > after))
  {
  }

  /** `any(cursor > after and the class passes)` over one world's drop marks. */
  predicate PassedMark(last: ClassCounts, classes: EventClass -> bool, after: nat) {
    exists c :: c in last && last[c] > after && classes(c)
  }

  class HistorySubscription {
    const snapshot: HistorySnapshot
    const query: Query
    var queue: seq<Option<Sequenced>>

    // Everything ever queued, and how much of it the sender has taken.
    ghost var stream: seq<Sequenced>
    ghost var taken: nat

    constructor (snapshot: HistorySnapshot, query: Query)
      ensures this.snapshot == snapshot && this.query == query
      ensures queue == [] && stream == [] && taken == 0
    {
      this.snapshot, this.query := snapshot, query;
      queue, stream, taken := [], [], 0;
    }

    /** The queue holds what was queued and not yet taken. */
    ghost predicate Open()
      reads this
    {
      && |stream| == taken + |queue|
      && forall i :: 0 <= i < |queue| ==> queue[i] == Some(stream[taken + i])
    }

    /** One `queue.get` of `_send_events`; `None` ends the connection. */
    method Get() returns (item: Option<Sequenced>)
      requires queue != []
      modifies this
      ensures item == old(queue[0]) && queue == old(queue)[1..] && stream == old(stream)
      ensures old(Open()) ==> Open() && item.Some? && old(taken) < |stream| && item.value == stream[old(taken)] && taken == old(taken) + 1
    {
      item := queue[0];
      queue := queue[1..];
      taken := taken + 1;
    }

    method Close()
      modifies this
      ensures queue == [None] && stream == old(stream)
    {
      while queue != []
        invariant stream == old(stream)
        decreases |queue|
      {
        queue := queue[1..];
      }
      queue := queue + [None];
    }
  }

  /** Why a history request is refused. */
  datatype RequestError = BadEventLimit | BadWorldLimit | BadByteLimit | LimitWithoutSizes | CursorOutside

  /** The checks of a request, in their order. */
  function RequestProblem(after: Option<int>, maximumEvents: Option<int>, maximumEventsPerWorld: Option<int>,
                          maximumSourceBytes: Option<int>, estimator: bool, cursor: nat): (problem: Option<RequestError>)
    ensures problem.None? <==>
      (maximumEvents.Some? ==> maximumEvents.value >= 1) &&
      (maximumEventsPerWorld.Some? ==> maximumEventsPerWorld.value >= 1) &&
      (maximumSourceBytes.Some? ==> maximumSourceBytes.value >= 1) &&
      maximumSourceBytes.Some? == estimator &&
      (after.Some? ==> 0 <= after.value <= cursor)
  {
    if maximumEvents.Some? && maximumEvents.value < 1 then Some(BadEventLimit)
    else if maximumEventsPerWorld.Some? && maximumEventsPerWorld.value < 1 then Some(BadWorldLimit)
    else if maximumSourceBytes.Some? && maximumSourceBytes.value < 1 then Some(BadByteLimit)
    else if maximumSourceBytes.Some? != estimator then Some(LimitWithoutSizes)
    else if after.Some? && (after.value < 0 || after.value > cursor) then Some(CursorOutside)
    else None
  }

  class EventHistory {
    const limits: Limits
    const queueSize: nat
    const projection: Event -> bool
    var cursor: nat
    var droppedThrough: nat
    var history: map<World, seq<Sequenced>>
    var generationCounts: map<World, (nat, ClassCounts)>
    var generationDropped: map<World, (nat, ClassCounts)>
    var subscribers: set<HistorySubscription>

    ghost var log: Log

    ghost predicate Described()
      reads this
    {
      && limits.Positive() && queueSize >= 1
      && cursor == |log| && Numbered(log)
      && WindowsDescribe(log, limits, history)
      && GenerationsDescribe(log, projection, generationCounts)
      && MarksDescribe(log, limits, projection, generationDropped)
      && ThroughDescribes(log, limits, projection, droppedThrough)
    }

    /** An attached subscription has been queued exactly what `log` owes it. */
    ghost predicate Attached(s: HistorySubscription, log: Log)
      reads this, s
    {
      && s.Open() && |s.queue| <= queueSize
      && s.snapshot.cursor <= |log|
      && s.query.projection == projection
      && (s.query.after.Some? ==> s.query.after.value <= s.snapshot.cursor)
      && s.stream == Live(log, s.snapshot.cursor, s.query)
    }

    ghost predicate Valid()
      reads this, subscribers
    {
      Described() && forall s :: s in subscribers ==> Attached(s, log)
    }

    constructor (limits: Limits, queueSize: nat, projection: Event -> bool)
      requires limits.Positive() && queueSize >= 1
      ensures Valid() && log == [] && subscribers == {}
    {
      this.limits, this.queueSize, this.projection := limits, queueSize, projection;
      cursor, droppedThrough := 0, 0;
      history, generationCounts, generationDropped, subscribers := map[], map[], map[], {};
      log := [];
    }

    /** The bookkeeping of `_run` for one event: cursor, class counter, window, drop marks. */
    method Record(item: Sequenced)
      requires Described() && item.cursor == cursor + 1
      modifies this
      ensures Described() && log == old(log) + [item]
      ensures subscribers == old(subscribers)
    {
      hide InWorld, Window, Dropped, CountsDescribe, LastDescribe, Lost, WindowsDescribe, GenerationsDescribe, MarksDescribe, ThroughDescribes;
      var w := item.event.world;
      var counted := CountGeneration(item);
      WindowsStep(log, limits, item, history);
      GenerationsStep(log, limits, item, projection, generationCounts, counted);
      ThroughStep(log, limits, item, projection, droppedThrough);
      var window := if w in history then history[w] else [];
      var noted := NoteOldest(item, window);
      MarksStep(log, limits, item, projection, generationDropped, noted);
      if |window| == limits.Of(w) {
        if projection(window[0].event) && window[0].cursor > droppedThrough {
          droppedThrough := window[0].cursor;
        }
        window := window[1..];
      }
      if noted.Some? {
        generationDropped := generationDropped[w := noted.value];
      }
      cursor := item.cursor;
      generationCounts := generationCounts[w := counted];
      history := history[w := window + [item]];
      log := log + [item];
    }

    method CountGeneration(item: Sequenced) returns (counted: (nat, ClassCounts))
      requires Described()
      ensures CountsDescribe(InWorld(log, item.event.world) + [item], projection, Some(counted))
    {
      hide CountsDescribe;
      var w := item.event.world;
      assert CountsDescribe(InWorld(log, w), projection, Lookup(generationCounts, w));
      counted := CountEvent(Lookup(generationCounts, w), item, projection, InWorld(log, w));
    }

    /** The drop mark of a world whose full window is about to lose its oldest event. */
    method NoteOldest(item: Sequenced, window: seq<Sequenced>) returns (noted: Option<(nat, ClassCounts)>)
      requires Described() && window == Window(log, limits, item.event.world)
      ensures LastDescribe(Dropped(log + [item], limits, item.event.world), projection, noted)
      ensures noted.None? ==> Lookup(generationDropped, item.event.world).None?
    {
      hide LastDescribe, Filter;
      var w := item.event.world;
      WindowSlides(log, limits, item);
      noted := Lookup(generationDropped, w);
      assert LastDescribe(Dropped(log, limits, w), projection, noted);
      if |window| == limits.Of(w) {
        WorldIsAscending(log, w);
        ghost var d := Dropped(log, limits, w);
        assert d + window == InWorld(log, w);
        assert d + [window[0]] == InWorld(log, w)[..|d| + 1];
        noted := NoteDropped(noted, window[0], projection, d);
      }
    }

    /** How one new event reaches a subscription: left alone when the event is not projected,
        not of its worlds or filtered out; queued while there is room; otherwise detached, its
        queue replaced by the end marker. */
    twostate predicate Handled(s: HistorySubscription, item: Sequenced)
      reads this, s
    {
      var event := item.event;
      if projection(event) && (s.query.worlds.None? || event.world in s.query.worlds.value) && s.query.filter(event) then
        if |old(s.queue)| < queueSize
        then s in subscribers && s.queue == old(s.queue) + [Some(item)] && s.stream == old(s.stream) + [item] && s.taken == old(s.taken)
        else s !in subscribers && s.queue == [None]
      else s in subscribers && s.queue == old(s.queue) && s.stream == old(s.stream) && s.taken == old(s.taken)
    }

    /** The delivery loop of `_run`: a subscriber whose queue is full is detached and its
        queue replaced by the end marker. */
    method Deliver(item: Sequenced)
      requires projection(item.event) && queueSize >= 1
      requires forall s :: s in subscribers ==> s.query.projection == projection
      modifies this`subscribers, subscribers
      ensures subscribers <= old(subscribers)
      ensures forall s :: s in old(subscribers) ==> Handled(s, item)
    {
      var todo := subscribers;
      while todo != {}
        invariant todo <= subscribers <= old(subscribers)
        invariant forall s :: s in todo ==> s.queue == old(s.queue) && s.stream == old(s.stream) && s.taken == old(s.taken)
        invariant forall s :: s in old(subscribers) - todo ==> Reached(s, item, old(s.queue), old(s.stream), old(s.taken))
        decreases todo
      {
        var s :| s in todo;
        todo := todo - {s};
        Offer(s, item);
      }
    }

    method Offer(s: HistorySubscription, item: Sequenced)
      requires s in subscribers && queueSize >= 1
      modifies this`subscribers, s
      ensures old(subscribers) - {s} <= subscribers <= old(subscribers)
      ensures Reached(s, item, old(s.queue), old(s.stream), old(s.taken))
    {
      if s.query.Covers(item.event.world) && s.query.filter(item.event) {
        if |s.queue| >= queueSize {
          subscribers := subscribers - {s};
          s.Close();
        } else {
          s.queue := s.queue + [Some(item)];
          s.stream := s.stream + [item];
        }
      }
    }

    /** What the loop does with one subscription, from what it held before. */
    ghost predicate Reached(s: HistorySubscription, item: Sequenced, queue: seq<Option<Sequenced>>, stream: seq<Sequenced>, taken: nat)
      reads this, s
    {
      if s.query.Covers(item.event.world) && s.query.filter(item.event) then
        if |queue| < queueSize
        then s in subscribers && s.queue == queue + [Some(item)] && s.stream == stream + [item] && s.taken == taken
        else s !in subscribers && s.queue == [None]
      else s in subscribers && s.queue == queue && s.stream == stream && s.taken == taken
    }

    /** One round of `_run`: the event gets the next cursor, and every attached subscriber
        is queued it, skips it, or is closed. */
    method Ingest(event: Event)
      requires Valid()
      modifies this, subscribers
      ensures Valid()
      ensures log == old(log) + [Sequenced(|old(log)| + 1, event)]
      ensures subscribers <= old(subscribers)
      ensures forall s :: s in old(subscribers) ==> Handled(s, Sequenced(|old(log)| + 1, event))
    {
      hide Live, WindowsDescribe, GenerationsDescribe, MarksDescribe, ThroughDescribes;
      var item := Sequenced(cursor + 1, event);
      ghost var past := log;
      Record(item);
      assert forall s :: s in subscribers ==> Attached(s, past);
      if projection(event) {
        Deliver(item);
      }
      forall s | s in subscribers ensures Attached(s, log) {
        LiveGrows(past, item, s.snapshot.cursor, s.query);
      }
    }

    method Unsubscribe(subscription: HistorySubscription)
      requires Valid()
      modifies this`subscribers
      ensures Valid() && subscribers == old(subscribers) - {subscription}
    {
      subscribers := subscribers - {subscription};
    }

    /** `stop` closes every subscription. */
    method Stop()
      requires Valid()
      modifies this`subscribers, subscribers
      ensures Valid() && subscribers == {}
      ensures forall s :: s in old(subscribers) ==> s.queue == [None]
    {
      hide Live, WindowsDescribe, GenerationsDescribe, MarksDescribe, ThroughDescribes;
      var todo := subscribers;
      while todo != {}
        invariant todo <= subscribers == old(subscribers)
        invariant forall s :: s in subscribers - todo ==> s.queue == [None]
        decreases todo
      {
        var s :| s in todo;
        todo := todo - {s};
        s.Close();
      }
      subscribers := {};
    }

    /** The generator of `available_counts`. */
    method AvailableCounts(q: Query, classes: EventClass -> bool) returns (counts: KeyTally)
      requires Described() && q.projection == projection
      ensures CountsTell(counts, log, q, classes)
    {
      counts := map[];
      var todo := generationCounts.Keys;
      forall w, g: nat ensures NewestGeneration(log, w, g) <==> w in generationCounts && generationCounts[w].0 == g {
        assert CountsDescribe(InWorld(log, w), projection, Lookup(generationCounts, w));
      }
      hide InWorld, Filter, NewestGeneration, Available;
      while todo != {}
        invariant todo <= generationCounts.Keys
        invariant forall w, g: nat :: (w, g) in counts <==>
          w in generationCounts.Keys - todo && q.Covers(w) && generationCounts[w].0 == g && Available(log, projection, classes, w, g) > 0
        invariant forall w, g: nat :: (w, g) in counts ==> counts[(w, g)] == Available(log, projection, classes, w, g)
        decreases todo
      {
        var w :| w in todo;
        todo := todo - {w};
        if q.Covers(w) {
          var total := AvailableIn(w, classes);
          if total > 0 {
            counts := counts[(w, generationCounts[w].0) := total];
          }
        }
      }
    }

    method AvailableIn(w: World, classes: EventClass -> bool) returns (total: nat)
      requires Described() && w in generationCounts
      ensures total == Available(log, projection, classes, w, generationCounts[w].0)
    {
      var (g, counts) := generationCounts[w];
      assert CountsDescribe(InWorld(log, w), projection, Lookup(generationCounts, w));
      hide InWorld, Filter;
      total := SumMatching(counts, classes, projection, g, InWorld(log, w));
    }

    /** The windows hold exactly what the candidates are drawn from. */
    lemma WindowsGive(q: Query)
      requires Described()
      ensures Ascending(Candidates(log, limits, q))
      ensures forall w :: w in history ==> history[w] == Window(log, limits, w)
      ensures forall w, x :: w in history && x in history[w] ==> x.event.world == w && x in log && Retained(log, limits, x)
      ensures forall x :: x in log && Retained(log, limits, x) ==> x.event.world in history && x in history[x.event.world]
      ensures forall w :: w in history ==> InWorld(Candidates(log, limits, q), w) == Accepted(history[w], q)
      ensures forall x :: x in Candidates(log, limits, q) <==> x in log && q.Accepts(x) && Retained(log, limits, x)
    {
      CandidatesAre(log, limits, q);
      forall w ensures w in history ==> history[w] == Window(log, limits, w) {
        assert Lookup(history, w) == if InWorld(log, w) == [] then None else Some(Window(log, limits, w));
      }
      forall w | w in history
        ensures InWorld(Candidates(log, limits, q), w) == Accepted(history[w], q)
        ensures forall x :: x in history[w] ==> x.event.world == w && x in log && Retained(log, limits, x)
      {
        CandidatesInWorld(log, limits, q, w);
        WindowIsRetained(log, limits, w);
      }
      forall x | x in log && Retained(log, limits, x) ensures x.event.world in history && x in history[x.event.world] {
        WindowIsRetained(log, limits, x.event.world);
        WorldIsAscending(log, x.event.world);
        assert x in InWorld(log, x.event.world);
        assert Lookup(history, x.event.world) == Some(Window(log, limits, x.event.world));
      }
    }

    /** The events a request retains: nothing, the heap merge, or the newest by cursor. */
    method Retain(q: Query, b: Budget) returns (retained: seq<Sequenced>)
      requires Described() && (b.perWorld.Some? ==> b.perWorld.value >= 1)
      ensures retained == SnapshotEvents(Candidates(log, limits, q), b)
    {
      hide Filter, NewestWithin, CapWorlds, InWorld, Window, Retained, Described, Pools, Candidates;
      ghost var candidates := Candidates(log, limits, q);
      WindowsGive(q);
      if !b.includeHistory {
        retained := [];
      } else if b.perWorld.Some? {
        PoolIsCapped(history, q, b.perWorld.value, candidates);
        retained := MergeNewest(history, q, b.perWorld.value, b.events, b.bytes, b.size, CapWorlds(candidates, b.perWorld.value, map[]));
      } else {
        var found := Find(q);
        retained := NewestByCursor(found, b.events, b.size, candidates);
      }
    }

    /** The generator over all retained events that the request accepts. */
    method Find(q: Query) returns (found: set<Sequenced>)
      requires Described()
      ensures forall x :: x in found <==> x in Candidates(log, limits, q)
    {
      hide Filter, InWorld, Window, Retained, Described, Candidates;
      WindowsGive(q);
      found := set w, x | w in history && q.Covers(w) && x in history[w] && q.Accepts(x) :: x;
    }

    method CountAll(q: Query) returns (count: nat, tally: KeyTally)
      requires Described()
      ensures count == |Candidates(log, limits, q)|
      ensures forall k :: CountKey(tally, k) == KeyCount(Candidates(log, limits, q), k)
    {
      hide Filter, InWorld, Window, Retained, Described, Candidates, KeyCount;
      WindowsGive(q);
      count, tally := CountCandidates(history, q, Candidates(log, limits, q));
    }

    method Oldest(q: Query) returns (oldest: nat)
      requires Described() && q.projection == projection
      ensures OldestTells(oldest, log, limits, q)
    {
      hide Filter, InWorld, Window, Retained, Candidates, WindowsDescribe, GenerationsDescribe, MarksDescribe, ThroughDescribes, IsOldest, OldestTells;
      WindowsGive(q);
      oldest := OldestCursor(history, q, cursor + 1);
      OldestMeans(log, limits, history, q, oldest);
    }

    /** `available_count > len(retained)` or a cursor before the newest dropped one. */
    lemma TruncationTells(q: Query, retained: seq<Sequenced>)
      requires Described() && q.projection == projection
      requires Ascending(retained) && forall x :: x in retained ==> x in Candidates(log, limits, q)
      ensures (|Candidates(log, limits, q)| > |retained| || (q.after.Some? && q.after.value < droppedThrough)) <==>
        Incomplete(log, limits, q, retained)
    {
      hide Filter, Candidates, Lost, WindowsDescribe, GenerationsDescribe, MarksDescribe;
      CandidatesAre(log, limits, q);
      LeftOutAny(Candidates(log, limits, q), retained);
    }

    /** The keys of `after_cursor_gaps`. */
    method CursorGaps(q: Query, classes: EventClass -> bool, candidateTally: KeyTally, retained: seq<Sequenced>)
      returns (gaps: set<Key>)
      requires Described() && q.projection == projection
      requires forall k :: CountKey(candidateTally, k) == KeyCount(Candidates(log, limits, q), k)
      requires Ascending(retained) && forall x :: x in retained ==> x in Candidates(log, limits, q)
      ensures forall w, g: nat :: (w, g) in gaps <==> Gap(log, limits, q, retained, classes, w, g)
    {
      var retainedTally := Tallied(retained);
      if q.after.None? {
        return {};
      }
      ghost var candidates := Candidates(log, limits, q);
      CandidatesAre(log, limits, q);
      forall k ensures KeyCount(candidates, k) > KeyCount(retained, k) <==> OmittedFrom(candidates, retained, k) {
        LeftOut(candidates, retained, k);
      }
      forall w, g: nat ensures
        (w in generationDropped && generationDropped[w].0 == g && PassedMark(generationDropped[w].1, classes, q.after.value)) <==>
        NewestLost(log, limits, projection, w, g) && DroppedAfter(log, limits, projection, classes, q.after.value, w, g)
      {
        assert LastDescribe(Dropped(log, limits, w), projection, Lookup(generationDropped, w));
        MarkTells(log, limits, projection, w, Lookup(generationDropped, w), g, classes, q.after.value);
      }
      hide OmittedFrom, NewestLost, DroppedAfter, KeyCount, PassedMark, Candidates;
      var omitted := set k | k in candidateTally && candidateTally[k] > CountKey(retainedTally, k);
      var dropped := set w | w in generationDropped && q.Covers(w) && PassedMark(generationDropped[w].1, classes, q.after.value)
        :: (w, generationDropped[w].0);
      gaps := omitted + dropped;
      forall w, g: nat ensures (w, g) in gaps <==> Gap(log, limits, q, retained, classes, w, g) {
        assert CountKey(candidateTally, (w, g)) == KeyCount(candidates, (w, g));
      }
    }

    /** One subscription request, answered in one critical section: a snapshot of the
        history and a live queue that starts exactly where the snapshot ends. */
    method Subscribe(after: Option<int>, includeHistory: bool, worlds: Option<set<World>>, maximumEvents: Option<int>,
                     maximumEventsPerWorld: Option<int>, filter: Event -> bool, classes: EventClass -> bool,
                     maximumSourceBytes: Option<int>, sourceBytes: Option<Event -> nat>)
      returns (r: Result<HistorySubscription, RequestError>)
      requires Valid()
      modifies this`subscribers
      ensures Valid()
      ensures r.Success? <==>
        (maximumEvents.Some? ==> maximumEvents.value >= 1) &&
        (maximumEventsPerWorld.Some? ==> maximumEventsPerWorld.value >= 1) &&
        (maximumSourceBytes.Some? ==> maximumSourceBytes.value >= 1) &&
        maximumSourceBytes.Some? == sourceBytes.Some? &&
        (after.Some? ==> 0 <= after.value <= |log|)
      ensures r.Failure? ==> subscribers == old(subscribers)
      ensures r.Success? ==>
        && fresh(r.value) && subscribers == old(subscribers) + {r.value}
        && r.value.queue == [] && r.value.stream == [] && r.value.taken == 0
        && r.value.query == Query(worlds, projection, filter, Natural(after))
        && Tells(r.value.snapshot, log, limits, r.value.query,
                 Budget(includeHistory, Natural(maximumEventsPerWorld), Natural(maximumEvents), Natural(maximumSourceBytes), Sizes(sourceBytes)),
                 classes)
      ensures r.Success? ==> forall x :: x in r.value.snapshot.events ==>
        && x in log && (worlds.None? || x.event.world in worlds.value) && projection(x.event) && filter(x.event)
        && (after.None? || x.cursor > after.value)
      ensures r.Success? && includeHistory && maximumEvents.None? && maximumEventsPerWorld.None? ==> forall x ::
        && Held(log, limits, x) && (worlds.None? || x.event.world in worlds.value) && projection(x.event) && filter(x.event)
        && (after.None? || x.cursor > after.value)
        ==> x in r.value.snapshot.events
      ensures r.Success? && worlds.Some? ==>
        && (forall w, g: nat :: (w, g) in r.value.snapshot.availableCounts ==> w in worlds.value)
        && (forall w, g: nat :: (w, g) in r.value.snapshot.afterCursorGaps ==> w in worlds.value)
    {
      hide Tells, Live, Numbered, WindowsDescribe, GenerationsDescribe, MarksDescribe, ThroughDescribes;
      var problem := RequestProblem(after, maximumEvents, maximumEventsPerWorld, maximumSourceBytes, sourceBytes.Some?, cursor);
      if problem.Some? {
        return Failure(problem.value);
      }
      var q := Query(worlds, projection, filter, Natural(after));
      var b := Budget(includeHistory, Natural(maximumEventsPerWorld), Natural(maximumEvents),
                      Natural(maximumSourceBytes), Sizes(sourceBytes));
      var snapshot := TakeSnapshot(q, b, classes);
      TellsCursor(snapshot, log, limits, q, b, classes);
      TellsEvents(snapshot, log, limits, worlds, projection, filter, Natural(after), b, classes);
      var subscription := new HistorySubscription(snapshot, q);
      Attach(subscription);
      return Success(subscription);
    }

    method Attach(subscription: HistorySubscription)
      requires Valid() && subscription.query.projection == projection
      requires subscription.snapshot.cursor == |log|
      requires subscription.query.after.Some? ==> subscription.query.after.value <= |log|
      requires subscription.queue == [] && subscription.stream == [] && subscription.taken == 0
      modifies this`subscribers
      ensures Valid() && subscribers == old(subscribers) + {subscription}
    {
      hide Live, WindowsDescribe, GenerationsDescribe, MarksDescribe, ThroughDescribes;
      LiveStartsEmpty(log, subscription.query);
      subscribers := subscribers + {subscription};
    }

    method TakeSnapshot(q: Query, b: Budget, classes: EventClass -> bool) returns (snapshot: HistorySnapshot)
      requires Described() && q.projection == projection && (b.perWorld.Some? ==> b.perWorld.value >= 1)
      ensures Tells(snapshot, log, limits, q, b, classes)
    {
      hide Filter, SnapshotEvents, Candidates, CountsTell, Gap, KeyCount, Incomplete, OldestTells,
        WindowsDescribe, GenerationsDescribe, MarksDescribe, ThroughDescribes;
      CandidatesAre(log, limits, q);
      SnapshotIsOrderedPart(Candidates(log, limits, q), b);
      var count, tally := CountAll(q);
      var available := AvailableCounts(q, classes);
      var retained := Retain(q, b);
      var oldest := Oldest(q);
      var gaps := CursorGaps(q, classes, tally, retained);
      TruncationTells(q, retained);
      var truncated := b.includeHistory &&
        (count > |retained| || (q.after.Some? && q.after.value < droppedThrough));
      snapshot := HistorySnapshot(retained, cursor, oldest, truncated, available, gaps, q.after.Some?);
    }
  }

  lemma {:induction false} OldestMeans(log: Log, limits: Limits, windows: map<World, seq<Sequenced>>, q: Query, oldest: nat)
    requires forall w, x :: w in windows && x in windows[w] ==> x.event.world == w && x in log && Retained(log, limits, x)
    requires forall x :: x in log && Retained(log, limits, x) ==> x.event.world in windows && x in windows[x.event.world]
    requires IsOldest(windows, windows.Keys, q, |log| + 1, oldest)
    ensures OldestTells(oldest, log, limits, q)
  {
    hide Retained;
    if oldest <= |log| {
      var w, x :| w in windows && q.Covers(w) && x in windows[w] && q.projection(x.event) && x.cursor == oldest;
      assert Offered(log, limits, q, x);
    }
  }

  function Natural(n: Option<int>): Option<nat>
    requires n.Some? ==> n.value >= 0
  {
    if n.None? then None else Some(n.value)
  }

  /** Without an estimator no event has a size. */
  function Sizes(estimator: Option<Event -> nat>): Event -> nat {
    if estimator.Some? then estimator.value else (e: Event) => 0
  }

  lemma {:induction false} LiveStartsEmpty(log: Log, q: Query)
    ensures Live(log, |log|, q) == []
  {
    assert log[|log|..] == [];
  }

  /** Capping the candidates gives the merge its pool. */
  lemma {:induction false} PoolIsCapped(windows: map<World, seq<Sequenced>>, q: Query, k: nat, candidates: seq<Sequenced>)
    requires Ascending(candidates)
    requires forall w :: w in windows ==> InWorld(candidates, w) == Accepted(windows[w], q)
    requires forall x :: x in candidates ==> x.event.world in windows && q.Covers(x.event.world)
    ensures Pools(windows, q, k, CapWorlds(candidates, k, map[]))
  {
    hide Filter, CapWorlds;
    CapWorldsAscending(candidates, k, map[]);
    forall w | w in windows ensures InWorld(CapWorlds(candidates, k, map[]), w) == LastN(Accepted(windows[w], q), k) {
      CapWorldsKeepsNewest(candidates, k, map[], w);
    }
  }

  // ------------------------------------------------ what the gap report can miss

  /** Some accepted event of `(w, g)` after the cursor is not in the snapshot. */
  ghost predicate Missing(log: Log, q: Query, events: seq<Sequenced>, w: World, g: nat) {
    exists x :: x in log && q.Accepts(x) && KeyOf(x) == (w, g) && x !in events
  }

  lemma {:induction false} LostMeans(log: Log, limits: Limits, projection: Event -> bool, x: Sequenced)
    requires Numbered(log)
    ensures Lost(log, limits, projection, x) <==> x in log && !Retained(log, limits, x) && projection(x.event)
  {
    WindowIsRetained(log, limits, x.event.world);
  }

  /** What a snapshot misses was either a candidate it left out or an event already dropped. */
  lemma {:induction false} MissingSplits(log: Log, limits: Limits, q: Query, b: Budget, classes: EventClass -> bool, w: World, g: nat)
    requires Numbered(log) && q.after.Some?
    requires forall e: Event :: q.filter(e) == classes(e.Class())
    ensures var events := SnapshotEvents(Candidates(log, limits, q), b);
      Missing(log, q, events, w, g) <==>
        OmittedFrom(Candidates(log, limits, q), events, (w, g)) ||
        (q.Covers(w) && DroppedAfter(log, limits, q.projection, classes, q.after.value, w, g))
  {
    var candidates := Candidates(log, limits, q);
    var events := SnapshotEvents(candidates, b);
    CandidatesAre(log, limits, q);
    SnapshotIsOrderedPart(candidates, b);
    hide Retained, SnapshotEvents, Lost, Candidates, Filter;
    if q.Covers(w) && DroppedAfter(log, limits, q.projection, classes, q.after.value, w, g) {
      var x :| Lost(log, limits, q.projection, x) && KeyOf(x) == (w, g) && classes(x.event.Class()) && x.cursor > q.after.value;
      LostMeans(log, limits, q.projection, x);
      assert x in log && q.Accepts(x) && x !in candidates;
    }
    if Missing(log, q, events, w, g) {
      var x :| x in log && q.Accepts(x) && KeyOf(x) == (w, g) && x !in events;
      LostMeans(log, limits, q.projection, x);
    }
  }

  /** When the class filter agrees with the event filter, a reported gap is always real, and
      a real gap goes unreported exactly when every missing event of that generation was
      dropped and the world has since dropped events of a newer generation. */
  lemma {:induction false} GapsAreReal(log: Log, limits: Limits, q: Query, b: Budget, classes: EventClass -> bool, w: World, g: nat)
    requires Numbered(log) && q.after.Some?
    requires forall e: Event :: q.filter(e) == classes(e.Class())
    ensures var events := SnapshotEvents(Candidates(log, limits, q), b);
      && (Gap(log, limits, q, events, classes, w, g) ==> Missing(log, q, events, w, g))
      && (Missing(log, q, events, w, g) ==>
            (!Gap(log, limits, q, events, classes, w, g) <==>
               !OmittedFrom(Candidates(log, limits, q), events, (w, g)) &&
               exists x :: Lost(log, limits, q.projection, x) && x.event.world == w && x.event.generation > g))
  {
    MissingSplits(log, limits, q, b, classes, w, g);
    hide Lost, SnapshotEvents, OmittedFrom, Missing, Candidates;
  }

  /** Three events of one world, each from a newer connection generation. */
  function ThreeGenerations(w: World, content: Content): Log {
    [Sequenced(1, Event(w, 1, Say, None, content)),
     Sequenced(2, Event(w, 2, Say, None, content)),
     Sequenced(3, Event(w, 3, Say, None, content))]
  }

  /** Such a gap exists: with one event kept per world, three events of three generations
      leave the first generation missing and unreported. */
  lemma {:induction false} OlderGenerationUnreported(w: World, content: Content, all: Event -> bool, classes: EventClass -> bool,
                                                     size: Event -> nat)
    requires forall e: Event :: all(e)
    requires forall c: EventClass :: classes(c)
    ensures var log := ThreeGenerations(w, content);
      var limits := Limits(map[], 1);
      var q := Query(None, all, all, Some(0));
      var events := SnapshotEvents(Candidates(log, limits, q), Budget(true, None, None, None, size));
      && Numbered(log)
      && Missing(log, q, events, w, 1)
      && !Gap(log, limits, q, events, classes, w, 1)
  {
    var log := ThreeGenerations(w, content);
    var limits := Limits(map[], 1);
    var q := Query(None, all, all, Some(0));
    FilterAll(log, Inside(w));
    assert Dropped(log, limits, w) == log[..2];
    assert log[0] in log[..2] && log[1] in log[..2];
    assert Lost(log, limits, all, log[0]) && Lost(log, limits, all, log[1]);
    LostMeans(log, limits, all, log[0]);
    CandidatesAre(log, limits, q);
    assert log[0] !in Candidates(log, limits, q) && q.Accepts(log[0]);
    UnlimitedSnapshot(Candidates(log, limits, q), size);
    hide Candidates, Lost, Filter, Retained;
    GapsAreReal(log, limits, q, Budget(true, None, None, None, size), classes, w, 1);
  }
}
