/** What a history answer and a live queue hold, in terms of the log's events alone. */
module HistoryMeaning {
  import opened Wrappers
  import opened Sequences
  import opened EventLog
  import opened Snapshot
  import opened SnapshotCounts
  import opened SnapshotMeaning
  import opened EventHistory

  /** The events that the request asks for and the history still holds, of one world and newer
      than `x`. */
  ghost function NewerAsked(log: Log, limits: Limits, worlds: Option<set<World>>, projection: Event -> bool,
                            filter: Event -> bool, after: Option<nat>, x: Sequenced): set<Sequenced> {
    set y | y in log && y.event.world == x.event.world && y.cursor > x.cursor &&
            Held(log, limits, y) && Meets(worlds, projection, filter, after, y)
  }

  /** What a per-world limit leaves of the events asked for and still held. */
  ghost predicate Takable(log: Log, limits: Limits, worlds: Option<set<World>>, projection: Event -> bool, filter: Event -> bool,
                          after: Option<nat>, perWorld: Option<nat>, x: Sequenced) {
    && Held(log, limits, x) && Meets(worlds, projection, filter, after, x)
    && (perWorld.None? || |NewerAsked(log, limits, worlds, projection, filter, after, x)| < perWorld.value)
  }

  /** A snapshot is empty when no history is wanted. Otherwise it is the newest of the events
      asked for that fit: the per-world limit first, then the total and, only with a per-world
      limit, the bytes. */
  lemma {:induction false} SnapshotHolds(snapshot: HistorySnapshot, log: Log, limits: Limits, worlds: Option<set<World>>,
                                         projection: Event -> bool, filter: Event -> bool, after: Option<nat>, b: Budget,
                                         classes: EventClass -> bool)
    requires Numbered(log) && Tells(snapshot, log, limits, Query(worlds, projection, filter, after), b, classes)
    ensures if !b.includeHistory then snapshot.events == []
      else NewestFitting((iset x | Takable(log, limits, worlds, projection, filter, after, b.perWorld, x)),
                         snapshot.events, b.events, if b.perWorld.Some? then b.bytes else None, b.size)
  {
    var candidates := Candidates(log, limits, Query(worlds, projection, filter, after));
    CandidatesMeet(log, limits, worlds, projection, filter, after);
    SelectionMeans(candidates, b.includeHistory, b.perWorld, b.events, b.bytes, b.size);
    assert b == Budget(b.includeHistory, b.perWorld, b.events, b.bytes, b.size);
    hide Candidates, SnapshotEvents, Held, Meets, NewestFitting, Incomplete, OldestTells, Gap, CountsTell;
    forall x ensures Takable(log, limits, worlds, projection, filter, after, b.perWorld, x) <==> Eligible(candidates, b.perWorld, x) {
      assert NewerAsked(log, limits, worlds, projection, filter, after, x) == NewerCandidates(candidates, x) by {
        forall y ensures y in candidates ==> y in log {
          if Held(log, limits, y) {
            HeldIsLogged(log, limits, y);
          }
        }
      }
    }
    assert (iset x | Takable(log, limits, worlds, projection, filter, after, b.perWorld, x)) == (iset x | Eligible(candidates, b.perWorld, x));
  }

  lemma {:induction false} HeldIsLogged(log: Log, limits: Limits, x: Sequenced)
    requires Held(log, limits, x)
    ensures x in log
  {
  }

  /** The counts are those of the newest generation of each wanted world: the events of that
      generation that were ever projected and whose class passes, unless there are none. */
  lemma {:induction false} CountsAre(snapshot: HistorySnapshot, log: Log, limits: Limits, worlds: Option<set<World>>,
                                     projection: Event -> bool, filter: Event -> bool, after: Option<nat>, b: Budget,
                                     classes: EventClass -> bool, w: World, g: nat)
    requires Numbered(log) && Tells(snapshot, log, limits, Query(worlds, projection, filter, after), b, classes)
    ensures (w, g) in snapshot.availableCounts <==>
      && (worlds.None? || w in worlds.value)
      && (exists x :: x in log && x.event.world == w && x.event.generation == g)
      && (forall x :: x in log && x.event.world == w ==> x.event.generation <= g)
      && CountedEvents(log, projection, classes, w, g) != {}
    ensures (w, g) in snapshot.availableCounts ==> snapshot.availableCounts[(w, g)] == |CountedEvents(log, projection, classes, w, g)|
  {
    hide Candidates, SnapshotEvents, Incomplete, OldestTells, Gap;
    assert CountsTell(snapshot.availableCounts, log, Query(worlds, projection, filter, after), classes);
    AvailableIs(log, projection, classes, w, g);
    WorldIsAscending(log, w);
    hide Filter, InWorld, CountedEvents;
  }

  /** A projected event that the history no longer holds. */
  ghost predicate Gone(log: Log, limits: Limits, projection: Event -> bool, x: Sequenced) {
    x in log && !Held(log, limits, x) && projection(x.event)
  }

  lemma {:induction false} GoneIsLost(log: Log, limits: Limits, projection: Event -> bool, x: Sequenced)
    requires Numbered(log)
    ensures Lost(log, limits, projection, x) <==> Gone(log, limits, projection, x)
  {
    LostMeans(log, limits, projection, x);
    RetainedIs(log, limits, x);
  }

  /** A world and generation is reported as a gap, on a resumed request only, when an event of
      it that was asked for and is still held is left out, or when it is a wanted world's newest
      generation of which a projected event was dropped and one whose class passes was dropped
      after the cursor. */
  lemma {:induction false} GapsAre(snapshot: HistorySnapshot, log: Log, limits: Limits, worlds: Option<set<World>>,
                                   projection: Event -> bool, filter: Event -> bool, after: Option<nat>, b: Budget,
                                   classes: EventClass -> bool, w: World, g: nat)
    requires Numbered(log) && Tells(snapshot, log, limits, Query(worlds, projection, filter, after), b, classes)
    ensures (w, g) in snapshot.afterCursorGaps <==> (after.Some? && (
      || (exists x :: Held(log, limits, x) && Meets(worlds, projection, filter, after, x) &&
            x.event.world == w && x.event.generation == g && x !in snapshot.events)
      || (&& (worlds.None? || w in worlds.value)
          && (forall x :: Gone(log, limits, projection, x) && x.event.world == w ==> x.event.generation <= g)
          && (exists x :: Gone(log, limits, projection, x) && x.event.world == w && x.event.generation == g &&
                classes((x.event.kind, x.event.actorType)) && x.cursor > after.value))))
  {
    var q := Query(worlds, projection, filter, after);
    CandidatesMeet(log, limits, worlds, projection, filter, after);
    forall x ensures Lost(log, limits, projection, x) <==> Gone(log, limits, projection, x) {
      GoneIsLost(log, limits, projection, x);
    }
    assert (w, g) in snapshot.afterCursorGaps <==> Gap(log, limits, q, snapshot.events, classes, w, g);
    hide Candidates, Held, Meets, Gone, Lost, Tells;
  }

  /** History is reported truncated when an event asked for and still held is left out, or a
      projected event after the cursor, of any world, is no longer held. */
  lemma {:induction false} TruncatedIs(snapshot: HistorySnapshot, log: Log, limits: Limits, worlds: Option<set<World>>,
                                       projection: Event -> bool, filter: Event -> bool, after: Option<nat>, b: Budget,
                                       classes: EventClass -> bool)
    requires Numbered(log) && Tells(snapshot, log, limits, Query(worlds, projection, filter, after), b, classes)
    ensures snapshot.truncated <==> (b.includeHistory && (
      || (exists x :: Held(log, limits, x) && Meets(worlds, projection, filter, after, x) && x !in snapshot.events)
      || (after.Some? && exists x :: Gone(log, limits, projection, x) && x.cursor > after.value)))
  {
    var q := Query(worlds, projection, filter, after);
    CandidatesMeet(log, limits, worlds, projection, filter, after);
    forall x ensures Lost(log, limits, projection, x) <==> Gone(log, limits, projection, x) {
      GoneIsLost(log, limits, projection, x);
    }
    assert snapshot.truncated == (b.includeHistory && Incomplete(log, limits, q, snapshot.events));
    hide Candidates, Held, Meets, Gone, Lost, Tells;
  }

  /** The oldest cursor is the least among the projected events held of the wanted worlds,
      whatever the filter and the cursor, or one past the newest when there is none. */
  lemma {:induction false} OldestIs(snapshot: HistorySnapshot, log: Log, limits: Limits, worlds: Option<set<World>>,
                                    projection: Event -> bool, filter: Event -> bool, after: Option<nat>, b: Budget,
                                    classes: EventClass -> bool)
    requires Numbered(log) && Tells(snapshot, log, limits, Query(worlds, projection, filter, after), b, classes)
    ensures forall x :: Held(log, limits, x) && (worlds.None? || x.event.world in worlds.value) && projection(x.event) ==>
      snapshot.oldestCursor <= x.cursor
    ensures snapshot.oldestCursor == |log| + 1 || exists x ::
      && Held(log, limits, x) && (worlds.None? || x.event.world in worlds.value) && projection(x.event)
      && x.cursor == snapshot.oldestCursor
  {
    var q := Query(worlds, projection, filter, after);
    forall x ensures Offered(log, limits, q, x) <==>
      Held(log, limits, x) && (worlds.None? || x.event.world in worlds.value) && projection(x.event)
    {
      RetainedIs(log, limits, x);
      if Held(log, limits, x) {
        HeldIsLogged(log, limits, x);
      }
    }
    assert OldestTells(snapshot.oldestCursor, log, limits, q);
    hide Tells, Held, Offered;
  }

  /** What a live queue was ever given, between the snapshot and now: in order and once, every
      event since the snapshot's cursor that is projected, of the request's worlds and passes
      its filter, and nothing else; all of it is after the request's own cursor. */
  lemma {:induction false} StreamHolds(h: EventHistory, s: HistorySubscription)
    requires h.Valid() && s in h.subscribers
    ensures Ascending(s.stream)
    ensures forall x :: x in s.stream <==>
      && x in h.log && x.cursor > s.snapshot.cursor
      && (s.query.worlds.None? || x.event.world in s.query.worlds.value) && h.projection(x.event) && s.query.filter(x.event)
    ensures forall x :: x in s.stream && s.query.after.Some? ==> x.cursor > s.query.after.value
    ensures forall i :: 0 <= i < |s.queue| ==> s.queue[i].Some? && s.queue[i].value in s.stream
  {
    assert h.Attached(s, h.log);
    StreamIs(h.log, s.snapshot.cursor, s.query);
    assert forall i :: 0 <= i < |s.queue| ==> s.queue[i] == Some(s.stream[s.taken + i]);
    hide Live;
  }

  lemma {:induction false} StreamIs(log: Log, from: nat, q: Query)
    requires Numbered(log) && from <= |log|
    ensures Ascending(Live(log, from, q))
    ensures forall x :: x in Live(log, from, q) <==>
      && x in log && x.cursor > from && (q.worlds.None? || x.event.world in q.worlds.value)
      && q.projection(x.event) && q.filter(x.event)
  {
    LaterAre(log, from, q);
    hide Live;
  }
}
