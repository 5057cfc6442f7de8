/** What the Gateway's event history means, as functions of the full log of everything
    it ever ingested. */
module EventLog {
  import opened Wrappers
  import opened Sequences

  // The log itself is never stored by the program (`EventHistory` in `src/tfr/gateway.py`): it
  // keeps a bounded window per world and some counters.

  /** World names, compared only for equality. */
  type World(==, !new)

  /** The rest of an event: identity, text, metadata. */
  type Content(==, !new)

  datatype EventKind =
    | RawOutput | Command | Speech | Say | Pose | Page | Channel | Emit | System
    | Connection | Telnet | AgentRequest | AgentResponse | AgentAction | Plugin

  datatype ActorType = Human | Agent | PluginActor | Startup | Idle | SystemActor

  type EventClass = (EventKind, Option<ActorType>)

  datatype Event = Event(world: World, generation: nat, kind: EventKind,
                         actorType: Option<ActorType>, content: Content)
  {
    function Class(): EventClass { (kind, actorType) }
  }

  datatype Sequenced = Sequenced(cursor: nat, event: Event)

  type Log = seq<Sequenced>

  /** Cursors count ingested events from 1. */
  ghost predicate Numbered(log: Log) {
    forall i :: 0 <= i < |log| ==> log[i].cursor == i + 1
  }

  ghost predicate Ascending(s: seq<Sequenced>) {
    forall i, j :: 0 <= i < j < |s| ==> s[i].cursor < s[j].cursor
  }

  function Inside(w: World): Sequenced -> bool { (x: Sequenced) => x.event.world == w }

  function InWorld(s: seq<Sequenced>, w: World): seq<Sequenced> { Filter(s, Inside(w)) }

  /** A subscriber's request. `projection` is the Gateway's own filter; an absent filter is
      one that accepts every event. */
  datatype Query = Query(worlds: Option<set<World>>, projection: Event -> bool,
                         filter: Event -> bool, after: Option<nat>)
  {
    predicate Covers(w: World) { worlds.None? || w in worlds.value }

    predicate Allows(e: Event) { projection(e) && filter(e) }

    predicate Accepts(x: Sequenced) {
      Covers(x.event.world) && Allows(x.event) && (after.None? || x.cursor > after.value)
    }
  }

  function Accepting(q: Query): Sequenced -> bool { (x: Sequenced) => q.Accepts(x) }

  function Accepted(s: seq<Sequenced>, q: Query): seq<Sequenced> { Filter(s, Accepting(q)) }

  /** The limit on retained events of each world. */
  datatype Limits = Limits(perWorld: map<World, nat>, default: nat) {
    predicate Positive() { default >= 1 && forall w :: w in perWorld ==> perWorld[w] >= 1 }

    function Of(w: World): nat { if w in perWorld then perWorld[w] else default }
  }

  /** The events of `w` that the history still holds, and those it has dropped. */
  function Window(log: Log, limits: Limits, w: World): seq<Sequenced> {
    LastN(InWorld(log, w), limits.Of(w))
  }

  function Dropped(log: Log, limits: Limits, w: World): (r: seq<Sequenced>)
    ensures r + Window(log, limits, w) == InWorld(log, w)
  {
    var all := InWorld(log, w);
    all[..|all| - |Window(log, limits, w)|]
  }

  /** The newest dropped cursor of `w`. */
  function Floor(log: Log, limits: Limits, w: World): nat {
    var d := Dropped(log, limits, w);
    if d == [] then 0 else d[|d| - 1].cursor
  }

  predicate Retained(log: Log, limits: Limits, x: Sequenced) {
    x.cursor > Floor(log, limits, x.event.world)
  }

  function Offering(log: Log, limits: Limits, q: Query): Sequenced -> bool {
    (x: Sequenced) => q.Accepts(x) && Retained(log, limits, x)
  }

  /** Every event the history can offer a subscriber, in cursor order. */
  function Candidates(log: Log, limits: Limits, q: Query): seq<Sequenced> {
    Filter(log, Offering(log, limits, q))
  }

  // ------------------------------------------------------------ facts about the log

  lemma {:induction false} FilterAscending(s: seq<Sequenced>, p: Sequenced -> bool)
    requires Ascending(s)
    ensures Ascending(Filter(s, p))
  {
    if s != [] {
      var init := s[..|s| - 1];
      FilterAscending(init, p);
      FilterMember(init, p);
      forall i | 0 <= i < |Filter(init, p)| ensures Filter(init, p)[i].cursor < s[|s| - 1].cursor {
        assert Filter(init, p)[i] in init;
      }
    }
  }

  lemma {:induction false} LastIsGreatest(a: seq<Sequenced>)
    requires Ascending(a) && a != []
    ensures var x := a[|a| - 1];
      && Ascending(a[..|a| - 1])
      && forall z :: z in a[..|a| - 1] <==> z in a && z.cursor != x.cursor
    ensures forall z :: z in a ==> z.cursor <= a[|a| - 1].cursor
  {
    var x := a[|a| - 1];
    assert a == a[..|a| - 1] + [x];
  }

  lemma {:induction false} AscendingUnique(a: seq<Sequenced>, b: seq<Sequenced>)
    requires Ascending(a) && Ascending(b)
    requires forall x :: x in a <==> x in b
    ensures a == b
  {
    if a != [] && b != [] {
      LastIsGreatest(a);
      LastIsGreatest(b);
      assert a[|a| - 1] in b && b[|b| - 1] in a;
      AscendingUnique(a[..|a| - 1], b[..|b| - 1]);
      assert a == a[..|a| - 1] + [a[|a| - 1]] && b == b[..|b| - 1] + [b[|b| - 1]];
    } else if a != [] {
      HasElement(a);
      assert false;
    } else if b != [] {
      HasElement(b);
      assert false;
    }
  }

  lemma {:induction false} WorldIsAscending(log: Log, w: World)
    requires Numbered(log)
    ensures Ascending(InWorld(log, w))
    ensures forall x :: x in InWorld(log, w) <==> x in log && x.event.world == w
  {
    FilterAscending(log, Inside(w));
    FilterMember(log, Inside(w));
  }

  /** The last of an older part lies between the parts. */
  lemma {:induction false} PartsByLast(d: seq<Sequenced>, k: seq<Sequenced>)
    requires Ascending(d + k) && d != []
    ensures forall x :: x in d ==> x.cursor <= d[|d| - 1].cursor
    ensures forall x :: x in k ==> x.cursor > d[|d| - 1].cursor
  {
    var all := d + k;
    assert forall i :: 0 <= i < |d| ==> d[i] == all[i];
    assert forall i :: 0 <= i < |k| ==> k[i] == all[|d| + i];
  }

  lemma {:induction false} FloorSplits(log: Log, limits: Limits, w: World)
    requires Ascending(InWorld(log, w))
    ensures forall x :: x in Dropped(log, limits, w) ==> x.cursor <= Floor(log, limits, w)
    ensures forall x :: x in Window(log, limits, w) && x.cursor > 0 ==> x.cursor > Floor(log, limits, w)
  {
    hide InWorld, Window, Dropped, Ascending;
    if Dropped(log, limits, w) != [] {
      PartsByLast(Dropped(log, limits, w), Window(log, limits, w));
    }
  }

  lemma {:induction false} SplitAscending(d: seq<Sequenced>, k: seq<Sequenced>)
    requires Ascending(d + k)
    ensures Ascending(d) && Ascending(k)
    ensures forall x :: x in d + k <==> x in d || x in k
  {
    assert forall i :: 0 <= i < |d| ==> d[i] == (d + k)[i];
    assert forall i :: 0 <= i < |k| ==> k[i] == (d + k)[|d| + i];
  }

  /** The window of a world is exactly its retained events. */
  lemma {:induction false} WindowIsRetained(log: Log, limits: Limits, w: World)
    requires Numbered(log)
    ensures forall x :: x in Window(log, limits, w) <==> x in log && x.event.world == w && Retained(log, limits, x)
    ensures forall x :: x in Dropped(log, limits, w) <==> x in log && x.event.world == w && !Retained(log, limits, x)
    ensures Ascending(Window(log, limits, w)) && Ascending(Dropped(log, limits, w))
  {
    WorldIsAscending(log, w);
    FloorSplits(log, limits, w);
    SplitAscending(Dropped(log, limits, w), Window(log, limits, w));
    assert forall x :: x in log ==> x.cursor > 0;
    hide InWorld, Window, Dropped, Floor;
  }

  /** What the history can offer from one world is what it accepts in that world's window. */
  lemma {:induction false} CandidatesInWorld(log: Log, limits: Limits, q: Query, w: World)
    requires Numbered(log)
    ensures InWorld(Candidates(log, limits, q), w) == Accepted(Window(log, limits, w), q)
  {
    var c := Candidates(log, limits, q);
    CandidatesAre(log, limits, q);
    WindowIsRetained(log, limits, w);
    FilterAscending(c, Inside(w));
    FilterMember(c, Inside(w));
    FilterAscending(Window(log, limits, w), Accepting(q));
    FilterMember(Window(log, limits, w), Accepting(q));
    AscendingUnique(InWorld(c, w), Accepted(Window(log, limits, w), q));
  }

  lemma {:induction false} CandidatesAre(log: Log, limits: Limits, q: Query)
    requires Numbered(log)
    ensures Ascending(Candidates(log, limits, q))
    ensures forall x :: x in Candidates(log, limits, q) <==> x in log && q.Accepts(x) && Retained(log, limits, x)
  {
    FilterAscending(log, Offering(log, limits, q));
    FilterMember(log, Offering(log, limits, q));
  }

  function Receiving(q: Query): Sequenced -> bool {
    (x: Sequenced) => q.Covers(x.event.world) && q.Allows(x.event)
  }

  /** What a subscriber attached at cursor `from` is owed after its snapshot. */
  function Live(log: Log, from: nat, q: Query): seq<Sequenced>
    requires from <= |log|
  {
    Filter(log[from..], Receiving(q))
  }

  lemma {:induction false} LaterAre(later: Log, from: nat, q: Query)
    requires Numbered(later) && from <= |later|
    ensures var live := Live(later, from, q);
      && Ascending(live)
      && (forall x :: x in live <==> x in later && x.cursor > from && Receiving(q)(x))
  {
    var part := later[from..];
    FilterAscending(part, Receiving(q));
    FilterMember(part, Receiving(q));
    forall x ensures x in part <==> x in later && x.cursor > from {
      if x in later && x.cursor > from {
        var i :| 0 <= i < |later| && later[i] == x;
        assert part[i - from] == x;
      }
      if x in part {
        var i :| 0 <= i < |part| && part[i] == x;
        assert later[from + i] == x;
      }
    }
  }

  lemma {:induction false} LiveGrows(log: Log, item: Sequenced, from: nat, q: Query)
    requires from <= |log|
    ensures Live(log + [item], from, q) ==
      if q.Covers(item.event.world) && q.Allows(item.event) then Live(log, from, q) + [item] else Live(log, from, q)
  {
    hide Filter;
    assert (log + [item])[from..] == log[from..] + [item];
    FilterSnoc(log[from..], item, Receiving(q));
  }

  /** Ingesting one event slides its world's window and leaves the others alone. */
  lemma {:induction false} WindowSlides(log: Log, limits: Limits, item: Sequenced)
    requires limits.Positive()
    ensures var w := item.event.world;
      var window := Window(log, limits, w);
      var full := |window| == limits.Of(w);
      && InWorld(log + [item], w) == InWorld(log, w) + [item]
      && (full ==> Window(log + [item], limits, w) == window[1..] + [item])
      && (full ==> Dropped(log + [item], limits, w) == Dropped(log, limits, w) + [window[0]])
      && (!full ==> Window(log + [item], limits, w) == window + [item])
      && (!full ==> Dropped(log + [item], limits, w) == Dropped(log, limits, w))
    ensures forall v :: v != item.event.world ==> InWorld(log + [item], v) == InWorld(log, v)
    ensures forall v :: v != item.event.world ==> Dropped(log + [item], limits, v) == Dropped(log, limits, v)
    ensures forall v :: v != item.event.world ==> Window(log + [item], limits, v) == Window(log, limits, v)
  {
    hide Filter;
    var w := item.event.world;
    FilterSnoc(log, item, Inside(w));
    forall v | v != w ensures InWorld(log + [item], v) == InWorld(log, v) {
      FilterSnoc(log, item, Inside(v));
    }
    LastNSnoc(InWorld(log, w), item, limits.Of(w));
  }
}
