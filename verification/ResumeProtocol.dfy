/** One client's life on the Gateway's event stream, as a step system: hello, snapshot, live
    events, overflow, disconnect, reconnect. */
module ResumeProtocol {
  import opened Wrappers
  import opened Sequences
  import opened EventLog
  import opened Snapshot
  import opened EventHistory

  // `GatewayClient` in `src/tfr/gateway_client.py`, and the handshake and `_send_events` in
  // `src/tfr/gateway.py`, over the functions that `EventHistory` is proved against.

  const MAX_SNAPSHOT_EVENTS: nat := 1_000_000

  // --------------------------------------------------------------------- the client

  datatype Hello = Hello(after: Option<nat>, cursor: nat, count: nat, truncated: bool)

  /** What the client has adopted so far. `base` is its first hello cursor; `gaps` are the
      reconnects whose hello reported truncated history, as (old cursor, new cursor]. */
  datatype ClientState = ClientState(base: Option<nat>, cursor: nat, published: seq<Sequenced>, gaps: seq<(nat, nat)>)

  /** A live event: one already covered by the cursor is skipped. */
  function Received(c: ClientState, item: Sequenced): ClientState {
    if item.cursor <= c.cursor then c
    else c.(cursor := item.cursor, published := c.published + [item])
  }

  /** A complete snapshot: the first one sets the base, later ones publish their events. */
  function Adopted(c: ClientState, hello: Hello, events: seq<Sequenced>): ClientState {
    if c.base.None? then ClientState(Some(hello.cursor), hello.cursor, [], [])
    else ClientState(c.base, hello.cursor, c.published + events,
                     if hello.truncated then c.gaps + [(c.cursor, hello.cursor)] else c.gaps)
  }

  /** The order `_read_snapshot` insists on. */
  ghost predicate Ordered(events: seq<Sequenced>, maximum: nat) {
    Ascending(events) && forall i :: 0 <= i < |events| ==> 0 < events[i].cursor <= maximum
  }

  /** `_read_snapshot`: read `count` events, each after the one before and none beyond the
      hello's cursor. */
  method ReadSnapshot(incoming: seq<Sequenced>, count: nat, maximum: nat) returns (r: Result<seq<Sequenced>, string>)
    ensures r.Success? <==> count <= |incoming| && Ordered(incoming[..count], maximum)
    ensures r.Success? ==> r.value == incoming[..count]
  {
    var events: seq<Sequenced> := [];
    var previous := 0;
    for i := 0 to count
      invariant i <= |incoming| && events == incoming[..i]
      invariant Ordered(incoming[..i], maximum)
      invariant previous == if i == 0 then 0 else incoming[i - 1].cursor
    {
      if i >= |incoming| {
        return Failure("gateway disconnected during history snapshot");
      }
      if incoming[i].cursor <= previous || incoming[i].cursor > maximum {
        assert count <= |incoming| ==> !Ordered(incoming[..count], maximum) by {
          if count <= |incoming| {
            assert incoming[..count][i] == incoming[i];
            assert i > 0 ==> incoming[..count][i - 1] == incoming[i - 1];
          }
        }
        return Failure("snapshot event cursors are not ordered");
      }
      previous := incoming[i].cursor;
      assert incoming[..i + 1] == incoming[..i] + [incoming[i]];
      events := events + [incoming[i]];
    }
    return Success(events);
  }

  /** The client's fields that follow the stream. */
  class GatewayClient {
    var base: Option<nat>
    var cursor: nat
    var initialEvents: seq<Sequenced>
    var published: seq<Sequenced>
    var historyTruncated: bool
    ghost var gaps: seq<(nat, nat)>

    ghost function State(): ClientState
      reads this
    {
      ClientState(base, cursor, published, gaps)
    }

    /** The first `connect`: the snapshot is handed to the caller, not published. */
    constructor (hello: Hello, events: seq<Sequenced>)
      ensures State() == Adopted(ClientState(None, 0, [], []), hello, events)
      ensures initialEvents == events && historyTruncated == hello.truncated
    {
      base, cursor, initialEvents, published, historyTruncated := Some(hello.cursor), hello.cursor, events, [], hello.truncated;
      gaps := [];
    }

    /** One live event in `_run`. */
    method HandleEvent(item: Sequenced)
      modifies this
      ensures State() == Received(old(State()), item)
      ensures initialEvents == old(initialEvents)
    {
      if item.cursor <= cursor {
        return;
      }
      cursor := item.cursor;
      published := published + [item];
    }

    /** The accepted end of `reconnect`: take over the new cursor and publish the snapshot. */
    method Reconnect(hello: Hello, events: seq<Sequenced>)
      requires base.Some?
      modifies this
      ensures State() == Adopted(old(State()), hello, events)
      ensures initialEvents == events && historyTruncated == hello.truncated
    {
      if hello.truncated {
        gaps := gaps + [(cursor, hello.cursor)];
      }
      cursor := hello.cursor;
      historyTruncated := hello.truncated;
      initialEvents := events;
      ghost var before := published;
      for i := 0 to |events|
        invariant published == before + events[..i]
        invariant base == old(base) && cursor == hello.cursor && initialEvents == events && historyTruncated == hello.truncated
        invariant gaps == Adopted(old(State()), hello, events).gaps
      {
        assert events[..i + 1] == events[..i] + [events[i]];
        published := published + [events[i]];
      }
      assert events[..|events|] == events;
    }
  }

  // ---------------------------------------------------------------- the step system

  /** Configuration of the Gateway that never changes during a run. */
  datatype Gateway = Gateway(limits: Limits, queueSize: nat, projection: Event -> bool) {
    /** The unlimited request a native client makes. */
    function Request(after: Option<nat>): Query { Query(None, projection, (e: Event) => true, after) }
  }

  /** One connection. The wire is a FIFO of event messages; the hello precedes them until
      `adopted`, and an overflow error follows them once `ended`. `sent` records every live
      event taken from the queue. */
  datatype Link = Link(hello: Hello, adopted: bool, wire: seq<Sequenced>, ended: bool,
                                   queue: seq<Option<Sequenced>>, attached: bool, sent: seq<Sequenced>)

  datatype Exchange = Exchange(log: Log, client: ClientState, link: Option<Link>)

  datatype Step =
    | Publish(event: Event)   // the history ingests one event
    | Connect                 // hello and subscription, on a first connection or a reconnect
    | Send                    // the sender takes one entry from the queue
    | Adopt                   // the client has read the whole snapshot
    | Receive                 // the client reads one live event
    | Disconnect              // either side drops the connection; what is on the wire is lost

  function Start(): Exchange { Exchange([], ClientState(None, 0, [], []), None) }

  function Delivered(g: Gateway, c: Link, item: Sequenced): Link {
    if c.attached && g.projection(item.event)
    then c.(queue := Enqueue(c.queue, item, g.queueSize), attached := |c.queue| < g.queueSize)
    else c
  }

  /** The sender's step: one live event onto the wire, or the end marker. */
  function Taken(l: Link): Link
    requires l.queue != []
  {
    var rest := l.(queue := l.queue[1..]);
    if l.queue[0].None? then rest.(ended := true)
    else rest.(wire := l.wire + [l.queue[0].value], sent := l.sent + [l.queue[0].value])
  }

  ghost function Opened(g: Gateway, s: Exchange): Option<Link> {
    var after := if s.client.base.None? then None else Some(s.client.cursor);
    var events := Candidates(s.log, g.limits, g.Request(after));
    if (after.Some? && after.value > |s.log|) || |events| > MAX_SNAPSHOT_EVENTS then None
    else Some(Link(Hello(after, |s.log|, |events|, Incomplete(s.log, g.limits, g.Request(after), events)),
                         false, events, false, [], true, []))
  }

  /** A connection opens with the snapshot that `EventHistory.Subscribe` answers an unlimited
      request with. */
  lemma {:induction false} OpenedBySubscribe(g: Gateway, s: Exchange, snapshot: HistorySnapshot, classes: EventClass -> bool, size: Event -> nat)
    requires var after := if s.client.base.None? then None else Some(s.client.cursor);
      Tells(snapshot, s.log, g.limits, g.Request(after), Budget(true, None, None, None, size), classes)
    ensures Opened(g, s).Some? ==>
      var l := Opened(g, s).value;
      && l.wire == snapshot.events
      && l.hello == Hello(if s.client.base.None? then None else Some(s.client.cursor), snapshot.cursor, |snapshot.events|, snapshot.truncated)
  {
    hide Candidates, SnapshotEvents, Incomplete, CountsTell, OldestTells, Gap;
    var after := if s.client.base.None? then None else Some(s.client.cursor);
    UnlimitedSnapshot(Candidates(s.log, g.limits, g.Request(after)), size);
  }

  ghost predicate Enabled(s: Exchange, step: Step) {
    match step
    case Publish(_) => true
    case Connect => true
    case Send => s.link.Some? && !s.link.value.ended && s.link.value.queue != []
    case Adopt => s.link.Some? && !s.link.value.adopted && s.link.value.hello.count <= |s.link.value.wire|
    case Receive => s.link.Some? && s.link.value.adopted && s.link.value.wire != []
    case Disconnect => true
  }

  /** The system after one step. */
  ghost function Next(g: Gateway, s: Exchange, step: Step): Exchange
    requires Enabled(s, step)
  {
    match step
    case Publish(event) =>
      var item := Sequenced(|s.log| + 1, event);
      Exchange(s.log + [item], s.client,
             if s.link.Some? then Some(Delivered(g, s.link.value, item)) else None)
    case Connect =>
      s.(link := Opened(g, s))
    case Send =>
      s.(link := Some(Taken(s.link.value)))
    case Adopt =>
      var c := s.link.value;
      var events := c.wire[..c.hello.count];
      if Ordered(events, c.hello.cursor)
      then s.(client := Adopted(s.client, c.hello, events),
              link := Some(c.(adopted := true, wire := c.wire[c.hello.count..])))
      else s.(link := None)
    case Receive =>
      var c := s.link.value;
      s.(client := Received(s.client, c.wire[0]), link := Some(c.(wire := c.wire[1..])))
    case Disconnect =>
      s.(link := None)
  }

  ghost predicate Runs(g: Gateway, s: Exchange, steps: seq<Step>)
    decreases |steps|
  {
    steps == [] || (Enabled(s, steps[0]) && Runs(g, Next(g, s, steps[0]), steps[1..]))
  }

  ghost function After(g: Gateway, s: Exchange, steps: seq<Step>): Exchange
    requires Runs(g, s, steps)
    decreases |steps|
  {
    if steps == [] then s else After(g, Next(g, s, steps[0]), steps[1..])
  }

  // ---------------------------------------------------------- what every run keeps

  /** A cursor that some truncated reconnect jumped over. */
  ghost predicate Excused(gaps: seq<(nat, nat)>, cursor: nat) {
    exists i :: 0 <= i < |gaps| && gaps[i].0 < cursor <= gaps[i].1
  }

  ghost predicate Wanted(g: Gateway, log: Log, x: Sequenced) { x in log && g.projection(x.event) }

  /** Everything published is a projected event up to the cursor, in order and once, and
      only a truncated reconnect excuses leaving one out. */
  ghost predicate ClientInv(g: Gateway, log: Log, c: ClientState) {
    if c.base.None? then c == ClientState(None, 0, [], [])
    else
      && c.base.value <= c.cursor <= |log|
      && Ascending(c.published)
      && (forall x :: x in c.published ==> Wanted(g, log, x) && c.base.value < x.cursor <= c.cursor)
      && (forall x :: Wanted(g, log, x) && c.base.value < x.cursor <= c.cursor ==>
            x in c.published || Excused(c.gaps, x.cursor))
  }

  function AfterOf(c: ClientState): Option<nat> { if c.base.None? then None else Some(c.cursor) }

  ghost function SnapshotOf(g: Gateway, log: Log, h: Hello): seq<Sequenced>
    requires h.cursor <= |log|
  {
    Candidates(log[..h.cursor], g.limits, g.Request(h.after))
  }

  /** The queue and what was taken from it are the live events in order, until an overflow. */
  ghost predicate QueueInv(g: Gateway, live: seq<Sequenced>, l: Link) {
    && |l.sent| <= |live| && l.sent == live[..|l.sent|]
    && (l.ended ==> !l.attached)
    && (if l.attached
        then |l.sent| + |l.queue| == |live| && forall i :: 0 <= i < |l.queue| ==> l.queue[i] == Some(live[|l.sent| + i])
        else l.queue == [None] || l.queue == [])
  }

  /** Before adoption the wire starts with the whole snapshot the hello describes. */
  ghost predicate PendingInv(g: Gateway, log: Log, l: Link)
    requires l.hello.cursor <= |log|
  {
    var events := SnapshotOf(g, log, l.hello);
    && l.hello.count == |events|
    && l.wire == events + l.sent
    && l.hello.truncated == Incomplete(log[..l.hello.cursor], g.limits, g.Request(l.hello.after), events)
  }

  /** After adoption the wire holds the sent events that follow the client's cursor. */
  ghost predicate FlowInv(cursor: nat, from: nat, sent: seq<Sequenced>, wire: seq<Sequenced>) {
    && |wire| <= |sent| && wire == sent[|sent| - |wire|..]
    && cursor == if |wire| == |sent| then from else sent[|sent| - |wire| - 1].cursor
  }

  ghost predicate WireInv(g: Gateway, log: Log, c: ClientState, l: Link) {
    && l.hello.cursor <= |log|
    && (if l.adopted then c.base.Some? && FlowInv(c.cursor, l.hello.cursor, l.sent, l.wire)
        else l.hello.after == AfterOf(c) && c.cursor <= l.hello.cursor && PendingInv(g, log, l))
  }

  ghost predicate LinkInv(g: Gateway, log: Log, c: ClientState, l: Link) {
    && l.hello.cursor <= |log|
    && QueueInv(g, Live(log, l.hello.cursor, g.Request(None)), l)
    && WireInv(g, log, c, l)
  }

  ghost predicate Inv(g: Gateway, s: Exchange) {
    && Numbered(s.log)
    && ClientInv(g, s.log, s.client)
    && (s.link.Some? ==> LinkInv(g, s.log, s.client, s.link.value))
  }

  lemma {:induction false} LiveAre(g: Gateway, log: Log, from: nat)
    requires Numbered(log) && from <= |log|
    ensures var live := Live(log, from, g.Request(None));
      && Ascending(live)
      && (forall x :: x in live <==> Wanted(g, log, x) && x.cursor > from)
  {
    LaterAre(log, from, g.Request(None));
    hide Live;
  }

  lemma {:induction false} ClientInvGrows(g: Gateway, log: Log, item: Sequenced, c: ClientState)
    requires Numbered(log) && item.cursor == |log| + 1 && ClientInv(g, log, c)
    ensures ClientInv(g, log + [item], c)
  {
    assert forall x :: x in log + [item] <==> x in log || x == item;
  }

  /** A live event joins the queue of every attached subscriber that wants it. */
  lemma {:induction false} DeliveryKeepsQueue(g: Gateway, live: seq<Sequenced>, item: Sequenced, l: Link)
    requires QueueInv(g, live, l)
    ensures QueueInv(g, if g.projection(item.event) then live + [item] else live, Delivered(g, l, item))
  {
    var live' := if g.projection(item.event) then live + [item] else live;
    assert l.sent == live'[..|l.sent|];
    if l.attached && g.projection(item.event) && |l.queue| < g.queueSize {
      var l' := Delivered(g, l, item);
      assert l'.queue == l.queue + [Some(item)];
    }
  }

  /** Neither the wire nor the snapshot depends on later events. */
  lemma {:induction false} PublishKeepsWire(g: Gateway, log: Log, item: Sequenced, c: ClientState, l: Link)
    requires WireInv(g, log, c, l)
    ensures WireInv(g, log + [item], c, Delivered(g, l, item))
  {
    hide Candidates, Incomplete, FlowInv, Enqueue;
    assert (log + [item])[..l.hello.cursor] == log[..l.hello.cursor];
    assert SnapshotOf(g, log + [item], l.hello) == SnapshotOf(g, log, l.hello);
    hide SnapshotOf;
  }

  lemma {:induction false} PublishKeeps(g: Gateway, log: Log, item: Sequenced, c: ClientState, l: Link)
    requires LinkInv(g, log, c, l)
    ensures LinkInv(g, log + [item], c, Delivered(g, l, item))
  {
    hide Live, QueueInv, WireInv, Enqueue;
    LiveGrows(log, item, l.hello.cursor, g.Request(None));
    DeliveryKeepsQueue(g, Live(log, l.hello.cursor, g.Request(None)), item, l);
    PublishKeepsWire(g, log, item, c, l);
  }

  lemma {:induction false} ConnectKeeps(g: Gateway, s: Exchange)
    requires Inv(g, s)
    ensures Inv(g, Next(g, s, Connect))
  {
    hide Live, Candidates, Incomplete, ClientInv, Numbered;
    LiveStartsEmpty(s.log, g.Request(None));
    assert s.log[..|s.log|] == s.log;
    ClientCursorKnown(g, s.log, s.client);
  }

  lemma {:induction false} ClientCursorKnown(g: Gateway, log: Log, c: ClientState)
    requires ClientInv(g, log, c)
    ensures c.cursor <= |log|
  {
  }

  lemma {:induction false} SendKeepsQueue(g: Gateway, live: seq<Sequenced>, l: Link)
    requires QueueInv(g, live, l) && l.queue != []
    ensures QueueInv(g, live, Taken(l))
  {
    if l.queue[0].Some? {
      var sent' := l.sent + [l.queue[0].value];
      assert sent' == live[..|sent'|];
    }
  }

  lemma {:induction false} SendKeepsWire(g: Gateway, log: Log, c: ClientState, l: Link)
    requires WireInv(g, log, c, l) && l.queue != []
    ensures WireInv(g, log, c, Taken(l))
  {
    hide SnapshotOf, Incomplete;
    if l.queue[0].Some? {
      var x := l.queue[0].value;
      if l.adopted {
        assert (l.sent + [x])[|l.sent| - |l.wire|..] == l.sent[|l.sent| - |l.wire|..] + [x];
      } else {
        assert (SnapshotOf(g, log, l.hello) + l.sent) + [x] == SnapshotOf(g, log, l.hello) + (l.sent + [x]);
      }
    }
  }

  /** An honest snapshot is in order and within the hello's cursor. */
  lemma {:induction false} SnapshotOrdered(g: Gateway, log: Log, h: Hello)
    requires Numbered(log) && h.cursor <= |log|
    ensures Ordered(SnapshotOf(g, log, h), h.cursor)
    ensures forall x :: x in SnapshotOf(g, log, h) ==> Wanted(g, log, x) && (h.after.Some? ==> x.cursor > h.after.value)
  {
    CandidatesAre(log[..h.cursor], g.limits, g.Request(h.after));
    forall x | x in log[..h.cursor] ensures x in log && 0 < x.cursor <= h.cursor {
      var i :| 0 <= i < h.cursor && log[..h.cursor][i] == x;
      assert log[i] == x;
    }
    var events := SnapshotOf(g, log, h);
    assert forall i :: 0 <= i < |events| ==> events[i] in events;
    hide Candidates;
  }

  /** If the hello does not report truncation, the snapshot misses nothing it covers. */
  lemma {:induction false} SnapshotComplete(g: Gateway, log: Log, h: Hello, x: Sequenced)
    requires Numbered(log) && h.cursor <= |log| && h.after.Some?
    requires !Incomplete(log[..h.cursor], g.limits, g.Request(h.after), SnapshotOf(g, log, h))
    requires Wanted(g, log, x) && h.after.value < x.cursor <= h.cursor
    ensures x in SnapshotOf(g, log, h)
  {
    var past := log[..h.cursor];
    CandidatesAre(past, g.limits, g.Request(h.after));
    assert x in past by {
      var i :| 0 <= i < |log| && log[i] == x;
      assert past[i] == x;
    }
    LostMeans(past, g.limits, g.projection, x);
    hide Candidates, Retained, Lost;
  }

  lemma {:induction false} ExcusedMore(gaps: seq<(nat, nat)>, gap: (nat, nat), cursor: nat)
    ensures Excused(gaps + [gap], cursor) <==> Excused(gaps, cursor) || gap.0 < cursor <= gap.1
  {
    var more := gaps + [gap];
    if Excused(gaps, cursor) {
      var i :| 0 <= i < |gaps| && gaps[i].0 < cursor <= gaps[i].1;
      assert more[i] == gaps[i];
    }
    assert more[|gaps|] == gap;
  }

  lemma {:induction false} AdoptKeepsClient(g: Gateway, log: Log, c: ClientState, h: Hello)
    requires Numbered(log) && ClientInv(g, log, c) && h.cursor <= |log| && h.after == AfterOf(c)
    requires c.base.Some? ==> c.cursor <= h.cursor
    requires h.truncated == Incomplete(log[..h.cursor], g.limits, g.Request(h.after), SnapshotOf(g, log, h))
    ensures ClientInv(g, log, Adopted(c, h, SnapshotOf(g, log, h)))
  {
    if c.base.Some? {
      var events := SnapshotOf(g, log, h);
      SnapshotOrdered(g, log, h);
      hide SnapshotOf, Incomplete, Numbered, Excused, Wanted, Ascending;
      JoinAscending(c.published, events, c.cursor);
      forall x | Wanted(g, log, x) && c.base.value < x.cursor <= h.cursor
        ensures x in c.published + events || Excused(Adopted(c, h, events).gaps, x.cursor)
      {
        AdoptAccounts(g, log, c, h, x);
      }
    }
  }

  /** Every event that an adopting client now claims to cover is published or excused. */
  lemma {:induction false} AdoptAccounts(g: Gateway, log: Log, c: ClientState, h: Hello, x: Sequenced)
    requires Numbered(log) && ClientInv(g, log, c) && c.base.Some? && h.cursor <= |log| && h.after == AfterOf(c)
    requires h.truncated == Incomplete(log[..h.cursor], g.limits, g.Request(h.after), SnapshotOf(g, log, h))
    requires Wanted(g, log, x) && c.base.value < x.cursor <= h.cursor
    ensures x in c.published || x in SnapshotOf(g, log, h) || Excused(Adopted(c, h, SnapshotOf(g, log, h)).gaps, x.cursor)
  {
    hide SnapshotOf, Incomplete, Numbered, Excused, Wanted, Ascending;
    ExcusedMore(c.gaps, (c.cursor, h.cursor), x.cursor);
    if x.cursor > c.cursor && !h.truncated {
      SnapshotComplete(g, log, h, x);
    }
  }

  lemma {:induction false} JoinAscending(a: seq<Sequenced>, b: seq<Sequenced>, at: nat)
    requires Ascending(a) && Ascending(b)
    requires forall x :: x in a ==> x.cursor <= at
    requires forall x :: x in b ==> x.cursor > at
    ensures Ascending(a + b)
    ensures forall x :: x in a + b <==> x in a || x in b
  {
    assert forall i :: 0 <= i < |a| ==> a[i] in a;
    assert forall i :: 0 <= i < |b| ==> b[i] in b;
  }

  lemma {:induction false} AdoptKeepsWire(g: Gateway, log: Log, c: ClientState, l: Link, c': ClientState, l': Link)
    requires WireInv(g, log, c, l) && !l.adopted && l.hello.count <= |l.wire|
    requires c' == Adopted(c, l.hello, SnapshotOf(g, log, l.hello))
    requires l' == l.(adopted := true, wire := l.wire[l.hello.count..])
    ensures l.wire[..l.hello.count] == SnapshotOf(g, log, l.hello)
    ensures WireInv(g, log, c', l')
  {
    hide SnapshotOf, Incomplete;
    assert l'.wire == l.sent;
  }

  /** The client always finds the snapshot in order, and adopts it. */
  lemma {:induction false} AdoptAccepts(g: Gateway, s: Exchange)
    requires Inv(g, s) && Enabled(s, Adopt)
    ensures var l := s.link.value;
      && Ordered(l.wire[..l.hello.count], l.hello.cursor)
      && Next(g, s, Adopt) == Exchange(s.log, Adopted(s.client, l.hello, SnapshotOf(g, s.log, l.hello)),
                                       Some(l.(adopted := true, wire := l.wire[l.hello.count..])))
  {
    hide Ordered, SnapshotOf, Incomplete, Live, QueueInv, ClientInv, Adopted;
    var l := s.link.value;
    SnapshotOrdered(g, s.log, l.hello);
    assert l.wire[..l.hello.count] == SnapshotOf(g, s.log, l.hello);
  }

  lemma {:induction false} AdoptKeeps(g: Gateway, s: Exchange)
    requires Inv(g, s) && Enabled(s, Adopt)
    ensures Inv(g, Next(g, s, Adopt))
  {
    hide Ordered, SnapshotOf, Incomplete, Live, ClientInv, Adopted, Numbered, WireInv;
    AdoptAccepts(g, s);
    hide Next;
    var l := s.link.value;
    var c' := Adopted(s.client, l.hello, SnapshotOf(g, s.log, l.hello));
    var l' := l.(adopted := true, wire := l.wire[l.hello.count..]);
    AdoptKeepsWire(g, s.log, s.client, l, c', l');
    PendingFacts(g, s.log, s.client, l);
    AdoptKeepsClient(g, s.log, s.client, l.hello);
    assert QueueInv(g, Live(s.log, l.hello.cursor, g.Request(None)), l');
  }

  lemma {:induction false} PendingFacts(g: Gateway, log: Log, c: ClientState, l: Link)
    requires WireInv(g, log, c, l) && !l.adopted
    ensures l.hello.cursor <= |log| && l.hello.after == AfterOf(c) && c.cursor <= l.hello.cursor
    ensures l.hello.truncated == Incomplete(log[..l.hello.cursor], g.limits, g.Request(l.hello.after), SnapshotOf(g, log, l.hello))
  {
    hide SnapshotOf, Incomplete;
  }

  /** The next event on an adopted wire is the first wanted one after the client's cursor. */
  lemma {:induction false} NextOnWire(live: seq<Sequenced>, cursor: nat, from: nat, sent: seq<Sequenced>, wire: seq<Sequenced>)
    requires Ascending(live) && |sent| <= |live| && sent == live[..|sent|]
    requires FlowInv(cursor, from, sent, wire) && wire != []
    requires forall x :: x in live ==> x.cursor > from
    ensures wire[0] in live && from <= cursor < wire[0].cursor
    ensures forall x :: x in live && cursor < x.cursor <= wire[0].cursor ==> x == wire[0]
    ensures FlowInv(wire[0].cursor, from, sent, wire[1..])
  {
    var j := |sent| - |wire|;
    assert wire[0] == sent[j] == live[j];
    assert j > 0 ==> live[j - 1] == sent[j - 1];
    forall x | x in live && cursor < x.cursor <= wire[0].cursor ensures x == wire[0] {
      var i :| 0 <= i < |live| && live[i] == x;
    }
  }

  lemma {:induction false} ReceiveKeepsClient(g: Gateway, log: Log, c: ClientState, item: Sequenced)
    requires Numbered(log) && ClientInv(g, log, c) && c.base.Some?
    requires Wanted(g, log, item) && c.cursor < item.cursor
    requires forall x :: Wanted(g, log, x) && c.cursor < x.cursor <= item.cursor ==> x == item
    ensures ClientInv(g, log, Received(c, item))
  {
    JoinAscending(c.published, [item], c.cursor);
    assert item in [item];
  }

  /** Reading one live event moves only the wire and the client's cursor. */
  lemma {:induction false} ReceiveKeepsLink(g: Gateway, log: Log, c: ClientState, l: Link, c': ClientState, l': Link)
    requires LinkInv(g, log, c, l) && l.adopted && l.wire != []
    requires l' == l.(wire := l.wire[1..]) && c'.base.Some?
    requires FlowInv(c'.cursor, l.hello.cursor, l'.sent, l'.wire)
    ensures LinkInv(g, log, c', l')
  {
    hide Live, PendingInv, FlowInv;
  }

  lemma {:induction false} LinkFacts(g: Gateway, log: Log, c: ClientState, l: Link)
    requires LinkInv(g, log, c, l) && l.adopted
    ensures l.hello.cursor <= |log| && c.base.Some? && FlowInv(c.cursor, l.hello.cursor, l.sent, l.wire)
    ensures var live := Live(log, l.hello.cursor, g.Request(None)); |l.sent| <= |live| && l.sent == live[..|l.sent|]
  {
    hide Live, PendingInv, FlowInv;
  }

  lemma {:induction false} ReceiveKeeps(g: Gateway, s: Exchange)
    requires Inv(g, s) && Enabled(s, Receive)
    ensures Inv(g, Next(g, s, Receive))
  {
    hide Live, LinkInv, Ascending, ClientInv, Numbered, FlowInv, Wanted;
    var c, l := s.client, s.link.value;
    LinkFacts(g, s.log, c, l);
    LiveAre(g, s.log, l.hello.cursor);
    NextOnWire(Live(s.log, l.hello.cursor, g.Request(None)), c.cursor, l.hello.cursor, l.sent, l.wire);
    ReceiveKeepsClient(g, s.log, c, l.wire[0]);
    ReceiveKeepsLink(g, s.log, c, l, Received(c, l.wire[0]), l.(wire := l.wire[1..]));
  }

  lemma {:induction false} PublishStepKeeps(g: Gateway, s: Exchange, event: Event)
    requires Inv(g, s)
    ensures Inv(g, Next(g, s, Publish(event)))
  {
    var item := Sequenced(|s.log| + 1, event);
    assert Numbered(s.log + [item]);
    hide ClientInv, LinkInv, Delivered, Numbered;
    ClientInvGrows(g, s.log, item, s.client);
    if s.link.Some? {
      PublishKeeps(g, s.log, item, s.client, s.link.value);
    }
  }

  lemma {:induction false} SendKeeps(g: Gateway, s: Exchange)
    requires Inv(g, s) && Enabled(s, Send)
    ensures Inv(g, Next(g, s, Send))
  {
    hide Live, QueueInv, WireInv, ClientInv, Numbered;
    var l := s.link.value;
    SendKeepsQueue(g, Live(s.log, l.hello.cursor, g.Request(None)), l);
    SendKeepsWire(g, s.log, s.client, l);
  }

  lemma {:induction false} DisconnectKeeps(g: Gateway, s: Exchange)
    requires Inv(g, s) && Enabled(s, Disconnect)
    ensures Inv(g, Next(g, s, Disconnect))
  {
    hide ClientInv, Numbered;
  }

  lemma {:induction false} StepKeeps(g: Gateway, s: Exchange, step: Step)
    requires Inv(g, s) && Enabled(s, step)
    ensures Inv(g, Next(g, s, step))
  {
    hide Inv, Next, Enabled;
    match step
    case Publish(event) => PublishStepKeeps(g, s, event);
    case Connect => ConnectKeeps(g, s);
    case Send => SendKeeps(g, s);
    case Adopt => AdoptKeeps(g, s);
    case Receive => ReceiveKeeps(g, s);
    case Disconnect => DisconnectKeeps(g, s);
  }

  lemma {:induction false} RunKeeps(g: Gateway, s: Exchange, steps: seq<Step>)
    requires Inv(g, s) && Runs(g, s, steps)
    ensures Inv(g, After(g, s, steps))
    decreases |steps|
  {
    hide Inv, Next, Enabled;
    if steps != [] {
      StepKeeps(g, s, steps[0]);
      RunKeeps(g, Next(g, s, steps[0]), steps[1..]);
    }
  }

  // ------------------------------------------------------------------ what they mean

  /** The projected events the client owes its listeners: those after its first hello. */
  ghost function Owed(g: Gateway, log: Log, base: nat, cursor: nat): seq<Sequenced>
    requires base <= cursor <= |log|
  {
    Filter(log[base..cursor], (x: Sequenced) => g.projection(x.event))
  }

  lemma {:induction false} OwedAre(g: Gateway, log: Log, base: nat, cursor: nat)
    requires Numbered(log) && base <= cursor <= |log|
    ensures Ascending(Owed(g, log, base, cursor))
    ensures forall x :: x in Owed(g, log, base, cursor) <==> Wanted(g, log, x) && base < x.cursor <= cursor
  {
    PartOfLog(log, base, cursor);
    hide Filter, Numbered, Ascending;
    FilterAscending(log[base..cursor], (x: Sequenced) => g.projection(x.event));
    FilterMember(log[base..cursor], (x: Sequenced) => g.projection(x.event));
  }

  lemma {:induction false} PartOfLog(log: Log, base: nat, cursor: nat)
    requires Numbered(log) && base <= cursor <= |log|
    ensures Ascending(log[base..cursor])
    ensures forall x :: x in log[base..cursor] <==> x in log && base < x.cursor <= cursor
  {
    var part := log[base..cursor];
    assert forall i :: 0 <= i < |part| ==> part[i] == log[base + i];
    forall x | x in log && base < x.cursor <= cursor ensures x in part {
      var i :| 0 <= i < |log| && log[i] == x;
      assert part[i - base] == x;
    }
  }

  /** Over every interleaving of ingestion, sending, overflow, disconnect and reconnect: what
      a client publishes is in strict cursor order, only projected events after its first
      hello, and leaves out none except inside a reported gap. If no reconnect reported
      truncation it is exactly the projected events between base and cursor. */
  lemma {:induction false} ResumeExactlyOnce(g: Gateway, steps: seq<Step>)
    requires Runs(g, Start(), steps)
    ensures var s := After(g, Start(), steps);
      var c := s.client;
      && c.cursor <= |s.log|
      && Ascending(c.published)
      && (c.base.Some? ==>
            && c.base.value <= c.cursor
            && (forall x :: x in c.published ==>
                  x in s.log && g.projection(x.event) && c.base.value < x.cursor <= c.cursor)
            && (forall x :: x in s.log && g.projection(x.event) && c.base.value < x.cursor <= c.cursor ==>
                  x in c.published || exists i :: 0 <= i < |c.gaps| && c.gaps[i].0 < x.cursor <= c.gaps[i].1)
            && (c.gaps == [] ==> c.published == Owed(g, s.log, c.base.value, c.cursor)))
  {
    RunKeeps(g, Start(), steps);
    var s := After(g, Start(), steps);
    var c := s.client;
    forall x | c.base.Some? && Wanted(g, s.log, x) && c.base.value < x.cursor <= c.cursor
      ensures x in c.published || exists i :: 0 <= i < |c.gaps| && c.gaps[i].0 < x.cursor <= c.gaps[i].1
    {
      assert x in c.published || Excused(c.gaps, x.cursor);
    }
    assert c.base.Some? ==> forall x :: x in c.published ==> Wanted(g, s.log, x) && c.base.value < x.cursor <= c.cursor;
    hide Inv, After, Runs, Excused;
    if c.base.Some? {
      OwedAre(g, s.log, c.base.value, c.cursor);
      if c.gaps == [] {
        hide Owed, Wanted;
        AscendingUnique(c.published, Owed(g, s.log, c.base.value, c.cursor));
      }
    }
  }

  /** In every reachable state the client accepts the order of the snapshot it is sent, and
      the Gateway does not refuse the cursor it resumes from. */
  lemma {:induction false} ResumeAccepted(g: Gateway, steps: seq<Step>)
    requires Runs(g, Start(), steps)
    ensures var s := After(g, Start(), steps);
      && (Enabled(s, Adopt) ==>
            Ordered(s.link.value.wire[..s.link.value.hello.count], s.link.value.hello.cursor) && Next(g, s, Adopt).link.Some?)
      && (Opened(g, s).None? ==> |Candidates(s.log, g.limits, g.Request(AfterOf(s.client)))| > MAX_SNAPSHOT_EVENTS)
  {
    RunKeeps(g, Start(), steps);
    var s := After(g, Start(), steps);
    ClientCursorKnown(g, s.log, s.client);
    hide Inv, Candidates;
    if Enabled(s, Adopt) {
      AdoptAccepts(g, s);
    }
  }

  /** The switch from snapshot to live queue loses and repeats nothing: the snapshot taken at
      cursor `|log|` and the live events since then are together in strict cursor order, the
      live ones all after the snapshot's cursor, and an allowed event after the requested
      cursor that is in neither was reported as truncated. */
  lemma {:induction false} SwitchIsSeamless(log: Log, limits: Limits, q: Query, later: Log, size: Event -> nat)
    requires Numbered(later) && |log| <= |later| && log == later[..|log|]
    ensures var events := SnapshotEvents(Candidates(log, limits, q), Budget(true, None, None, None, size));
      var live := Live(later, |log|, q);
      && Ascending(events + live)
      && (forall x :: x in live ==> x.cursor > |log|)
      && (forall x :: x in later && q.Accepts(x) && x !in events + live && q.after.Some? ==> Incomplete(log, limits, q, events))
  {
    var events := SnapshotEvents(Candidates(log, limits, q), Budget(true, None, None, None, size));
    assert Numbered(log);
    CandidatesAre(log, limits, q);
    UnlimitedSnapshot(Candidates(log, limits, q), size);
    LaterAre(later, |log|, q);
    hide Candidates, Live, SnapshotEvents, Lost, Retained;
    JoinAscending(events, Live(later, |log|, q), |log|);
    forall x | x in later && q.Accepts(x) && x !in events + Live(later, |log|, q) && q.after.Some?
      ensures Incomplete(log, limits, q, events)
    {
      assert x in log by {
        var i :| 0 <= i < |later| && later[i] == x;
        assert log[i] == x;
      }
      LostMeans(log, limits, q.projection, x);
    }
  }

  // ------------------------------------------------------------ reported gaps are real

  ghost predicate GapHides(g: Gateway, log: Log, c: ClientState, gap: (nat, nat)) {
    gap.1 <= c.cursor && exists x :: Wanted(g, log, x) && gap.0 < x.cursor <= gap.1 && x !in c.published
  }

  ghost predicate GapsHide(g: Gateway, log: Log, c: ClientState) {
    forall i :: 0 <= i < |c.gaps| ==> GapHides(g, log, c, c.gaps[i])
  }

  /** What a gap hides stays hidden: the client only publishes beyond its cursor. */
  lemma {:induction false} GapStays(g: Gateway, log: Log, log': Log, c: ClientState, c': ClientState)
    requires GapsHide(g, log, c) && c'.gaps == c.gaps && c.cursor <= c'.cursor
    requires forall x :: x in log ==> x in log'
    requires forall x :: x in c'.published && x !in c.published ==> x.cursor > c.cursor
    ensures GapsHide(g, log', c')
  {
    forall i | 0 <= i < |c.gaps| ensures GapHides(g, log', c', c'.gaps[i]) {
      assert GapHides(g, log, c, c.gaps[i]);
      var x :| Wanted(g, log, x) && c.gaps[i].0 < x.cursor <= c.gaps[i].1 && x !in c.published;
      assert Wanted(g, log', x) && x !in c'.published;
    }
  }

  /** A hello reports truncation only over a wanted event that the history has dropped. */
  lemma {:induction false} TruncationHides(g: Gateway, log: Log, c: ClientState, h: Hello)
    requires Numbered(log) && ClientInv(g, log, c) && c.base.Some? && h.cursor <= |log| && h.after == Some(c.cursor) && c.cursor <= h.cursor
    requires Incomplete(log[..h.cursor], g.limits, g.Request(h.after), SnapshotOf(g, log, h))
    ensures GapHides(g, log, Adopted(c, h, SnapshotOf(g, log, h)), (c.cursor, h.cursor))
  {
    var past := log[..h.cursor];
    hide Lost, Candidates, Retained;
    var x :| Lost(past, g.limits, g.projection, x) && x.cursor > c.cursor;
    LostMeans(past, g.limits, g.projection, x);
    CandidatesAre(past, g.limits, g.Request(h.after));
    PartOfLog(log, 0, h.cursor);
    assert log[0..h.cursor] == past;
    assert Wanted(g, log, x) && x.cursor <= h.cursor && x !in SnapshotOf(g, log, h);
    assert x !in c.published;
  }

  lemma {:induction false} AdoptHides(g: Gateway, s: Exchange)
    requires Inv(g, s) && GapsHide(g, s.log, s.client) && Enabled(s, Adopt)
    ensures Next(g, s, Adopt).log == s.log && GapsHide(g, s.log, Next(g, s, Adopt).client)
  {
    hide SnapshotOf, Incomplete, Live, GapHides, Next, QueueInv, Candidates, Numbered, Ascending;
    AdoptAccepts(g, s);
    var c, h := s.client, s.link.value.hello;
    if c.base.Some? {
      PendingFacts(g, s.log, c, s.link.value);
      var events := SnapshotOf(g, s.log, h);
      SnapshotOrdered(g, s.log, h);
      var c' := Adopted(c, h, events);
      GapStays(g, s.log, s.log, c, c'.(gaps := c.gaps));
      if h.truncated {
        TruncationHides(g, s.log, c, h);
        forall i | 0 <= i < |c'.gaps| ensures GapHides(g, s.log, c', c'.gaps[i]) {
          HidesWithoutGaps(g, s.log, c', c.gaps, c'.gaps[i]);
        }
      }
    }
  }

  lemma {:induction false} HidesWithoutGaps(g: Gateway, log: Log, c: ClientState, gaps: seq<(nat, nat)>, gap: (nat, nat))
    ensures GapHides(g, log, c, gap) <==> GapHides(g, log, c.(gaps := gaps), gap)
  {
  }

  /** Any other step publishes only beyond the cursor and notes no gap. */
  lemma {:induction false} StepBeyond(g: Gateway, s: Exchange, step: Step)
    requires Enabled(s, step) && !step.Adopt?
    ensures var s' := Next(g, s, step);
      && s'.client.gaps == s.client.gaps && s.client.cursor <= s'.client.cursor
      && (forall x :: x in s.log ==> x in s'.log)
      && (forall x :: x in s'.client.published && x !in s.client.published ==> x.cursor > s.client.cursor)
  {
    hide Opened, Delivered, Taken;
  }

  lemma {:induction false} StepHides(g: Gateway, s: Exchange, step: Step)
    requires Inv(g, s) && GapsHide(g, s.log, s.client) && Enabled(s, step)
    ensures var s' := Next(g, s, step); GapsHide(g, s'.log, s'.client)
  {
    hide Inv, GapsHide, Next, Enabled;
    if step.Adopt? {
      AdoptHides(g, s);
    } else {
      var s' := Next(g, s, step);
      StepBeyond(g, s, step);
      GapStays(g, s.log, s'.log, s.client, s'.client);
    }
  }

  /** Over every run, no gap is reported in vain: each one covers a projected event that the
      client has not published. */
  lemma {:induction false} GapsHideEvents(g: Gateway, steps: seq<Step>, i: nat)
    requires Runs(g, Start(), steps)
    requires i < |After(g, Start(), steps).client.gaps|
    ensures var s := After(g, Start(), steps);
      exists x ::
        x in s.log && g.projection(x.event) && s.client.gaps[i].0 < x.cursor <= s.client.gaps[i].1 && x !in s.client.published
  {
    RunHides(g, Start(), steps);
    var s := After(g, Start(), steps);
    assert GapHides(g, s.log, s.client, s.client.gaps[i]);
  }

  lemma {:induction false} RunHides(g: Gateway, s: Exchange, steps: seq<Step>)
    requires Inv(g, s) && GapsHide(g, s.log, s.client) && Runs(g, s, steps)
    ensures var s' := After(g, s, steps); GapsHide(g, s'.log, s'.client)
    decreases |steps|
  {
    hide Inv, Next, Enabled, GapsHide;
    if steps != [] {
      StepKeeps(g, s, steps[0]);
      StepHides(g, s, steps[0]);
      RunHides(g, Next(g, s, steps[0]), steps[1..]);
    }
  }

  /** A run goes on with any step that is possible after it. */
  lemma {:induction false} RunExtends(g: Gateway, s: Exchange, steps: seq<Step>, step: Step)
    ensures Runs(g, s, []) && After(g, s, []) == s
    ensures Runs(g, s, steps) && Enabled(After(g, s, steps), step) ==>
      Runs(g, s, steps + [step]) && After(g, s, steps + [step]) == Next(g, After(g, s, steps), step)
    decreases |steps|
  {
    hide Next, Enabled;
    if Runs(g, s, steps) && Enabled(After(g, s, steps), step) {
      var more := steps + [step];
      if steps == [] {
        assert more[1..] == [];
      } else {
        assert more[1..] == steps[1..] + [step];
        RunExtends(g, Next(g, s, steps[0]), steps[1..], step);
      }
    }
  }
}
