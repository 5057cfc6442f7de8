/** The step system of `ResumeProtocol` is what the Gateway's history objects do. */
module ResumeRefinement {
  import opened Wrappers
  import opened EventLog
  import opened Snapshot
  import opened SnapshotMeaning
  import opened EventHistory
  import opened ResumeProtocol

  /** The history and one subscription are in the state that the step system has. */
  ghost predicate Mirrors(h: EventHistory, s: HistorySubscription, g: Gateway, x: Exchange)
    reads h, s
  {
    && g == Gateway(h.limits, h.queueSize, h.projection)
    && x.log == h.log
    && x.link.Some?
    && var l := x.link.value;
       && l.queue == s.queue
       && (l.attached <==> s in h.subscribers)
       && s.query == g.Request(l.hello.after)
       && l.hello == Hello(s.query.after, s.snapshot.cursor, |s.snapshot.events|, s.snapshot.truncated)
       && (l.attached ==> s.taken <= |s.stream| && l.sent == s.stream[..s.taken])
  }

  /** One event published: what `Ingest` does to the subscription is the step's. */
  method Publish(h: EventHistory, s: HistorySubscription, ghost g: Gateway, ghost x: Exchange, event: Event)
    requires h.Valid() && Mirrors(h, s, g, x)
    modifies h, h.subscribers
    ensures h.Valid() && Mirrors(h, s, g, Next(g, x, Step.Publish(event)))
  {
    hide EventHistory.Valid, EventHistory.Described, EventHistory.Attached;
    h.Ingest(event);
  }

  /** One entry sent: what `Get` takes is what the step puts on the wire, and the end marker
      ends the connection. */
  method Send(h: EventHistory, s: HistorySubscription, ghost g: Gateway, ghost x: Exchange) returns (item: Option<Sequenced>)
    requires h.Valid() && Mirrors(h, s, g, x) && Enabled(x, Step.Send)
    modifies s
    ensures h.Valid() && Mirrors(h, s, g, Next(g, x, Step.Send))
    ensures var l, l' := x.link.value, Next(g, x, Step.Send).link.value;
      if item.Some? then l'.wire == l.wire + [item.value] && l'.sent == l.sent + [item.value] && !l'.ended
      else l'.wire == l.wire && l'.sent == l.sent && l'.ended
  {
    hide EventHistory.Described, Enqueue, Delivered;
    assert s in h.subscribers ==> h.Attached(s, h.log);
    item := s.Get();
    assert forall t :: t in h.subscribers && t != s ==> h.Attached(t, h.log);
  }

  /** A connection opened: what `Subscribe` answers the client's request is the step's link. */
  method Connect(h: EventHistory, g: Gateway, ghost x: Exchange, after: Option<nat>)
    returns (r: Result<HistorySubscription, RequestError>)
    requires h.Valid() && g == Gateway(h.limits, h.queueSize, h.projection) && x.log == h.log
    requires after == if x.client.base.None? then None else Some(x.client.cursor)
    modifies h`subscribers
    ensures h.Valid()
    ensures r.Success? <==> (after.Some? ==> after.value <= |x.log|)
    ensures Next(g, x, Step.Connect).link.Some? <==> r.Success? && |r.value.snapshot.events| <= 1_000_000
    ensures Next(g, x, Step.Connect).link.Some? ==>
      Mirrors(h, r.value, g, Next(g, x, Step.Connect)) && Next(g, x, Step.Connect).link.value.wire == r.value.snapshot.events
  {
    hide EventHistory.Described, EventHistory.Attached, EventHistory.Valid, Candidates, SnapshotEvents, Incomplete, Gap, CountsTell, OldestTells;
    var request: Option<int> := if after.None? then None else Some(after.value);
    r := h.Subscribe(request, true, None, None, None, g.Request(after).filter, (c: EventClass) => true, None, None);
    if r.Success? {
      var size := Sizes(None);
      assert Natural(request) == after;
      assert Query(None, h.projection, g.Request(after).filter, after) == g.Request(after);
      UnlimitedSnapshot(Candidates(x.log, g.limits, g.Request(after)), size);
      OpenedBySubscribe(g, x, r.value.snapshot, (c: EventClass) => true, size);
    }
  }

  // -------------------------------------------------------------- what each step does

  /** An event goes to the queue of an attached connection that has room for it; without room
      the connection is detached and only the end marker stays. */
  lemma {:induction false} PublishDoes(g: Gateway, s: Exchange, event: Event)
    ensures var s', item := Next(g, s, Step.Publish(event)), Sequenced(|s.log| + 1, event);
      && s'.log == s.log + [item] && s'.client == s.client
      && (s.link.None? ==> s'.link.None?)
      && (s.link.Some? ==> s'.link.Some? && var l, l' := s.link.value, s'.link.value;
            if !l.attached || !g.projection(event) then l' == l
            else if |l.queue| < g.queueSize then l' == l.(queue := l.queue + [Some(item)])
            else l' == l.(queue := [None], attached := false))
  {
  }

  /** The sender takes the oldest entry: an event goes onto the wire, the marker ends it. */
  lemma {:induction false} SendDoes(g: Gateway, s: Exchange)
    requires s.link.Some? && !s.link.value.ended && s.link.value.queue != []
    ensures Enabled(s, Step.Send)
    ensures var s', l := Next(g, s, Step.Send), s.link.value;
      && s'.log == s.log && s'.client == s.client && s'.link.Some?
      && s'.link.value == match l.queue[0]
         case None => l.(queue := l.queue[1..], ended := true)
         case Some(item) => l.(queue := l.queue[1..], wire := l.wire + [item], sent := l.sent + [item])
  {
  }

  /** A client that has a base asks for what is after its cursor. The wire starts with every
      projected event after it that the history still holds, and the hello says so when a
      projected event after it is no longer held; more than a million are refused. */
  lemma {:induction false} ConnectDoes(g: Gateway, s: Exchange)
    requires Numbered(s.log) && (s.client.base.Some? ==> s.client.cursor <= |s.log|)
    ensures var s' := Next(g, s, Step.Connect);
      && s'.log == s.log && s'.client == s.client
      && (s'.link.Some? ==> var l := s'.link.value;
            && !l.adopted && !l.ended && l.attached && l.queue == [] && l.sent == []
            && l.hello.after == (if s.client.base.None? then None else Some(s.client.cursor))
            && l.hello.cursor == |s.log| && l.hello.count == |l.wire| <= 1_000_000
            && Ascending(l.wire)
            && (forall x :: x in l.wire <==>
                  Held(s.log, g.limits, x) && g.projection(x.event) && (s.client.base.None? || x.cursor > s.client.cursor))
            && (l.hello.truncated <==> s.client.base.Some? && exists x ::
                  x in s.log && !Held(s.log, g.limits, x) && g.projection(x.event) && x.cursor > s.client.cursor))
      && (s'.link.None? ==> exists asked: seq<Sequenced> ::
            && |asked| > 1_000_000 && Ascending(asked)
            && forall x :: x in asked ==> Held(s.log, g.limits, x))
  {
    var after := if s.client.base.None? then None else Some(s.client.cursor);
    var q := g.Request(after);
    CandidatesMeet(s.log, g.limits, None, g.projection, q.filter, after);
    assert q == Query(None, g.projection, q.filter, after);
    hide Candidates, Held, Lost, Numbered;
    forall x ensures Lost(s.log, g.limits, g.projection, x) <==>
      x in s.log && !Held(s.log, g.limits, x) && g.projection(x.event)
    {
      LostMeans(s.log, g.limits, g.projection, x);
      RetainedIs(s.log, g.limits, x);
    }
  }

  /** The client takes a whole snapshot only in order and within the hello's cursor: the first
      one only sets its base, a later one is published; a truncated one records the gap. */
  lemma {:induction false} AdoptDoes(g: Gateway, s: Exchange)
    requires s.link.Some? && !s.link.value.adopted && s.link.value.hello.count <= |s.link.value.wire|
    ensures Enabled(s, Step.Adopt)
    ensures var s', c, l := Next(g, s, Step.Adopt), s.client, s.link.value;
      var events := l.wire[..l.hello.count];
      if (forall i, j :: 0 <= i < j < |events| ==> events[i].cursor < events[j].cursor) &&
         (forall i :: 0 <= i < |events| ==> 0 < events[i].cursor <= l.hello.cursor)
      then
        && s'.link == Some(l.(adopted := true, wire := l.wire[l.hello.count..])) && s'.log == s.log
        && s'.client.cursor == l.hello.cursor
        && s'.client.base == (if c.base.None? then Some(l.hello.cursor) else c.base)
        && s'.client.published == (if c.base.None? then [] else c.published + events)
        && s'.client.gaps == (if c.base.None? then [] else if l.hello.truncated then c.gaps + [(c.cursor, l.hello.cursor)] else c.gaps)
      else s' == s.(link := None)
  {
  }

  /** A live event is published once: one that the cursor covers is dropped. */
  lemma {:induction false} ReceiveDoes(g: Gateway, s: Exchange)
    requires s.link.Some? && s.link.value.adopted && s.link.value.wire != []
    ensures Enabled(s, Step.Receive)
    ensures var s', c, l := Next(g, s, Step.Receive), s.client, s.link.value;
      && s'.log == s.log && s'.link == Some(l.(wire := l.wire[1..]))
      && s'.client == if l.wire[0].cursor > c.cursor
         then ClientState(c.base, l.wire[0].cursor, c.published + [l.wire[0]], c.gaps) else c
  {
  }

  // ------------------------------------------------------------- a run that goes through

  lemma {:induction false} FirstConnect(g: Gateway)
    ensures Next(g, Start(), Step.Connect) ==
      Start().(link := Some(Link(Hello(None, 0, 0, false), false, [], false, [], true, [])))
  {
    var q := g.Request(None);
    assert Candidates([], g.limits, q) == [];
    assert !Incomplete([], g.limits, q, []);
  }

  /** A client connects, adopts the empty snapshot, and publishes the first event ingested. */
  lemma {:induction false} FirstEventArrives(g: Gateway, event: Event)
    requires g.queueSize >= 1 && g.projection(event)
    ensures var steps := [Step.Connect, Adopt, Step.Publish(event), Step.Send, Receive];
      Runs(g, Start(), steps) && var c := After(g, Start(), steps).client;
      c.published == [Sequenced(1, event)] && c.cursor == 1 && c.gaps == []
  {
    var item := Sequenced(1, event);
    var started := Link(Hello(None, 0, 0, false), false, [], false, [], true, []);
    var adopted := started.(adopted := true);
    var base := ClientState(Some(0), 0, [], []);
    var s0, s1 := Start(), Start().(link := Some(started));
    var s2 := Exchange([], base, Some(adopted));
    var s3 := Exchange([item], base, Some(adopted.(queue := [Some(item)])));
    var s4 := Exchange([item], base, Some(adopted.(wire := [item], sent := [item])));
    var s5 := Exchange([item], ClientState(Some(0), 1, [item], []), Some(adopted.(sent := [item])));
    var none: seq<Sequenced> := [];
    var nothing: seq<Option<Sequenced>> := [];
    assert none + [item] == [item] && nothing + [Some(item)] == [Some(item)] && none[..0] == none && none[0..] == none;
    assert [Some(item)][1..] == nothing && [item][1..] == none;
    FirstConnect(g);
    assert Enabled(s1, Adopt) && Next(g, s1, Adopt) == s2;
    assert Next(g, s2, Step.Publish(event)) == s3;
    assert Enabled(s3, Step.Send) && Next(g, s3, Step.Send) == s4;
    assert Enabled(s4, Receive) && Next(g, s4, Receive) == s5;
    hide Next, Runs, After;
    RunExtends(g, s0, [], Step.Connect);
    RunExtends(g, s0, [Step.Connect], Adopt);
    RunExtends(g, s0, [Step.Connect, Adopt], Step.Publish(event));
    RunExtends(g, s0, [Step.Connect, Adopt, Step.Publish(event)], Step.Send);
    RunExtends(g, s0, [Step.Connect, Adopt, Step.Publish(event), Step.Send], Receive);
    var steps: seq<Step> := [];
    assert steps + [Step.Connect] == [Step.Connect];
    assert [Step.Connect] + [Adopt] == [Step.Connect, Adopt];
    assert [Step.Connect, Adopt] + [Step.Publish(event)] == [Step.Connect, Adopt, Step.Publish(event)];
    assert [Step.Connect, Adopt, Step.Publish(event)] + [Step.Send] == [Step.Connect, Adopt, Step.Publish(event), Step.Send];
    assert [Step.Connect, Adopt, Step.Publish(event), Step.Send] + [Receive] == [Step.Connect, Adopt, Step.Publish(event), Step.Send, Receive];
  }
}
