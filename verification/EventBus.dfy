/** The event bus (`EventBus` in `src/tfr/core.py`) as a system of interleaved steps. */
module EventBus {
  import opened Wrappers

  // One publication at a time is put into every subscriber's queue, waiting for subscribers
  // with backpressure and dropping the oldest event of the others when they are full. It may
  // be cancelled while it waits.

  type Event(==, !new)
  type SubscriberId(==, !new)

  /** A subscriber's queue. `since` is how many publications preceded it, `missed` which
      later ones were cancelled before they reached it; `taken` lists, by their position
      among the events put into the queue, those it has received. */
  datatype Subscriber = Subscriber(capacity: nat, backpressure: bool, since: nat, queue: seq<Event>,
                                   taken: seq<nat>, dropped: nat, missed: set<nat>)
  {
    /** An unbounded queue is never full. */
    predicate Full() { capacity > 0 && |queue| >= capacity }
  }

  /** `log` is every event whose delivery has begun, `abandoned` the positions of those whose
      publication was cancelled; `waiting` are the subscribers the current publication has
      yet to serve, and `pending` the one of them whose full queue it waits for. */
  datatype Bus = Bus(closed: bool, subscribers: map<SubscriberId, Subscriber>, registered: set<SubscriberId>,
                     log: seq<Event>, publishing: bool, waiting: set<SubscriberId>, pending: Option<SubscriberId>,
                     abandoned: set<nat>)
  {
    /** The publication begins to wait only for a registered subscriber with backpressure. */
    predicate Blocks(id: SubscriberId)
      requires id in subscribers
    {
      id in registered && subscribers[id].backpressure && subscribers[id].Full()
    }

    /** Once it waits for a queue it needs room there, even if the subscriber has left since;
        the others come after it. */
    predicate Serveable(id: SubscriberId)
      requires id in subscribers
    {
      if pending.Some? then pending.value == id && !subscribers[id].Full() else !Blocks(id)
    }
  }

  datatype Step =
    | Subscribe(id: SubscriberId, capacity: nat, backpressure: bool)
    | Unsubscribe(id: SubscriberId)
    | Publish(event: Event)      // take the publication lock and note who is subscribed
    | Await(id: SubscriberId)    // wait for room in a full queue
    | Put(id: SubscriberId)      // serve one subscriber
    | Finish                     // release the lock
    | Abandon                    // the publishing task is cancelled with subscribers unserved
    | Take(id: SubscriberId)     // a subscriber receives its oldest event
    | Close

  predicate Enabled(b: Bus, step: Step) {
    match step
    case Subscribe(id, capacity, backpressure) => !b.closed && id !in b.subscribers && (backpressure ==> capacity >= 1)
    case Unsubscribe(id) => true
    case Publish(_) => !b.closed && !b.publishing
    case Await(id) => b.publishing && b.pending.None? && id in b.waiting && id in b.subscribers && b.Blocks(id)
    case Put(id) => b.publishing && b.log != [] && id in b.waiting && id in b.subscribers && b.Serveable(id)
    case Finish => b.publishing && b.waiting == {}
    case Abandon => b.publishing && b.log != [] && b.waiting != {}
    case Take(id) => id in b.subscribers && b.subscribers[id].queue != []
    case Close => !b.publishing
  }

  /** Put an event into a queue, which drops its oldest one if it is full. */
  function Served(s: Subscriber, event: Event): Subscriber {
    if s.Full() then s.(queue := s.queue[1..] + [event], dropped := s.dropped + 1)
    else s.(queue := s.queue + [event])
  }

  /** Receive the oldest event. */
  function Received(s: Subscriber): Subscriber
    requires s.queue != []
  {
    s.(queue := s.queue[1..], taken := s.taken + [|s.taken| + s.dropped])
  }

  /** A queue outlives its registration: whoever holds it may still receive from it. */
  function Next(b: Bus, step: Step): Bus
    requires Enabled(b, step)
  {
    match step
    case Subscribe(id, capacity, backpressure) =>
      b.(subscribers := b.subscribers[id := Subscriber(capacity, backpressure, |b.log|, [], [], 0, {})],
         registered := b.registered + {id})
    case Unsubscribe(id) => b.(registered := b.registered - {id})
    case Publish(event) => b.(log := b.log + [event], publishing := true, waiting := b.registered)
    case Await(id) => b.(pending := Some(id))
    case Put(id) =>
      b.(subscribers := b.subscribers[id := Served(b.subscribers[id], b.log[|b.log| - 1])], waiting := b.waiting - {id},
         pending := None)
    case Finish => b.(publishing := false)
    case Abandon =>
      b.(publishing := false, waiting := {}, pending := None, abandoned := b.abandoned + {|b.log| - 1},
         subscribers := map id | id in b.subscribers ::
           if id in b.waiting then Missing(b.subscribers[id], |b.log| - 1) else b.subscribers[id])
    case Take(id) => b.(subscribers := b.subscribers[id := Received(b.subscribers[id])])
    case Close => b.(closed := true, registered := {})
  }

  function Missing(s: Subscriber, position: nat): Subscriber { s.(missed := s.missed + {position}) }

  function Start(): Bus { Bus(false, map[], {}, [], false, {}, None, {}) }

  /** A publication serves a subscriber it has not served yet, unless that one's full queue has
      backpressure; once it waits for such a queue it goes on with that one alone. */
  lemma {:induction false} PutWhen(b: Bus, id: SubscriberId)
    requires b.publishing && b.log != [] && id in b.waiting && id in b.subscribers
    ensures var s := b.subscribers[id];
      var full := s.capacity > 0 && |s.queue| >= s.capacity;
      && (Enabled(b, Put(id)) <==>
            if b.pending.Some? then b.pending.value == id && !full else id !in b.registered || !s.backpressure || !full)
      && (Enabled(b, Await(id)) <==> b.pending.None? && id in b.registered && s.backpressure && full)
  {
  }

  /** Serving a subscriber puts the published event behind its queue. A full queue gives up its
      oldest event and no other; nobody else is touched. */
  lemma {:induction false} PutDoes(b: Bus, id: SubscriberId)
    requires Enabled(b, Put(id))
    ensures var c := Next(b, Put(id));
      var s, t, event := b.subscribers[id], c.subscribers[id], b.log[|b.log| - 1];
      && c.subscribers == b.subscribers[id := t]
      && t == Subscriber(s.capacity, s.backpressure, s.since, t.queue, s.taken, t.dropped, s.missed)
      && (if s.capacity > 0 && |s.queue| >= s.capacity
          then t.dropped == s.dropped + 1 && t.queue == s.queue[1..] + [event]
          else t.dropped == s.dropped && t.queue == s.queue + [event])
      && c.waiting == b.waiting - {id} && c.pending.None? && c.log == b.log && c.publishing
  {
  }

  /** Receiving takes the oldest event of one queue, which is the next after those received and
      dropped before. */
  lemma {:induction false} TakeDoes(b: Bus, id: SubscriberId)
    requires id in b.subscribers && b.subscribers[id].queue != []
    ensures Enabled(b, Take(id))
    ensures var s, t := b.subscribers[id], Next(b, Take(id)).subscribers[id];
      && Next(b, Take(id)) == b.(subscribers := b.subscribers[id := t])
      && t == Subscriber(s.capacity, s.backpressure, s.since, s.queue[1..], s.taken + [|s.taken| + s.dropped], s.dropped, s.missed)
  {
  }

  /** A publication goes to everyone registered when it takes its turn, in the order of turns. */
  lemma {:induction false} PublishDoes(b: Bus, event: Event)
    ensures Enabled(b, Publish(event)) <==> !b.closed && !b.publishing
    ensures Enabled(b, Publish(event)) ==>
      Next(b, Publish(event)) == b.(log := b.log + [event], publishing := true, waiting := b.registered)
    ensures Enabled(b, Finish) <==> b.publishing && b.waiting == {}
    ensures Enabled(b, Finish) ==> Next(b, Finish) == b.(publishing := false)
  {
  }

  /** Subscribing starts with an empty queue at the current end; leaving and closing only take
      effect on later publications, and what is queued stays. Closing waits for a publication. */
  lemma {:induction false} RegistrationDoes(b: Bus, id: SubscriberId, capacity: nat, backpressure: bool)
    ensures Enabled(b, Subscribe(id, capacity, backpressure)) <==>
      !b.closed && id !in b.subscribers && !(backpressure && capacity == 0)
    ensures Enabled(b, Subscribe(id, capacity, backpressure)) ==>
      Next(b, Subscribe(id, capacity, backpressure)) ==
        b.(registered := b.registered + {id},
           subscribers := b.subscribers[id := Subscriber(capacity, backpressure, |b.log|, [], [], 0, {})])
    ensures Enabled(b, Unsubscribe(id)) && Next(b, Unsubscribe(id)) == b.(registered := b.registered - {id})
    ensures Enabled(b, Close) <==> !b.publishing
    ensures Enabled(b, Close) ==> Next(b, Close) == b.(closed := true, registered := {})
  {
  }

  /** Cancelling a publication ends it: those it has not reached miss the event, and nothing
      else changes about anyone. */
  lemma {:induction false} AbandonDoes(b: Bus)
    ensures Enabled(b, Abandon) <==> b.publishing && b.log != [] && b.waiting != {}
    ensures Enabled(b, Abandon) ==> var c := Next(b, Abandon);
      && !c.publishing && c.waiting == {} && c.pending.None? && c.log == b.log && c.registered == b.registered && c.closed == b.closed
      && c.abandoned == b.abandoned + {|b.log| - 1} && c.subscribers.Keys == b.subscribers.Keys
      && forall id :: id in b.subscribers ==>
           c.subscribers[id] == if id in b.waiting then b.subscribers[id].(missed := b.subscribers[id].missed + {|b.log| - 1}) else b.subscribers[id]
  {
  }

  // ------------------------------------------------------------------ what every run keeps

  /** The events of `log` from `since` on, without the missed ones. */
  function Reaching(log: seq<Event>, since: nat, missed: set<nat>): seq<Event> {
    if |log| <= since then []
    else
      var before := Reaching(log[..|log| - 1], since, missed);
      if |log| - 1 in missed then before else before + [log[|log| - 1]]
  }

  /** The events put into a subscriber's queue so far: all since it subscribed that were not
      cancelled before they reached it, but the one it still waits for. */
  function Owed(log: seq<Event>, s: Subscriber, waiting: bool): seq<Event>
    requires waiting ==> log != []
  {
    Reaching(if waiting then log[..|log| - 1] else log, s.since, s.missed)
  }

  ghost predicate Increasing(s: seq<nat>) { forall i, j :: 0 <= i < j < |s| ==> s[i] < s[j] }

  /** The queue holds the newest owed events in order; what left it was received, or dropped
      only by a full queue without backpressure. */
  ghost predicate Serves(log: seq<Event>, s: Subscriber, waiting: bool) {
    && s.since <= |log| && (waiting ==> s.since < |log|) && (forall i :: i in s.missed ==> s.since <= i < |log|)
    && (waiting ==> |log| - 1 !in s.missed)
    && Queues(Owed(log, s, waiting), s)
  }

  ghost predicate Queues(owed: seq<Event>, s: Subscriber) {
    var gone := |s.taken| + s.dropped;
    && gone + |s.queue| == |owed| && s.queue == owed[gone..]
    && Increasing(s.taken) && (forall i :: 0 <= i < |s.taken| ==> s.taken[i] < gone)
    && (s.capacity > 0 ==> |s.queue| <= s.capacity)
    && (s.backpressure || s.capacity == 0 ==> s.dropped == 0 && forall i :: 0 <= i < |s.taken| ==> s.taken[i] == i)
  }

  ghost predicate Inv(b: Bus) {
    && (b.waiting != {} ==> b.publishing) && (b.publishing ==> b.log != [])
    && (b.pending.Some? ==> b.pending.value in b.waiting)
    && (b.publishing ==> |b.log| - 1 !in b.abandoned) && (forall i :: i in b.abandoned ==> i < |b.log|)
    && b.registered <= b.subscribers.Keys && b.waiting <= b.subscribers.Keys
    && (forall id :: id in b.subscribers ==> b.subscribers[id].missed <= b.abandoned)
    && forall id :: id in b.registered ==> Serves(b.log, b.subscribers[id], id in b.waiting)
  }

  lemma {:induction false} PublishServes(log: seq<Event>, s: Subscriber, event: Event)
    requires Serves(log, s, false)
    ensures Serves(log + [event], s, true)
  {
    assert (log + [event])[..|log|] == log;
  }

  /** Serving the awaited event adds it to what is owed. */
  lemma {:induction false} PutServes(log: seq<Event>, s: Subscriber)
    requires Serves(log, s, true) && !(s.backpressure && s.Full())
    ensures Serves(log, Served(s, log[|log| - 1]), false)
  {
    var event := log[|log| - 1];
    var served := Served(s, event);
    assert served.since == s.since && served.missed == s.missed;
    assert Owed(log, s, false) == Owed(log, s, true) + [event];
    hide Owed, Queues, Served, Subscriber.Full;
    OwedSame(log, s, served);
    PutQueues(Owed(log, s, true), s, event);
  }

  lemma {:induction false} OwedSame(log: seq<Event>, s: Subscriber, t: Subscriber)
    requires s.since == t.since && s.missed == t.missed
    ensures Owed(log, s, false) == Owed(log, t, false)
  {
  }

  lemma {:induction false} PutQueues(owed: seq<Event>, s: Subscriber, event: Event)
    requires Queues(owed, s) && !(s.backpressure && s.Full())
    ensures Queues(owed + [event], Served(s, event))
  {
    var gone := |s.taken| + s.dropped;
    assert (owed + [event])[gone..] == owed[gone..] + [event];
    if s.Full() {
      assert (owed + [event])[gone + 1..] == s.queue[1..] + [event];
    }
  }

  /** A cancelled publication is not owed to those it had not reached. */
  lemma {:induction false} AbandonServes(log: seq<Event>, s: Subscriber)
    requires Serves(log, s, true)
    ensures Serves(log, Missing(s, |log| - 1), false)
  {
    ReachingSame(log[..|log| - 1], s.since, s.missed, s.missed + {|log| - 1});
  }

  /** What was missed later does not change what reached the queue before. */
  lemma {:induction false} ReachingSame(log: seq<Event>, since: nat, missed: set<nat>, more: set<nat>)
    requires forall i :: 0 <= i < |log| ==> (i in missed <==> i in more)
    ensures Reaching(log, since, missed) == Reaching(log, since, more)
  {
    if |log| > since {
      ReachingSame(log[..|log| - 1], since, missed, more);
    }
  }

  lemma {:induction false} TakeServes(log: seq<Event>, s: Subscriber, waiting: bool)
    requires Serves(log, s, waiting) && s.queue != []
    ensures Serves(log, Received(s), waiting)
  {
    hide Reaching;
  }

  lemma {:induction false} SubscribeServes(log: seq<Event>, capacity: nat, backpressure: bool)
    ensures Serves(log, Subscriber(capacity, backpressure, |log|, [], [], 0, {}), false)
  {
  }

  lemma {:induction false} StepKeeps(b: Bus, step: Step)
    requires Inv(b) && Enabled(b, step)
    ensures Inv(Next(b, step))
  {
    hide Serves;
    match step
    case Subscribe(id, capacity, backpressure) =>
      SubscribeServes(b.log, capacity, backpressure);
    case Publish(event) =>
      forall id | id in b.registered ensures Serves(b.log + [event], b.subscribers[id], true) {
        PublishServes(b.log, b.subscribers[id], event);
      }
    case Put(id) =>
      if id in b.registered {
        PutServes(b.log, b.subscribers[id]);
      }
    case Abandon =>
      forall id | id in b.registered && id in b.waiting ensures Serves(b.log, Missing(b.subscribers[id], |b.log| - 1), false) {
        AbandonServes(b.log, b.subscribers[id]);
      }
    case Take(id) =>
      if id in b.registered {
        TakeServes(b.log, b.subscribers[id], id in b.waiting);
      }
    case _ =>
  }

  ghost predicate Runs(b: Bus, steps: seq<Step>)
    decreases |steps|
  {
    steps == [] || (Enabled(b, steps[0]) && Runs(Next(b, steps[0]), steps[1..]))
  }

  ghost function After(b: Bus, steps: seq<Step>): Bus
    requires Runs(b, steps)
    decreases |steps|
  {
    if steps == [] then b else After(Next(b, steps[0]), steps[1..])
  }

  /** Publications are never taken back, and neither is what the queues owe to them. */
  lemma {:induction false} RunKeeps(b: Bus, steps: seq<Step>)
    requires Inv(b) && Runs(b, steps)
    ensures Inv(After(b, steps)) && b.log <= After(b, steps).log
    decreases |steps|
  {
    hide Inv, Enabled, Served, Received;
    if steps != [] {
      assert b.log <= Next(b, steps[0]).log;
      hide Next;
      StepKeeps(b, steps[0]);
      RunKeeps(Next(b, steps[0]), steps[1..]);
    }
  }

  /** What a subscriber has received, in the order received. */
  function ReceivedEvents(owed: seq<Event>, positions: seq<nat>): seq<Event>
    requires forall i :: 0 <= i < |positions| ==> positions[i] < |owed|
  {
    seq(|positions|, i requires 0 <= i < |positions| => owed[positions[i]])
  }

  /** Over every interleaving, cancelled publications included: a subscriber with backpressure
      has received, and still has queued, exactly the events published since it subscribed but
      those whose publication was cancelled before it was served; any other bounded subscriber
      receives them in order, loses only older events than those it has queued, and has the
      newest ones queued. */
  lemma {:induction false} DeliveryGuarantees(steps: seq<Step>, id: SubscriberId)
    requires Runs(Start(), steps) && id in After(Start(), steps).registered
    ensures var b := After(Start(), steps);
      && id in b.subscribers
      && var s := b.subscribers[id];
      && Serves(b.log, s, id in b.waiting) && s.missed <= b.abandoned
      && (s.backpressure ==> ReceivedEvents(Owed(b.log, s, id in b.waiting), s.taken) + s.queue == Owed(b.log, s, id in b.waiting))
  {
    RunKeeps(Start(), steps);
    var b := After(Start(), steps);
    var s := b.subscribers[id];
    if s.backpressure {
      var owed := Owed(b.log, s, id in b.waiting);
      hide Owed;
      assert ReceivedEvents(owed, s.taken) == owed[..|s.taken|];
    }
  }

  function MissedBy(b: Bus, id: SubscriberId): set<nat> { if id in b.subscribers then b.subscribers[id].missed else {} }

  /** Some step of the run cancels the publication of event `i` while the subscriber is unserved. */
  ghost predicate CutOff(b: Bus, steps: seq<Step>, id: SubscriberId, i: nat)
    requires Runs(b, steps)
    decreases |steps|
  {
    steps != [] &&
    ((steps[0].Abandon? && id in b.waiting && i == |b.log| - 1) || CutOff(Next(b, steps[0]), steps[1..], id, i))
  }

  lemma {:induction false} MissedStep(b: Bus, step: Step, id: SubscriberId)
    requires Inv(b) && Enabled(b, step)
    ensures MissedBy(Next(b, step), id) ==
      MissedBy(b, id) + if step.Abandon? && id in b.waiting then {|b.log| - 1} else {}
  {
    hide Serves;
    assert MissedBy(Next(b, step), id) == if step.Abandon? && id in b.waiting then MissedBy(b, id) + {|b.log| - 1} else MissedBy(b, id);
  }

  lemma {:induction false} MissedOverRun(b: Bus, steps: seq<Step>, id: SubscriberId, i: nat)
    requires Inv(b) && Runs(b, steps)
    ensures i in MissedBy(After(b, steps), id) <==> i in MissedBy(b, id) || CutOff(b, steps, id, i)
    decreases |steps|
  {
    hide Inv, Enabled, Next, MissedBy;
    if steps != [] {
      StepKeeps(b, steps[0]);
      MissedStep(b, steps[0], id);
      MissedOverRun(Next(b, steps[0]), steps[1..], id, i);
    }
  }

  /** Exactly which events a subscriber misses: those whose publication was cancelled while it
      was unserved. */
  lemma {:induction false} MissedExactly(steps: seq<Step>, id: SubscriberId, i: nat)
    requires Runs(Start(), steps) && id in After(Start(), steps).subscribers
    ensures i in After(Start(), steps).subscribers[id].missed <==> CutOff(Start(), steps, id, i)
  {
    MissedOverRun(Start(), steps, id, i);
    assert MissedBy(Start(), id) == {} && MissedBy(After(Start(), steps), id) == After(Start(), steps).subscribers[id].missed;
  }

  /** Without missed publications everything since the subscription was put into the queue. */
  lemma {:induction false} NothingMissed(log: seq<Event>, since: nat)
    ensures Reaching(log, since, {}) == if since <= |log| then log[since..] else []
  {
    if |log| > since {
      var init, last := log[..|log| - 1], log[|log| - 1];
      NothingMissed(init, since);
      assert Reaching(log, since, {}) == Reaching(init, since, {}) + [last];
      hide Reaching;
      assert log == init + [last];
      assert (init + [last])[since..] == init[since..] + [last];
    }
  }

  /** Two subscribers with room for one event each, one of them with backpressure. */
  function Filling(reliable: SubscriberId, other: SubscriberId, first: Event): seq<Step> {
    [Subscribe(reliable, 1, true), Subscribe(other, 1, false), Publish(first), Put(reliable), Put(other), Finish]
  }

  /** The next publication reaches the other subscriber and is cancelled while it waits. */
  function Cancelling(reliable: SubscriberId, other: SubscriberId, second: Event): seq<Step> {
    [Publish(second), Put(other), Await(reliable), Abandon]
  }

  function Filled(reliable: SubscriberId, other: SubscriberId, first: Event): Bus {
    Bus(false, map[reliable := Subscriber(1, true, 0, [first], [], 0, {}), other := Subscriber(1, false, 0, [first], [], 0, {})],
        {reliable, other}, [first], false, {}, None, {})
  }

  lemma {:induction false} FillingFills(reliable: SubscriberId, other: SubscriberId, first: Event)
    requires reliable != other
    ensures var steps := Filling(reliable, other, first);
      Runs(Start(), steps) && After(Start(), steps) == Filled(reliable, other, first)
  {
    var steps := Filling(reliable, other, first);
    var s1 := Next(Start(), steps[0]);
    var s2 := Next(s1, steps[1]);
    var s3 := Next(s2, steps[2]);
    var s4 := Next(s3, steps[3]);
    var s5 := Next(s4, steps[4]);
    var s6 := Next(s5, steps[5]);
    var none: seq<Event> := [];
    assert none + [first] == [first];
    assert s6.subscribers == Filled(reliable, other, first).subscribers;
    hide Next, Enabled;
    EndsAt(s6);
    OneStep(s5, steps[5..]);
    OneStep(s4, steps[4..]);
    OneStep(s3, steps[3..]);
    OneStep(s2, steps[2..]);
    OneStep(s1, steps[1..]);
    OneStep(Start(), steps);
  }

  /** A cancelled publication can reach one subscriber and never the one with backpressure,
      whose full queue it waited for. */
  lemma {:induction false} CancellationMissesOne(reliable: SubscriberId, other: SubscriberId, first: Event, second: Event)
    requires reliable != other
    ensures var b := Filled(reliable, other, first);
      var steps := Cancelling(reliable, other, second);
      && Runs(Start(), Filling(reliable, other, first)) && After(Start(), Filling(reliable, other, first)) == b
      && Runs(b, steps)
      && After(b, steps).subscribers.Keys == {reliable, other}
      && var (s, o) := (After(b, steps).subscribers[reliable], After(b, steps).subscribers[other]);
         s.queue == [first] && s.missed == {1} && o.queue == [second] && o.missed == {}
  {
    FillingFills(reliable, other, first);
    var b := Filled(reliable, other, first);
    var steps := Cancelling(reliable, other, second);
    var s1 := b.(log := [first, second], publishing := true, waiting := {reliable, other});
    var s2 := OtherServed(reliable, other, first, second);
    var s3 := s2.(pending := Some(reliable));
    PutToOther(reliable, other, first, second);
    AbandonedThere(reliable, other, first, second);
    assert [first] + [second] == [first, second];
    assert Next(b, steps[0]) == s1 && Enabled(b, steps[0]);
    assert Next(s2, steps[2]) == s3 && Enabled(s2, steps[2]);
    hide Next, Enabled, OtherServed;
    EndsAt(Next(s3, steps[3]));
    OneStep(s3, steps[3..]);
    OneStep(s2, steps[2..]);
    OneStep(s1, steps[1..]);
    OneStep(b, steps);
  }

  /** The second publication has reached the other subscriber, whose oldest event it replaced. */
  function OtherServed(reliable: SubscriberId, other: SubscriberId, first: Event, second: Event): Bus {
    Bus(false, map[reliable := Subscriber(1, true, 0, [first], [], 0, {}), other := Subscriber(1, false, 0, [second], [], 1, {})],
        {reliable, other}, [first, second], true, {reliable}, None, {})
  }

  lemma {:induction false} PutToOther(reliable: SubscriberId, other: SubscriberId, first: Event, second: Event)
    requires reliable != other
    ensures var b := Filled(reliable, other, first).(log := [first, second], publishing := true, waiting := {reliable, other});
      Enabled(b, Put(other)) && Next(b, Put(other)) == OtherServed(reliable, other, first, second)
  {
    var b := Filled(reliable, other, first).(log := [first, second], publishing := true, waiting := {reliable, other});
    assert [first][1..] + [second] == [second];
    assert Next(b, Put(other)).waiting == {reliable};
    assert Next(b, Put(other)).subscribers == OtherServed(reliable, other, first, second).subscribers;
  }

  lemma {:induction false} AbandonedThere(reliable: SubscriberId, other: SubscriberId, first: Event, second: Event)
    requires reliable != other
    ensures var b := OtherServed(reliable, other, first, second).(pending := Some(reliable));
      && Enabled(b, Abandon) && Next(b, Abandon).subscribers.Keys == {reliable, other}
      && var (s, o) := (Next(b, Abandon).subscribers[reliable], Next(b, Abandon).subscribers[other]);
         s.queue == [first] && s.missed == {1} && o.queue == [second] && o.missed == {}
  {
  }

  lemma {:induction false} EndsAt(b: Bus)
    ensures Runs(b, []) && After(b, []) == b
  {
  }

  lemma {:induction false} OneStep(b: Bus, steps: seq<Step>)
    requires steps != [] && Enabled(b, steps[0]) && Runs(Next(b, steps[0]), steps[1..])
    ensures Runs(b, steps) && After(b, steps) == After(Next(b, steps[0]), steps[1..])
  {
  }

  /** A run goes on with any step that is possible after it. */
  lemma {:induction false} RunExtends(b: Bus, steps: seq<Step>, step: Step)
    ensures Runs(b, []) && After(b, []) == b
    ensures Runs(b, steps) && Enabled(After(b, steps), step) ==>
      Runs(b, steps + [step]) && After(b, steps + [step]) == Next(After(b, steps), step)
    decreases |steps|
  {
    hide Next, Enabled;
    if Runs(b, steps) && Enabled(After(b, steps), step) {
      var more := steps + [step];
      if steps == [] {
        assert more[1..] == [];
      } else {
        assert more[1..] == steps[1..] + [step];
        RunExtends(Next(b, steps[0]), steps[1..], step);
      }
    }
  }
}
