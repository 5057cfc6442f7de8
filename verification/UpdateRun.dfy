/** What each step of a coordinated update does, said on the fields alone, when it can be taken,
    and one update from the first handshake to the restart, in which the UI and the Gateway
    both activate the release that was staged for them (`src/tfr/gateway.py`). */
module UpdateRun {
  import opened Wrappers
  import opened CoordinatedUpdate

  // ------------------------------------------------------------------- what a UI does

  /** A UI reads its messages in order. A prepare or a commit becomes a task; an abort drops
      what the UI has staged. */
  lemma {:induction false} DeliverDoes(s: System, conn: Conn)
    requires conn in s.wires && s.wires[conn] != [] && conn in s.owner
    ensures Enabled(s, Deliver(conn))
    ensures var t, m, ui := Next(s, Deliver(conn)), s.wires[conn][0], s.owner[conn];
      && t.gateway == s.gateway && t.owner == s.owner && t.acks == s.acks && t.past == s.past
      && t.wires.Keys == s.wires.Keys && t.wires[conn] == s.wires[conn][1..]
      && (forall other :: other in s.wires && other != conn ==> t.wires[other] == s.wires[other])
      && t.tasks == (if m.AbortMessage? then s.tasks else s.tasks + {Task(ui, conn, m)})
      && (m.AbortMessage? ==> ui !in t.staged && forall u :: u in s.staged && u != ui ==> u in t.staged && t.staged[u] == s.staged[u])
      && (!m.AbortMessage? ==> t.staged == s.staged)
  {
  }

  /** Staging ends with a release, which is remembered and reported, or is refused. */
  lemma {:induction false} UiPreparesDoes(s: System, ui: Ui, conn: Conn, id: RequestId, result: Option<Release>)
    requires Task(ui, conn, PrepareMessage(id)) in s.tasks
    ensures var task := Task(ui, conn, PrepareMessage(id));
      Enabled(s, UiPrepares(task, result)) && var t := Next(s, UiPrepares(task, result));
      && t.gateway == s.gateway && t.owner == s.owner && t.wires == s.wires && t.tasks == s.tasks - {task}
      && t.staged == (if result.Some? then s.staged[ui := result.value] else s.staged)
      && t.acks == s.acks + {(conn, if result.None? then Ack(id, false, None)
                                    else Ack(id, true, Some((result.value.version, result.value.commit))))}
      && t.past.activations == s.past.activations && t.past.gatewayActivations == s.past.gatewayActivations
  {
  }

  /** A commit activates exactly the staged release, and only when it is the one named; the
      acknowledgement tells whether it did. */
  lemma {:induction false} UiCommitsDoes(s: System, ui: Ui, conn: Conn, id: RequestId, release: ReleaseId, works: bool)
    requires Task(ui, conn, CommitMessage(id, release)) in s.tasks
    ensures var task := Task(ui, conn, CommitMessage(id, release));
      Enabled(s, UiCommits(task, works)) && var t := Next(s, UiCommits(task, works));
      var activates := works && ui in s.staged && s.staged[ui].id == release;
      && t.gateway == s.gateway && t.owner == s.owner && t.wires == s.wires && t.staged == s.staged && t.tasks == s.tasks - {task}
      && t.acks == s.acks + {(conn, Ack(id, activates, None))}
      && t.past.activations == (if activates then s.past.activations + {Activation(ui, id.tx, s.staged[ui])} else s.past.activations)
      && t.past.gatewayActivations == s.past.gatewayActivations
  {
  }

  // -------------------------------------------------------------- what the Gateway says

  /** Every selected participant that is still registered is asked to prepare, and nobody else
      is written to. */
  lemma {:induction false} StartTaskDoes(s: System)
    requires s.gateway.phase == Staged
    ensures Enabled(s, StartTask)
    ensures var t, g := Next(s, StartTask), s.gateway;
      && t.owner == s.owner && t.acks == s.acks && t.tasks == s.tasks && t.staged == s.staged && t.wires.Keys == s.wires.Keys
      && forall c :: c in s.wires ==>
           t.wires[c] == if c in g.transaction && c in g.participants then s.wires[c] + [PrepareMessage(RequestId(g.tx, Prepare, c))] else s.wires[c]
  {
  }

  /** When every selected participant has answered with the staged version and commit, all that
      are still registered are told to commit that release; otherwise all are told to abort. */
  lemma {:induction false} DecideDoes(s: System)
    requires s.gateway.phase == Preparing && s.gateway.staged.Some? && s.gateway.Gathered()
    ensures Enabled(s, Decide)
    ensures var t, g := Next(s, Decide), s.gateway;
      var release := g.staged.value;
      var agreed := forall c :: c in g.transaction ==>
        RequestId(g.tx, Prepare, c) in g.requests &&
        g.requests[RequestId(g.tx, Prepare, c)] == Answered(Some((release.version, release.commit)));
      && t.owner == s.owner && t.acks == s.acks && t.tasks == s.tasks && t.staged == s.staged && t.wires.Keys == s.wires.Keys
      && t.gateway.phase == (if agreed then Committing else Aborting)
      && forall c :: c in s.wires ==>
           t.wires[c] == if !(c in g.transaction && c in g.participants) then s.wires[c]
             else s.wires[c] + [if agreed then CommitMessage(RequestId(g.tx, Commit, c), release.id) else AbortMessage(g.tx)]
  {
    var g := s.gateway;
    var release := g.staged.value;
    var answer := Answered(Some((release.version, release.commit)));
    assert g.Agreed() <==> forall c :: c in g.transaction ==> g.ReplyTo(Prepare, c) == answer;
    assert forall c :: g.ReplyTo(Prepare, c) == answer <==>
      RequestId(g.tx, Prepare, c) in g.requests && g.requests[RequestId(g.tx, Prepare, c)] == answer;
  }

  /** A lost connection's messages never arrive; nothing else changes at once. */
  lemma {:induction false} LoseDoes(s: System, conn: Conn)
    ensures Enabled(s, Lose(conn))
    ensures Next(s, Lose(conn)) == s.(wires := map c | c in s.wires && c != conn :: s.wires[c])
  {
  }

  /** The gathering of answers ends with the first failure, or when all have answered. */
  lemma {:induction false} GatheredIs(g: Gateway)
    ensures g.Gathered() <==>
      || (exists c :: c in g.transaction && RequestId(g.tx, Prepare, c) in g.requests && g.requests[RequestId(g.tx, Prepare, c)].Broken?)
      || (forall c :: c in g.transaction ==> RequestId(g.tx, Prepare, c) in g.requests && g.requests[RequestId(g.tx, Prepare, c)].Answered?)
  {
    forall c ensures g.ReplyTo(Prepare, c) == if RequestId(g.tx, Prepare, c) in g.requests then g.requests[RequestId(g.tx, Prepare, c)] else Waiting {}
  }

  /** Commits are over when each was answered or failed. */
  lemma {:induction false} CommitsDoneIs(g: Gateway)
    ensures g.CommitsDone() <==> forall c :: c in g.transaction ==>
      RequestId(g.tx, Commit, c) in g.requests && !g.requests[RequestId(g.tx, Commit, c)].Waiting?
  {
    forall c ensures g.ReplyTo(Commit, c) == if RequestId(g.tx, Commit, c) in g.requests then g.requests[RequestId(g.tx, Commit, c)] else Waiting {}
  }

  /** When each step of the Gateway's coroutine can be taken. */
  lemma {:induction false} GatewayStepsWhen(g: Gateway, selected: set<Conn>, release: Release, restart: bool, ok: bool)
    ensures GatewayEnabled(g, Begin) <==> g.staged.None? && g.phase == Idle
    ensures GatewayEnabled(g, GiveUp) <==> g.phase == Checking
    ensures GatewayEnabled(g, Stage(selected, release, restart)) <==> g.phase == Checking && selected <= g.transaction
    ensures GatewayEnabled(g, StartTask) <==> g.phase == Staged
    ensures GatewayEnabled(g, Decide) <==>
      && g.phase == Phase.Preparing && g.staged.Some?
      && (|| (exists c :: c in g.transaction && RequestId(g.tx, Prepare, c) in g.requests && g.requests[RequestId(g.tx, Prepare, c)].Broken?)
          || (forall c :: c in g.transaction ==> RequestId(g.tx, Prepare, c) in g.requests && g.requests[RequestId(g.tx, Prepare, c)].Answered?))
    ensures GatewayEnabled(g, Clear) <==>
      || g.phase == Aborting
      || (&& g.phase == Phase.Committing
          && forall c :: c in g.transaction ==> RequestId(g.tx, Commit, c) in g.requests && !g.requests[RequestId(g.tx, Commit, c)].Waiting?)
    ensures GatewayEnabled(g, Reopen) <==> g.phase == Reopening
    ensures GatewayEnabled(g, ActivateGateway(ok)) <==> g.phase == Activating
  {
    GatheredIs(g);
    CommitsDoneIs(g);
    hide Gateway.Gathered, Gateway.CommitsDone;
  }

  /** When connections and UIs take a step: a new connection registers while membership is open,
      messages and acknowledgements are taken off the wire, tasks end. */
  lemma {:induction false} OtherStepsWhen(s: System, conn: Conn, ui: Ui, ack: Ack, task: Task, result: Option<Release>, works: bool)
    ensures Enabled(s, Register(conn, ui)) <==> s.gateway.accepting && conn !in s.owner
    ensures Enabled(s, Unregister(conn)) <==> conn in s.gateway.participants
    ensures Enabled(s, Acknowledge(conn, ack)) <==> (conn, ack) in s.acks
    ensures Enabled(s, Deliver(conn)) <==> conn in s.wires && s.wires[conn] != [] && conn in s.owner
    ensures Enabled(s, UiPrepares(task, result)) <==> task in s.tasks && task.message.PrepareMessage?
    ensures Enabled(s, UiCommits(task, works)) <==> task in s.tasks && task.message.CommitMessage?
    ensures Enabled(s, Expire(ack.id)) && Enabled(s, Lose(conn))
  {
  }

  // ------------------------------------------------------- an update that goes through

  /** One UI, and a release that it and the Gateway are updated to. */
  datatype Story = Story(conn: Conn, ui: Ui, release: Release)
  {
    function Asked(): RequestId { RequestId(1, Prepare, conn) }

    function Ordered(): RequestId { RequestId(1, Commit, conn) }

    function Answer(): (Version, CommitHash) { (release.version, release.commit) }

    function Preparing(): Task { Task(ui, conn, PrepareMessage(Asked())) }

    function Committing(): Task { Task(ui, conn, CommitMessage(Ordered(), release.id)) }

    function Prepared(): Ack { Ack(Asked(), true, Some(Answer())) }

    function Committed(): Ack { Ack(Ordered(), true, None) }

    function Steps(): seq<Step> {
      [Register(conn, ui), Begin, Stage({conn}, release, true), StartTask, Deliver(conn), UiPrepares(Preparing(), Some(release)),
       Acknowledge(conn, Prepared()), Decide, Deliver(conn), UiCommits(Committing(), true), Acknowledge(conn, Committed()),
       Clear, ActivateGateway(true)]
    }

    /** The Gateway while the update is open. */
    function Open(phase: Phase, requests: map<RequestId, Reply>): Gateway {
      Gateway(false, {conn}, {conn}, Some(release), true, phase, 1, requests)
    }

    /** What has been noted once the prepares are out. */
    function Noted(decided: map<nat, bool>, reported: set<(RequestId, Version, CommitHash)>, activations: set<Activation>,
                   gatewayActivations: set<nat>, sent: seq<Sent>): Past
    {
      Past({conn}, map[1 := {conn}], map[1 := release], decided, reported, activations, gatewayActivations, sent)
    }

    function Agreed(activations: set<Activation>, gatewayActivations: set<nat>): Past {
      Noted(map[1 := true], Report(), activations, gatewayActivations, [Sent(1, SaidPrepare), Sent(1, SaidCommit)])
    }

    function Report(): set<(RequestId, Version, CommitHash)> { {(Asked(), release.version, release.commit)} }

    function Agreeing(): map<RequestId, Reply> { map[Asked() := Reply.Answered(Some(Answer()))] }

    function With(gateway: Gateway, wire: seq<Message>, acks: set<(Conn, Ack)>, tasks: set<Task>, staged: map<Ui, Release>, past: Past): System {
      System(gateway, map[conn := ui], map[conn := wire], acks, tasks, staged, past)
    }

    // The states of the run, one after the other.

    function Nobody(): System { Start() }

    function Joined(): System {
      With(Gateway(true, {conn}, {}, None, false, Idle, 0, map[]), [], {}, {}, map[], Past({}, map[], map[], map[], {}, {}, {}, []))
    }

    function Closed(): System {
      With(Gateway(false, {conn}, {conn}, None, false, Checking, 1, map[]), [], {}, {}, map[], Past({conn}, map[], map[], map[], {}, {}, {}, []))
    }

    function Chosen(): System { With(Open(Staged, map[]), [], {}, {}, map[], Noted(map[], {}, {}, {}, [])) }

    function Asking(): System {
      With(Open(Phase.Preparing, map[Asked() := Waiting]), [PrepareMessage(Asked())], {}, {}, map[], Noted(map[], {}, {}, {}, [Sent(1, SaidPrepare)]))
    }

    function Reading(): System {
      With(Open(Phase.Preparing, map[Asked() := Waiting]), [], {}, {Preparing()}, map[], Noted(map[], {}, {}, {}, [Sent(1, SaidPrepare)]))
    }

    function Ready(): System {
      With(Open(Phase.Preparing, map[Asked() := Waiting]), [], {(conn, Prepared())}, {}, map[ui := release], Noted(map[], Report(), {}, {}, [Sent(1, SaidPrepare)]))
    }

    function Answered(): System {
      With(Open(Phase.Preparing, Agreeing()), [], {}, {}, map[ui := release], Noted(map[], Report(), {}, {}, [Sent(1, SaidPrepare)]))
    }

    function Ordering(): System {
      With(Open(Phase.Committing, Agreeing()[Ordered() := Waiting]), [CommitMessage(Ordered(), release.id)], {}, {}, map[ui := release], Agreed({}, {}))
    }

    function Obeying(): System {
      With(Open(Phase.Committing, Agreeing()[Ordered() := Waiting]), [], {}, {Committing()}, map[ui := release], Agreed({}, {}))
    }

    function Activated(): System {
      With(Open(Phase.Committing, Agreeing()[Ordered() := Waiting]), [], {(conn, Committed())}, {}, map[ui := release], Agreed({Activation(ui, 1, release)}, {}))
    }

    function Confirmed(): System {
      With(Open(Phase.Committing, Agreeing()[Ordered() := Reply.Answered(None)]), [], {}, {}, map[ui := release], Agreed({Activation(ui, 1, release)}, {}))
    }

    function Last(): System {
      With(Open(Activating, Agreeing()[Ordered() := Reply.Answered(None)]), [], {}, {}, map[ui := release], Agreed({Activation(ui, 1, release)}, {}))
    }

    function Done(): System {
      With(Open(Restarting, Agreeing()[Ordered() := Reply.Answered(None)]), [], {}, {}, map[ui := release], Agreed({Activation(ui, 1, release)}, {1}))
    }

    /** The state before step `i`, and at the end the last one. */
    function At(i: nat): System {
      if i == 0 then Nobody()
      else if i == 1 then Joined()
      else if i == 2 then Closed()
      else if i == 3 then Chosen()
      else if i == 4 then Asking()
      else if i == 5 then Reading()
      else if i == 6 then Ready()
      else if i == 7 then Answered()
      else if i == 8 then Ordering()
      else if i == 9 then Obeying()
      else if i == 10 then Activated()
      else if i == 11 then Confirmed()
      else if i == 12 then Last()
      else Done()
    }
  }

  lemma {:induction false} OneWaiting(kind: Kind, conn: Conn)
    ensures AllWaiting(1, kind, {conn}) == map[RequestId(1, kind, conn) := Waiting]
  {
    assert Requests(1, kind, {conn}) == {RequestId(1, kind, conn)};
  }

  lemma {:induction false} Told(conn: Conn, message: Conn -> Message)
    ensures Broadcast(map[conn := []], {conn} * {conn}, message) == map[conn := [message(conn)]]
  {
    var nothing: seq<Message> := [];
    assert nothing + [message(conn)] == [message(conn)];
  }

  lemma {:induction false} JoinStep(y: Story)
    ensures Enabled(y.Nobody(), Register(y.conn, y.ui)) && Next(y.Nobody(), Register(y.conn, y.ui)) == y.Joined()
  {
  }

  lemma {:induction false} BeginStep(y: Story)
    ensures Enabled(y.Joined(), Begin) && Next(y.Joined(), Begin) == y.Closed()
  {
  }

  lemma {:induction false} StageStep(y: Story)
    ensures Enabled(y.Closed(), Stage({y.conn}, y.release, true)) && Next(y.Closed(), Stage({y.conn}, y.release, true)) == y.Chosen()
  {
  }

  lemma {:induction false} AskStep(y: Story)
    ensures Enabled(y.Chosen(), StartTask) && Next(y.Chosen(), StartTask) == y.Asking()
  {
    OneWaiting(Prepare, y.conn);
    Told(y.conn, Preparation(1));
    var none: map<RequestId, Reply> := map[];
    assert none + map[y.Asked() := Waiting] == map[y.Asked() := Waiting];
    hide AllWaiting, Broadcast;
  }

  lemma {:induction false} ReadStep(y: Story)
    ensures Enabled(y.Asking(), Deliver(y.conn)) && Next(y.Asking(), Deliver(y.conn)) == y.Reading()
  {
  }

  lemma {:induction false} PrepareStep(y: Story)
    ensures Enabled(y.Reading(), UiPrepares(y.Preparing(), Some(y.release))) && Next(y.Reading(), UiPrepares(y.Preparing(), Some(y.release))) == y.Ready()
  {
  }

  lemma {:induction false} AnswerStep(y: Story)
    ensures Enabled(y.Ready(), Acknowledge(y.conn, y.Prepared())) && Next(y.Ready(), Acknowledge(y.conn, y.Prepared())) == y.Answered()
  {
  }

  lemma {:induction false} DecideStep(y: Story)
    ensures Enabled(y.Answered(), Decide) && Next(y.Answered(), Decide) == y.Ordering()
  {
    assert y.Answered().gateway.ReplyTo(Prepare, y.conn) == Reply.Answered(Some(y.Answer()));
    assert y.Answered().gateway.Agreed();
    OneWaiting(Commit, y.conn);
    Told(y.conn, Verdict(y.Answered().gateway));
    assert y.Agreeing() + map[y.Ordered() := Waiting] == y.Agreeing()[y.Ordered() := Waiting];
    hide AllWaiting, Broadcast, Gateway.Agreed;
  }

  lemma {:induction false} OrderStep(y: Story)
    ensures Enabled(y.Ordering(), Deliver(y.conn)) && Next(y.Ordering(), Deliver(y.conn)) == y.Obeying()
  {
  }

  lemma {:induction false} CommitStep(y: Story)
    ensures Enabled(y.Obeying(), UiCommits(y.Committing(), true)) && Next(y.Obeying(), UiCommits(y.Committing(), true)) == y.Activated()
  {
  }

  lemma {:induction false} ConfirmStep(y: Story)
    ensures Enabled(y.Activated(), Acknowledge(y.conn, y.Committed())) && Next(y.Activated(), Acknowledge(y.conn, y.Committed())) == y.Confirmed()
  {
  }

  lemma {:induction false} ClearStep(y: Story)
    ensures Enabled(y.Confirmed(), Clear) && Next(y.Confirmed(), Clear) == y.Last()
  {
  }

  lemma {:induction false} RestartStep(y: Story)
    ensures Enabled(y.Last(), ActivateGateway(true)) && Next(y.Last(), ActivateGateway(true)) == y.Done()
  {
  }

  lemma {:induction false} OpeningSteps(y: Story, i: nat)
    requires i < 5
    ensures Enabled(y.At(i), y.Steps()[i]) && Next(y.At(i), y.Steps()[i]) == y.At(i + 1)
  {
    hide Next, Enabled, Story.Joined, Story.Closed, Story.Chosen, Story.Asking, Story.Reading, Story.Ready, Story.Answered,
      Story.Ordering, Story.Obeying, Story.Activated, Story.Confirmed, Story.Last, Story.Done;
    match i
    case 0 => JoinStep(y);
    case 1 => BeginStep(y);
    case 2 => StageStep(y);
    case 3 => AskStep(y);
    case 4 => ReadStep(y);
  }

  lemma {:induction false} PreparingSteps(y: Story, i: nat)
    requires 5 <= i < 9
    ensures Enabled(y.At(i), y.Steps()[i]) && Next(y.At(i), y.Steps()[i]) == y.At(i + 1)
  {
    hide Next, Enabled, Story.Joined, Story.Closed, Story.Chosen, Story.Asking, Story.Reading, Story.Ready, Story.Answered,
      Story.Ordering, Story.Obeying, Story.Activated, Story.Confirmed, Story.Last, Story.Done;
    match i
    case 5 => PrepareStep(y);
    case 6 => AnswerStep(y);
    case 7 => DecideStep(y);
    case 8 => OrderStep(y);
  }

  lemma {:induction false} CommittingSteps(y: Story, i: nat)
    requires 9 <= i < 13
    ensures Enabled(y.At(i), y.Steps()[i]) && Next(y.At(i), y.Steps()[i]) == y.At(i + 1)
  {
    hide Next, Enabled, Story.Joined, Story.Closed, Story.Chosen, Story.Asking, Story.Reading, Story.Ready, Story.Answered,
      Story.Ordering, Story.Obeying, Story.Activated, Story.Confirmed, Story.Last, Story.Done;
    match i
    case 9 => CommitStep(y);
    case 10 => ConfirmStep(y);
    case 11 => ClearStep(y);
    case 12 => RestartStep(y);
  }

  lemma {:induction false} StoryStep(y: Story, i: nat)
    requires i < 13
    ensures Enabled(y.At(i), y.Steps()[i]) && Next(y.At(i), y.Steps()[i]) == y.At(i + 1)
  {
    hide Next, Enabled, Story.At;
    if i < 5 {
      OpeningSteps(y, i);
    } else if i < 9 {
      PreparingSteps(y, i);
    } else {
      CommittingSteps(y, i);
    }
  }

  /** States that each follow from the one before make a run. */
  lemma {:induction false} PathRuns(at: nat -> System, steps: seq<Step>, i: nat)
    requires i <= |steps|
    requires forall k: nat :: k < |steps| ==> Enabled(at(k), steps[k]) && Next(at(k), steps[k]) == at(k + 1)
    ensures Runs(at(i), steps[i..]) && After(at(i), steps[i..]) == at(|steps|)
    decreases |steps| - i
  {
    hide Next, Enabled;
    if i < |steps| {
      assert steps[i..][1..] == steps[i + 1..];
      PathRuns(at, steps, i + 1);
    }
  }

  /** An update can go through: both the UI and the Gateway activate the release, in a run in
      which every request is asked, answered and acted on in turn. */
  lemma {:induction false} UpdateGoesThrough(conn: Conn, ui: Ui, release: Release)
    ensures var steps := Story(conn, ui, release).Steps();
      Runs(Start(), steps) && var s := After(Start(), steps);
      && s.gateway.phase == Restarting
      && s.past.activations == {Activation(ui, 1, release)} && s.past.gatewayActivations == {1}
      && s.past.sent == [Sent(1, SaidPrepare), Sent(1, SaidCommit)]
  {
    hide Runs, After, Next, Enabled;
    var y := Story(conn, ui, release);
    var at, steps := (i: nat) => y.At(i), y.Steps();
    forall k: nat | k < |steps| ensures Enabled(at(k), steps[k]) && Next(at(k), steps[k]) == at(k + 1) {
      StoryStep(y, k);
    }
    PathRuns(at, steps, 0);
    assert steps[0..] == steps;
  }

  /** A run goes on with any step that is possible after it. */
  lemma {:induction false} RunExtends(s: System, steps: seq<Step>, step: Step)
    ensures Runs(s, []) && After(s, []) == s
    ensures Runs(s, steps) && Enabled(After(s, steps), step) ==>
      Runs(s, steps + [step]) && After(s, steps + [step]) == Next(After(s, steps), step)
    decreases |steps|
  {
    hide Next, Enabled;
    if Runs(s, steps) && Enabled(After(s, steps), step) {
      var more := steps + [step];
      if steps == [] {
        assert more[1..] == [];
      } else {
        assert more[1..] == steps[1..] + [step];
        RunExtends(Next(s, steps[0]), steps[1..], step);
      }
    }
  }
}
