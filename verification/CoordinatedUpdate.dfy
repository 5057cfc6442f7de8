/** The coordinated update: a two-phase commit over the connected UIs whose membership is
    closed while it is open. */
module CoordinatedUpdate {
  import opened Wrappers

  // The Gateway's side is `_stage_gateway_update`, `_coordinate_update` and `_handle_update_ack`
  // in `src/tfr/gateway.py`, the UI's the update handlers in `src/tfr/gateway_client.py`.

  type Conn(==, !new)
  type Ui(==, !new)
  type Version(==, !new)
  type CommitHash(==, !new)
  type ReleaseId(==, !new)

  datatype Release = Release(id: ReleaseId, version: Version, commit: CommitHash)

  datatype Kind = Prepare | Commit

  /** One request to one participant. Each is made once per transaction and kind, with an
      identifier that no other request has. */
  datatype RequestId = RequestId(tx: nat, kind: Kind, conn: Conn)

  /** The future of a request: no answer yet, an accepted answer with its optional result,
      or a refusal, a timeout, a failed write or a disconnect. */
  datatype Reply = Waiting | Answered(result: Option<(Version, CommitHash)>) | Broken

  datatype Message =
    | PrepareMessage(id: RequestId)
    | CommitMessage(id: RequestId, release: ReleaseId)
    | AbortMessage(tx: nat)

  datatype Ack = Ack(id: RequestId, ok: bool, result: Option<(Version, CommitHash)>)

  /** Where the update coroutine is. `Idle` is before any update and after the last one. */
  datatype Phase = Idle | Checking | Staged | Preparing | Aborting | Committing | Activating | Reopening | Restarting

  // ------------------------------------------------------------------ the Gateway's side

  datatype Gateway = Gateway(
    accepting: bool, participants: set<Conn>, transaction: set<Conn>, staged: Option<Release>, restart: bool,
    phase: Phase, tx: nat, requests: map<RequestId, Reply>)
  {
    predicate Open() { phase != Idle }

    /** A handshake may register only while no update is open. */
    function Registered(conn: Conn): Gateway
      requires accepting
    {
      this.(participants := participants + {conn})
    }

    /** A lost connection is no participant, and all it still owed is broken. */
    function Unregistered(conn: Conn): Gateway {
      this.(participants := participants - {conn}, requests := BrokenFor(requests, conn))
    }

    /** Selected participants whose connection is still registered. */
    function Reachable(): set<Conn> { transaction * participants }

    predicate Busy() { staged.Some? || phase != Idle }

    /** Close membership and capture it. */
    function Begun(): Gateway
      requires !Busy()
    {
      this.(accepting := false, transaction := participants, phase := Checking, tx := tx + 1, restart := false)
    }

    /** A failed check, or nothing to update. */
    function Reopened(): Gateway {
      this.(accepting := true, transaction := {}, phase := Idle)
    }

    function StagedWith(selected: set<Conn>, release: Release, updateGateway: bool): Gateway {
      this.(staged := Some(release), transaction := selected, restart := updateGateway, phase := Staged)
    }

    /** One new waiting request for every selected participant. */
    function Requesting(kind: Kind): Gateway {
      this.(requests := requests + AllWaiting(tx, kind, transaction))
    }

    function Started(): Gateway { Requesting(Prepare).(phase := Preparing) }

    function ReplyTo(kind: Kind, conn: Conn): Reply {
      if RequestId(tx, kind, conn) in requests then requests[RequestId(tx, kind, conn)] else Waiting
    }

    predicate AnyBroken() { exists conn :: conn in transaction && ReplyTo(Prepare, conn).Broken? }

    predicate AllAnswered() { forall conn :: conn in transaction ==> ReplyTo(Prepare, conn).Answered? }

    predicate AnyMismatch()
      requires staged.Some?
    {
      exists conn :: conn in transaction && ReplyTo(Prepare, conn) != Answered(Some((staged.value.version, staged.value.commit)))
    }

    /** The gathering of prepare results ends at the first failure or when all have come. */
    predicate Gathered() { AnyBroken() || AllAnswered() }

    predicate Agreed()
      requires staged.Some?
    {
      !AnyBroken() && !AnyMismatch()
    }

    function Decided(): Gateway
      requires staged.Some?
    {
      if Agreed() then Requesting(Commit).(phase := Committing) else this.(phase := Aborting)
    }

    predicate CommitsDone() { forall conn :: conn in transaction ==> !ReplyTo(Commit, conn).Waiting? }

    /** The end of either branch; a Gateway that must restart activates its own release. */
    function Cleared(): Gateway {
      if phase == Committing && restart then this.(phase := Activating)
      else this.(staged := None, restart := false, phase := Reopening)
    }

    /** A failed activation reopens membership but leaves the release staged. */
    function Activated(ok: bool): Gateway {
      if ok then this.(phase := Restarting) else Reopened()
    }

    /** `_handle_update_ack`: only a waiting request of a registered participant is answered. */
    predicate Expects(conn: Conn, id: RequestId) {
      conn in participants && id.conn == conn && id in requests && requests[id].Waiting?
    }

    function Acknowledged(conn: Conn, ack: Ack): Gateway {
      if Expects(conn, ack.id)
      then this.(requests := requests[ack.id := if ack.ok then Answered(ack.result) else Broken])
      else this
    }

    function Expired(id: RequestId): Gateway {
      if id in requests && requests[id].Waiting? then this.(requests := requests[id := Broken]) else this
    }
  }

  /** The waiting requests of one connection are broken. */
  function BrokenFor(requests: map<RequestId, Reply>, conn: Conn): map<RequestId, Reply> {
    map id | id in requests :: if id.conn == conn && requests[id].Waiting? then Broken else requests[id]
  }

  function AllWaiting(tx: nat, kind: Kind, to: set<Conn>): map<RequestId, Reply> {
    map id | id in Requests(tx, kind, to) :: Waiting
  }

  function Requests(tx: nat, kind: Kind, to: set<Conn>): set<RequestId> { set conn | conn in to :: RequestId(tx, kind, conn) }

  lemma {:induction false} OneMoreWaiting(tx: nat, kind: Kind, to: set<Conn>, conn: Conn)
    ensures AllWaiting(tx, kind, to + {conn}) == AllWaiting(tx, kind, to)[RequestId(tx, kind, conn) := Waiting]
  {
  }

  function NewGateway(): Gateway { Gateway(true, {}, {}, None, false, Idle, 0, map[]) }

  // ----------------------------------------------------------------------- the UI's side

  /** A UI running one update request it received. */
  datatype Task = Task(ui: Ui, conn: Conn, message: Message)

  /** `_commit_update` activates only the release this UI has staged. */
  predicate MayActivate(staged: Option<Release>, id: ReleaseId) { staged.Some? && staged.value.id == id }

  // -------------------------------------------------------------------- the whole system

  /** One activation by a UI, on a commit of transaction `tx`. */
  datatype Activation = Activation(ui: Ui, tx: nat, release: Release)

  /** What happened: the members captured last, each transaction's selected participants and
      release, its decision, every staging a UI reported, every activation, and the order in
      which the Gateway sent prepares, commits and aborts. */
  datatype Past = Past(
    captured: set<Conn>, selected: map<nat, set<Conn>>, releases: map<nat, Release>, decided: map<nat, bool>,
    reported: set<(RequestId, Version, CommitHash)>, activations: set<Activation>, gatewayActivations: set<nat>,
    sent: seq<Sent>)

  datatype Word = SaidPrepare | SaidCommit | SaidAbort

  datatype Sent = Sent(tx: nat, word: Word)

  datatype System = System(
    gateway: Gateway, owner: map<Conn, Ui>, wires: map<Conn, seq<Message>>, acks: set<(Conn, Ack)>,
    tasks: set<Task>, staged: map<Ui, Release>, past: Past)

  function Start(): System {
    System(NewGateway(), map[], map[], {}, {}, map[], Past({}, map[], map[], map[], {}, {}, {}, []))
  }

  datatype Step =
    | Register(conn: Conn, ui: Ui)
    | Unregister(conn: Conn)
    | Lose(conn: Conn)                                                   // what is still on the wire never arrives
    | Begin
    | GiveUp                                                             // a failed check, or nothing to update
    | Stage(selected: set<Conn>, release: Release, updateGateway: bool)
    | StartTask
    | Decide
    | Clear
    | Reopen
    | ActivateGateway(ok: bool)
    | Acknowledge(conn: Conn, ack: Ack)
    | Expire(id: RequestId)
    | Deliver(conn: Conn)                                                // the UI reads one message
    | UiPrepares(task: Task, result: Option<Release>)                    // staging ends, or fails
    | UiCommits(task: Task, works: bool)                                 // activation ends, or fails

  predicate GatewayEnabled(g: Gateway, step: Step) {
    match step
    case Register(conn, ui) => g.accepting
    case Unregister(conn) => conn in g.participants
    case Begin => !g.Busy()
    case GiveUp => g.phase == Checking
    case Stage(selected, release, updateGateway) => g.phase == Checking && selected <= g.transaction
    case StartTask => g.phase == Staged
    case Decide => g.phase == Preparing && g.Gathered() && g.staged.Some?
    case Clear => g.phase == Aborting || (g.phase == Committing && g.CommitsDone())
    case Reopen => g.phase == Reopening
    case ActivateGateway(ok) => g.phase == Activating
    case _ => true
  }

  predicate Enabled(s: System, step: Step) {
    && GatewayEnabled(s.gateway, step)
    && match step
       case Register(conn, ui) => conn !in s.owner
       case Acknowledge(conn, ack) => (conn, ack) in s.acks
       case Deliver(conn) => conn in s.wires && s.wires[conn] != [] && conn in s.owner
       case UiPrepares(task, result) => task in s.tasks && task.message.PrepareMessage?
       case UiCommits(task, works) => task in s.tasks && task.message.CommitMessage?
       case _ => true
  }

  function GatewayAfter(g: Gateway, step: Step): Gateway
    requires GatewayEnabled(g, step)
  {
    match step
    case Register(conn, ui) => g.Registered(conn)
    case Unregister(conn) => g.Unregistered(conn)
    case Begin => g.Begun()
    case GiveUp => g.Reopened()
    case Stage(selected, release, updateGateway) => g.StagedWith(selected, release, updateGateway)
    case StartTask => g.Started()
    case Decide => g.Decided()
    case Clear => g.Cleared()
    case Reopen => g.Reopened()
    case ActivateGateway(ok) => g.Activated(ok)
    case Acknowledge(conn, ack) => g.Acknowledged(conn, ack)
    case Expire(id) => g.Expired(id)
    case _ => g
  }

  function StagedBy(staged: map<Ui, Release>, ui: Ui): Option<Release> { if ui in staged then Some(staged[ui]) else None }

  function PastAfter(g: Gateway, staged: map<Ui, Release>, p: Past, step: Step): Past
    requires GatewayEnabled(g, step)
  {
    match step
    case Begin => p.(captured := g.participants)
    case Stage(selected, release, _) => p.(selected := p.selected[g.tx := selected], releases := p.releases[g.tx := release])
    case StartTask => p.(sent := p.sent + [Sent(g.tx, SaidPrepare)])
    case Decide => p.(decided := p.decided[g.tx := g.Agreed()], sent := p.sent + [Sent(g.tx, if g.Agreed() then SaidCommit else SaidAbort)])
    case ActivateGateway(ok) => if ok then p.(gatewayActivations := p.gatewayActivations + {g.tx}) else p
    case UiPrepares(task, result) =>
      if result.Some? && task.message.PrepareMessage?
      then p.(reported := p.reported + {(task.message.id, result.value.version, result.value.commit)})
      else p
    case UiCommits(task, works) =>
      if works && task.message.CommitMessage? && MayActivate(StagedBy(staged, task.ui), task.message.release)
      then p.(activations := p.activations + {Activation(task.ui, task.message.id.tx, staged[task.ui])})
      else p
    case _ => p
  }

  /** A message to every one of these participants. */
  function Broadcast(wires: map<Conn, seq<Message>>, to: set<Conn>, message: Conn -> Message): map<Conn, seq<Message>> {
    map conn | conn in wires :: if conn in to then wires[conn] + [message(conn)] else wires[conn]
  }

  function Preparation(tx: nat): Conn -> Message { (conn: Conn) => PrepareMessage(RequestId(tx, Prepare, conn)) }

  /** What the decision tells the selected participants. */
  function Verdict(g: Gateway): Conn -> Message
    requires g.staged.Some?
  {
    if g.Agreed() then (conn: Conn) => CommitMessage(RequestId(g.tx, Commit, conn), g.staged.value.id)
    else (conn: Conn) => AbortMessage(g.tx)
  }

  /** The UI's answer to a prepare: what it staged, or a refusal. */
  function PrepareAck(id: RequestId, result: Option<Release>): Ack {
    if result.None? then Ack(id, false, None) else Ack(id, true, Some((result.value.version, result.value.commit)))
  }

  function Next(s: System, step: Step): System
    requires Enabled(s, step)
  {
    var g := s.gateway;
    var moved := s.(gateway := GatewayAfter(g, step), past := PastAfter(g, s.staged, s.past, step));
    match step
    case Register(conn, ui) => moved.(owner := s.owner[conn := ui], wires := s.wires[conn := []])
    case Lose(conn) => moved.(wires := s.wires - {conn})
    case StartTask => moved.(wires := Broadcast(s.wires, g.Reachable(), Preparation(g.tx)))
    case Decide => moved.(wires := Broadcast(s.wires, g.Reachable(), Verdict(g)))
    case Acknowledge(conn, ack) => moved.(acks := s.acks - {(conn, ack)})
    case Deliver(conn) =>
      // prepares and commits run as tasks, an abort takes effect at once
      var m := s.wires[conn][0];
      var read := moved.(wires := s.wires[conn := s.wires[conn][1..]]);
      if m.AbortMessage? then read.(staged := s.staged - {s.owner[conn]})
      else read.(tasks := s.tasks + {Task(s.owner[conn], conn, m)})
    case UiPrepares(task, result) =>
      moved.(tasks := s.tasks - {task}, acks := s.acks + {(task.conn, PrepareAck(task.message.id, result))},
             staged := if result.Some? then s.staged[task.ui := result.value] else s.staged)
    case UiCommits(task, works) =>
      var ok := works && MayActivate(StagedBy(s.staged, task.ui), task.message.release);
      moved.(tasks := s.tasks - {task}, acks := s.acks + {(task.conn, Ack(task.message.id, ok, None))})
    case _ => moved
  }

  // ---------------------------------------------------------------- what every run keeps

  /** The decision of each transaction, by the phase of the current one. */
  ghost predicate PhaseInv(g: Gateway, p: Past) {
    && (forall tx :: tx in p.decided ==> tx <= g.tx)
    && (g.phase in {Checking, Staged, Preparing} ==> g.tx !in p.decided)
    && (g.phase == Aborting ==> g.tx in p.decided && !p.decided[g.tx])
    && (g.phase in {Committing, Activating, Restarting} ==> g.tx in p.decided && p.decided[g.tx])
    && (forall tx :: tx in p.gatewayActivations ==> tx in p.decided && p.decided[tx])
  }

  /** While an update is open no one joins, and the selected were captured. */
  ghost predicate MemberInv(g: Gateway, p: Past) {
    && (g.Open() ==> !g.accepting && g.participants <= p.captured && g.transaction <= p.captured)
    && (g.phase in {Staged, Preparing, Aborting, Committing, Activating, Restarting} ==>
          g.staged.Some? && g.tx in p.releases && p.releases[g.tx] == g.staged.value
          && g.tx in p.selected && p.selected[g.tx] == g.transaction)
  }

  ghost predicate Committed(p: Past, tx: nat) { tx in p.decided && p.decided[tx] }

  /** Every selected participant of a committed transaction reported the staged release. */
  ghost predicate CommitInv(p: Past) {
    forall tx :: Committed(p, tx) ==>
      && tx in p.selected && tx in p.releases
      && forall conn :: conn in p.selected[tx] ==>
           (RequestId(tx, Prepare, conn), p.releases[tx].version, p.releases[tx].commit) in p.reported
  }

  ghost predicate Truthful(p: Past, id: RequestId, result: Option<(Version, CommitHash)>) {
    id.kind == Prepare && result.Some? ==> (id, result.value.0, result.value.1) in p.reported
  }

  ghost predicate ReplyInv(g: Gateway, p: Past) {
    && (forall id :: id in g.requests && g.requests[id].Answered? ==> Truthful(p, id, g.requests[id].result))
    && (forall id :: id in g.requests ==> id.tx <= g.tx)
  }

  ghost predicate AckInv(acks: set<(Conn, Ack)>, p: Past) {
    forall a :: a in acks && a.1.ok ==> Truthful(p, a.1.id, a.1.result)
  }

  /** A message in flight agrees with the decision of its transaction. */
  ghost predicate Honest(p: Past, m: Message) {
    match m
    case PrepareMessage(id) => id.kind == Prepare
    case CommitMessage(id, release) =>
      id.kind == Commit && Committed(p, id.tx) && id.tx in p.releases && p.releases[id.tx].id == release
    case AbortMessage(tx) => tx in p.decided && !p.decided[tx]
  }

  ghost predicate WireInv(wires: map<Conn, seq<Message>>, p: Past) {
    forall conn, i :: conn in wires && 0 <= i < |wires[conn]| ==> Honest(p, wires[conn][i])
  }

  ghost predicate TaskInv(tasks: set<Task>, p: Past) {
    forall t :: t in tasks ==> Honest(p, t.message)
  }

  ghost predicate ActivationInv(p: Past) {
    forall a :: a in p.activations ==>
      Committed(p, a.tx) && a.tx in p.releases && a.release.id == p.releases[a.tx].id
  }

  /** One word may come after another: of a later transaction, or the decision after the
      prepares of the same one. */
  predicate MayFollow(first: Sent, next: Sent) {
    first.tx < next.tx || (first.tx == next.tx && first.word == SaidPrepare && next.word != SaidPrepare)
  }

  /** Words of different transactions never interleave, and within one transaction a
      decision follows the prepares and no second decision follows. */
  ghost predicate InOrder(sent: seq<Sent>) {
    forall i, j :: 0 <= i < j < |sent| ==> MayFollow(sent[i], sent[j])
  }

  /** A word agrees with the decision and the phase. */
  ghost predicate SaidRightly(g: Gateway, p: Past, said: Sent) {
    && said.tx <= g.tx
    && (g.phase in {Checking, Staged} ==> said.tx < g.tx)
    && (g.phase == Preparing && said.tx == g.tx ==> said.word == SaidPrepare)
    && (said.word == SaidCommit ==> Committed(p, said.tx))
    && (said.word == SaidAbort ==> said.tx in p.decided && !p.decided[said.tx])
  }

  ghost predicate SentInv(g: Gateway, p: Past) {
    InOrder(p.sent) && forall i :: 0 <= i < |p.sent| ==> SaidRightly(g, p, p.sent[i])
  }

  ghost predicate Inv(s: System) {
    && PhaseInv(s.gateway, s.past) && MemberInv(s.gateway, s.past) && CommitInv(s.past)
    && ReplyInv(s.gateway, s.past) && AckInv(s.acks, s.past)
    && WireInv(s.wires, s.past) && TaskInv(s.tasks, s.past)
    && ActivationInv(s.past) && SentInv(s.gateway, s.past)
  }

  /** What later bookkeeping may change: nothing about a decided transaction. */
  ghost predicate Extends(p: Past, q: Past) {
    && (forall tx :: tx in p.decided ==> tx in q.decided && q.decided[tx] == p.decided[tx])
    && (forall tx :: Committed(p, tx) && tx in p.releases ==> tx in q.releases && q.releases[tx] == p.releases[tx])
    && p.reported <= q.reported
  }

  lemma {:induction false} FlowExtends(wires: map<Conn, seq<Message>>, acks: set<(Conn, Ack)>, tasks: set<Task>, p: Past, q: Past)
    requires Extends(p, q) && WireInv(wires, p) && AckInv(acks, p) && TaskInv(tasks, p)
    ensures WireInv(wires, q) && AckInv(acks, q) && TaskInv(tasks, q)
  {
    forall m | Honest(p, m) ensures Honest(q, m) {}
    hide Honest;
  }

  lemma {:induction false} BroadcastKeeps(wires: map<Conn, seq<Message>>, to: set<Conn>, message: Conn -> Message, p: Past)
    requires WireInv(wires, p) && forall conn :: conn in to ==> Honest(p, message(conn))
    ensures WireInv(Broadcast(wires, to, message), p)
  {
    hide Honest;
  }

  lemma {:induction false} PastExtends(g: Gateway, staged: map<Ui, Release>, p: Past, step: Step)
    requires PhaseInv(g, p) && GatewayEnabled(g, step)
    ensures Extends(p, PastAfter(g, staged, p, step))
  {
  }

  /** Steps that only the Gateway's own state can refuse. */
  predicate OwnStep(step: Step) {
    step.Begin? || step.Stage? || step.StartTask? || step.Decide? || step.Clear? || step.ActivateGateway?
  }

  /** Steps that move the update coroutine. */
  predicate Moves(step: Step) { OwnStep(step) || step.GiveUp? || step.Reopen? }

  lemma {:induction false} PhaseOnVerdict(g: Gateway, staged: map<Ui, Release>, p: Past, step: Step)
    requires PhaseInv(g, p) && GatewayEnabled(g, step) && (step.Decide? || step.Clear? || step.ActivateGateway?)
    ensures PhaseInv(GatewayAfter(g, step), PastAfter(g, staged, p, step))
  {
    hide AllWaiting, BrokenFor, Gateway.Gathered, Gateway.CommitsDone, Gateway.Agreed;
  }

  lemma {:induction false} PhaseOnMove(g: Gateway, staged: map<Ui, Release>, p: Past, step: Step)
    requires PhaseInv(g, p) && GatewayEnabled(g, step) && Moves(step)
    ensures PhaseInv(GatewayAfter(g, step), PastAfter(g, staged, p, step))
  {
    hide GatewayAfter, PastAfter, GatewayEnabled, PhaseInv;
    if step.Decide? || step.Clear? || step.ActivateGateway? {
      PhaseOnVerdict(g, staged, p, step);
    } else {
      PhaseOnOther(g, staged, p, step);
    }
  }

  lemma {:induction false} PhaseOnOther(g: Gateway, staged: map<Ui, Release>, p: Past, step: Step)
    requires PhaseInv(g, p) && GatewayEnabled(g, step) && Moves(step) && !(step.Decide? || step.Clear? || step.ActivateGateway?)
    ensures PhaseInv(GatewayAfter(g, step), PastAfter(g, staged, p, step))
  {
    hide AllWaiting, BrokenFor, Gateway.Gathered, Gateway.CommitsDone, Gateway.Agreed;
  }

  lemma {:induction false} PhaseElsewhere(g: Gateway, staged: map<Ui, Release>, p: Past, step: Step)
    requires GatewayEnabled(g, step) && !Moves(step)
    ensures var (h, q) := (GatewayAfter(g, step), PastAfter(g, staged, p, step));
      h.phase == g.phase && h.tx == g.tx && q.decided == p.decided && q.gatewayActivations == p.gatewayActivations
  {
    hide AllWaiting, BrokenFor, Gateway.Gathered, Gateway.CommitsDone, Gateway.Agreed;
  }

  lemma {:induction false} PhaseKeeps(g: Gateway, staged: map<Ui, Release>, p: Past, step: Step)
    requires PhaseInv(g, p) && GatewayEnabled(g, step)
    ensures PhaseInv(GatewayAfter(g, step), PastAfter(g, staged, p, step))
  {
    hide GatewayAfter, PastAfter, GatewayEnabled;
    if Moves(step) {
      PhaseOnMove(g, staged, p, step);
    } else {
      PhaseElsewhere(g, staged, p, step);
    }
  }

  lemma {:induction false} MemberKeeps(g: Gateway, staged: map<Ui, Release>, p: Past, step: Step)
    requires MemberInv(g, p) && GatewayEnabled(g, step)
    ensures MemberInv(GatewayAfter(g, step), PastAfter(g, staged, p, step))
  {
    hide AllWaiting, BrokenFor, Gateway.Gathered, Gateway.CommitsDone, Gateway.Agreed;
  }

  lemma {:induction false} OneMoreWord(sent: seq<Sent>, next: Sent)
    requires InOrder(sent) && forall i :: 0 <= i < |sent| ==> MayFollow(sent[i], next)
    ensures InOrder(sent + [next])
  {
    hide MayFollow;
  }

  lemma {:induction false} WordKeeps(g: Gateway, staged: map<Ui, Release>, p: Past, step: Step, said: Sent)
    requires PhaseInv(g, p) && GatewayEnabled(g, step) && SaidRightly(g, p, said)
    ensures SaidRightly(GatewayAfter(g, step), PastAfter(g, staged, p, step), said)
    ensures step.StartTask? ==> MayFollow(said, Sent(g.tx, SaidPrepare))
    ensures step.Decide? ==> MayFollow(said, Sent(g.tx, if g.Agreed() then SaidCommit else SaidAbort))
  {
    hide AllWaiting, BrokenFor, Gateway.Gathered, Gateway.CommitsDone, Gateway.Agreed;
  }

  lemma {:induction false} NewWord(g: Gateway, staged: map<Ui, Release>, p: Past, step: Step)
    requires PhaseInv(g, p) && GatewayEnabled(g, step)
    ensures step.StartTask? ==> SaidRightly(GatewayAfter(g, step), PastAfter(g, staged, p, step), Sent(g.tx, SaidPrepare))
    ensures step.Decide? ==>
      SaidRightly(GatewayAfter(g, step), PastAfter(g, staged, p, step), Sent(g.tx, if g.Agreed() then SaidCommit else SaidAbort))
    ensures PastAfter(g, staged, p, step).sent ==
      if step.StartTask? then p.sent + [Sent(g.tx, SaidPrepare)]
      else if step.Decide? then p.sent + [Sent(g.tx, if g.Agreed() then SaidCommit else SaidAbort)]
      else p.sent
  {
  }

  lemma {:induction false} SentKeeps(g: Gateway, staged: map<Ui, Release>, p: Past, step: Step)
    requires PhaseInv(g, p) && SentInv(g, p) && GatewayEnabled(g, step)
    ensures SentInv(GatewayAfter(g, step), PastAfter(g, staged, p, step))
  {
    hide PhaseInv, SaidRightly, InOrder, MayFollow, GatewayAfter, PastAfter, Gateway.Agreed;
    NewWord(g, staged, p, step);
    forall i | 0 <= i < |p.sent|
      ensures SaidRightly(GatewayAfter(g, step), PastAfter(g, staged, p, step), p.sent[i])
      ensures step.StartTask? ==> MayFollow(p.sent[i], Sent(g.tx, SaidPrepare))
      ensures step.Decide? ==> MayFollow(p.sent[i], Sent(g.tx, if g.Agreed() then SaidCommit else SaidAbort))
    {
      WordKeeps(g, staged, p, step, p.sent[i]);
    }
    if step.StartTask? {
      OneMoreWord(p.sent, Sent(g.tx, SaidPrepare));
    } else if step.Decide? {
      OneMoreWord(p.sent, Sent(g.tx, if g.Agreed() then SaidCommit else SaidAbort));
    }
  }

  /** A commit is decided only on matching answers, and those are truthful. */
  lemma {:induction false} CommitKeeps(g: Gateway, staged: map<Ui, Release>, p: Past, step: Step)
    requires PhaseInv(g, p) && MemberInv(g, p) && ReplyInv(g, p) && CommitInv(p) && GatewayEnabled(g, step)
    ensures CommitInv(PastAfter(g, staged, p, step))
  {
  }

  /** Such steps answer nothing: they may only add waiting requests of the current transaction. */
  lemma {:induction false} RequestsOnMove(g: Gateway, staged: map<Ui, Release>, p: Past, step: Step)
    requires GatewayEnabled(g, step) && Moves(step)
    ensures var (h, q) := (GatewayAfter(g, step), PastAfter(g, staged, p, step));
      && q.reported == p.reported && g.tx <= h.tx
      && (h.requests == g.requests || h.requests == g.requests + AllWaiting(g.tx, Prepare, g.transaction)
          || h.requests == g.requests + AllWaiting(g.tx, Commit, g.transaction))
  {
    hide AllWaiting, Gateway.Gathered, Gateway.CommitsDone, Gateway.Agreed;
  }

  lemma {:induction false} ReplyOnMove(g: Gateway, staged: map<Ui, Release>, p: Past, step: Step)
    requires ReplyInv(g, p) && GatewayEnabled(g, step) && Moves(step)
    ensures ReplyInv(GatewayAfter(g, step), PastAfter(g, staged, p, step))
  {
    hide GatewayAfter, PastAfter, GatewayEnabled;
    RequestsOnMove(g, staged, p, step);
  }

  lemma {:induction false} SameTruth(p: Past, q: Past, id: RequestId, result: Option<(Version, CommitHash)>)
    requires p.reported <= q.reported && Truthful(p, id, result)
    ensures Truthful(q, id, result)
  {
  }

  lemma {:induction false} ReplyElsewhere(g: Gateway, staged: map<Ui, Release>, p: Past, step: Step)
    requires ReplyInv(g, p) && GatewayEnabled(g, step) && !Moves(step)
    requires step.Acknowledge? && step.ack.ok ==> Truthful(p, step.ack.id, step.ack.result)
    ensures ReplyInv(GatewayAfter(g, step), PastAfter(g, staged, p, step))
  {
    hide Truthful;
    var q := PastAfter(g, staged, p, step);
    assert p.reported <= q.reported;
    forall id, result | Truthful(p, id, result) ensures Truthful(q, id, result) {
      SameTruth(p, q, id, result);
    }
  }

  lemma {:induction false} ReplyKeeps(g: Gateway, staged: map<Ui, Release>, p: Past, step: Step)
    requires ReplyInv(g, p) && GatewayEnabled(g, step)
    requires step.Acknowledge? && step.ack.ok ==> Truthful(p, step.ack.id, step.ack.result)
    ensures ReplyInv(GatewayAfter(g, step), PastAfter(g, staged, p, step))
  {
    hide GatewayAfter, PastAfter, GatewayEnabled, ReplyInv;
    if Moves(step) {
      ReplyOnMove(g, staged, p, step);
    } else {
      ReplyElsewhere(g, staged, p, step);
    }
  }

  lemma {:induction false} ActivationKeeps(g: Gateway, staged: map<Ui, Release>, p: Past, step: Step)
    requires PhaseInv(g, p) && ActivationInv(p) && GatewayEnabled(g, step)
    requires step.UiCommits? ==> Honest(p, step.task.message)
    ensures ActivationInv(PastAfter(g, staged, p, step))
  {
  }

  lemma {:induction false} VerdictHonest(g: Gateway, staged: map<Ui, Release>, p: Past)
    requires MemberInv(g, p) && GatewayEnabled(g, Decide)
    ensures g.staged.Some?
    ensures forall conn :: Honest(PastAfter(g, staged, p, Decide), Verdict(g)(conn))
  {
  }

  lemma {:induction false} FlowKeeps(s: System, step: Step)
    requires Inv(s) && Enabled(s, step)
    ensures var s' := Next(s, step);
      WireInv(s'.wires, s'.past) && AckInv(s'.acks, s'.past) && TaskInv(s'.tasks, s'.past)
  {
    hide PhaseInv, MemberInv, CommitInv, ReplyInv, ActivationInv, SentInv, GatewayAfter, PastAfter, Broadcast, Verdict, Honest, Truthful, GatewayEnabled;
    var (g, p') := (s.gateway, PastAfter(s.gateway, s.staged, s.past, step));
    PastExtends(g, s.staged, s.past, step);
    FlowExtends(s.wires, s.acks, s.tasks, s.past, p');
    match step
    case StartTask =>
      PreparationHonest(g.tx, p');
      BroadcastKeeps(s.wires, g.Reachable(), Preparation(g.tx), p');
    case Decide =>
      VerdictHonest(g, s.staged, s.past);
      BroadcastKeeps(s.wires, g.Reachable(), Verdict(g), p');
    case UiPrepares(task, result) =>
      PrepareAckTruthful(s, step);
    case UiCommits(task, works) =>
      CommitAckTruthful(p', task.message.id);
    case _ =>
  }

  lemma {:induction false} PreparationHonest(tx: nat, p: Past)
    ensures forall conn :: Honest(p, Preparation(tx)(conn))
  {
  }

  lemma {:induction false} PrepareAckTruthful(s: System, step: Step)
    requires step.UiPrepares? && Enabled(s, step)
    ensures var ack := PrepareAck(step.task.message.id, step.result);
      ack.ok ==> Truthful(PastAfter(s.gateway, s.staged, s.past, step), ack.id, ack.result)
  {
  }

  lemma {:induction false} CommitAckTruthful(p: Past, id: RequestId)
    ensures Truthful(p, id, None)
  {
  }

  lemma {:induction false} StepKeeps(s: System, step: Step)
    requires Inv(s) && Enabled(s, step)
    ensures Inv(Next(s, step))
  {
    hide PhaseInv, MemberInv, CommitInv, ReplyInv, WireInv, ActivationInv, SentInv, GatewayAfter, PastAfter, Honest, Truthful, Broadcast, GatewayEnabled;
    var (g, t, p) := (s.gateway, s.staged, s.past);
    assert Next(s, step).gateway == GatewayAfter(g, step) && Next(s, step).past == PastAfter(g, t, p, step);
    FlowKeeps(s, step);
    hide Next;
    PhaseKeeps(g, t, p, step);
    MemberKeeps(g, t, p, step);
    CommitKeeps(g, t, p, step);
    ReplyKeeps(g, t, p, step);
    ActivationKeeps(g, t, p, step);
    SentKeeps(g, t, p, step);
  }

  ghost predicate Runs(s: System, steps: seq<Step>)
    decreases |steps|
  {
    steps == [] || (Enabled(s, steps[0]) && Runs(Next(s, steps[0]), steps[1..]))
  }

  ghost function After(s: System, steps: seq<Step>): System
    requires Runs(s, steps)
    decreases |steps|
  {
    if steps == [] then s else After(Next(s, steps[0]), steps[1..])
  }

  lemma {:induction false} RunKeeps(s: System, steps: seq<Step>)
    requires Inv(s) && Runs(s, steps)
    ensures Inv(After(s, steps))
    decreases |steps|
  {
    hide Inv, Next, Enabled;
    if steps != [] {
      StepKeeps(s, steps[0]);
      RunKeeps(Next(s, steps[0]), steps[1..]);
    }
  }

  /** `release` of transaction `tx` was reported staged by every participant selected for it. */
  ghost predicate EveryoneStaged(p: Past, tx: nat) {
    && tx in p.selected && tx in p.releases
    && forall conn :: conn in p.selected[tx] ==>
         (RequestId(tx, Prepare, conn), p.releases[tx].version, p.releases[tx].commit) in p.reported
  }

  /** Agreement, over every interleaving of updates, answers, timeouts and disconnects: a
      UI, or the Gateway itself, activates a release only after every participant selected
      for that transaction reported having staged the Gateway's version and commit, and the
      UI activates the very release it staged under the Gateway's release identifier. */
  lemma {:induction false} UpdateAgreement(steps: seq<Step>, a: Activation)
    requires Runs(Start(), steps)
    requires a in After(Start(), steps).past.activations
    ensures var p := After(Start(), steps).past;
      EveryoneStaged(p, a.tx) && p.releases[a.tx].id == a.release.id
  {
    RunKeeps(Start(), steps);
  }

  lemma {:induction false} GatewayAgreement(steps: seq<Step>, tx: nat)
    requires Runs(Start(), steps)
    requires tx in After(Start(), steps).past.gatewayActivations
    ensures EveryoneStaged(After(Start(), steps).past, tx)
  {
    RunKeeps(Start(), steps);
  }

  /** No transaction tells its participants both to commit and to abort, and transactions
      do not overlap: what one says is never followed by words of an earlier one. */
  lemma {:induction false} OneVerdict(steps: seq<Step>, i: nat, j: nat)
    requires Runs(Start(), steps)
    requires i < j < |After(Start(), steps).past.sent|
    ensures var sent := After(Start(), steps).past.sent;
      && sent[i].tx <= sent[j].tx
      && (sent[i].tx == sent[j].tx ==> sent[i].word == SaidPrepare && sent[j].word != SaidPrepare)
  {
    RunKeeps(Start(), steps);
  }

  /** While an update is open every registered participant was there when it began. */
  lemma {:induction false} MembershipClosed(steps: seq<Step>)
    requires Runs(Start(), steps)
    ensures var s := After(Start(), steps);
      s.gateway.Open() ==>
        && s.gateway.participants <= s.past.captured && s.gateway.transaction <= s.past.captured
        && forall conn, ui :: !Enabled(s, Register(conn, ui))
  {
    RunKeeps(Start(), steps);
  }

  /** An acknowledgement that is not expected changes nothing on the Gateway; an expected
      one only settles its own request; and one for an earlier transaction changes neither
      whether the current one can be decided nor how. */
  lemma {:induction false} LateAcknowledgement(g: Gateway, conn: Conn, ack: Ack)
    ensures var h := g.Acknowledged(conn, ack);
      && (!g.Expects(conn, ack.id) ==> h == g)
      && h == g.(requests := h.requests)
      && (forall id :: id in h.requests <==> id in g.requests)
      && (forall id :: id in g.requests && id != ack.id ==> h.requests[id] == g.requests[id])
      && (ack.id.tx < g.tx ==> h.Gathered() == g.Gathered() && h.CommitsDone() == g.CommitsDone()
                               && (g.staged.Some? ==> h.Agreed() == g.Agreed()))
  {
    var h := g.Acknowledged(conn, ack);
    if ack.id.tx < g.tx {
      forall kind, c ensures h.ReplyTo(kind, c) == g.ReplyTo(kind, c) {}
    }
  }

  /** A release is staged although the coroutine is at rest. */
  predicate Stuck(g: Gateway) { g.phase == Idle && g.staged.Some? }

  /** A release is staged exactly from the end of staging to the end of its transaction. */
  ghost predicate StagedInv(g: Gateway) {
    && (g.phase in {Checking, Reopening} ==> g.staged.None?)
    && (g.phase in {Staged, Preparing, Aborting, Committing, Activating, Restarting} ==> g.staged.Some?)
  }

  lemma {:induction false} StuckStep(g: Gateway, step: Step)
    requires StagedInv(g) && GatewayEnabled(g, step)
    ensures StagedInv(GatewayAfter(g, step))
    ensures Stuck(GatewayAfter(g, step)) <==> Stuck(g) || step == ActivateGateway(false)
    ensures Stuck(g) ==> !step.Begin? && GatewayAfter(g, step).staged == g.staged
  {
  }

  lemma {:induction false} StuckOverRun(s: System, steps: seq<Step>)
    requires StagedInv(s.gateway) && Runs(s, steps)
    ensures Stuck(After(s, steps).gateway) <==> Stuck(s.gateway) || ActivateGateway(false) in steps
    ensures Stuck(s.gateway) ==> Begin !in steps && After(s, steps).gateway.staged == s.gateway.staged
    decreases |steps|
  {
    hide Stuck, StagedInv, GatewayAfter, GatewayEnabled, PastAfter;
    if steps != [] {
      assert Next(s, steps[0]).gateway == GatewayAfter(s.gateway, steps[0]);
      hide Next;
      StuckStep(s.gateway, steps[0]);
      StuckOverRun(Next(s, steps[0]), steps[1..]);
      assert steps == [steps[0]] + steps[1..];
    }
  }

  /** In every reachable state a release is left staged with no update under way exactly
      when the Gateway has failed to activate one, and from then on no update ever begins and
      the release stays staged. */
  lemma {:induction false} ActivationFailureBlocksUpdates(steps: seq<Step>, later: seq<Step>)
    requires Runs(Start(), steps) && Runs(After(Start(), steps), later)
    ensures var g := After(Start(), steps).gateway;
      && (Stuck(g) <==> ActivateGateway(false) in steps)
      && (Stuck(g) ==> Begin !in later && After(After(Start(), steps), later).gateway.staged == g.staged)
  {
    hide Next, Enabled, Stuck, Runs, After;
    assert StagedInv(Start().gateway) && !Stuck(Start().gateway) by { NothingStaged(); }
    StuckOverRun(Start(), steps);
    StagedOverRun(Start(), steps);
    StuckOverRun(After(Start(), steps), later);
  }

  lemma {:induction false} NothingStaged()
    ensures StagedInv(Start().gateway) && !Stuck(Start().gateway)
  {
  }

  lemma {:induction false} StagedOverRun(s: System, steps: seq<Step>)
    requires StagedInv(s.gateway) && Runs(s, steps)
    ensures StagedInv(After(s, steps).gateway)
    decreases |steps|
  {
    hide StagedInv, GatewayAfter, GatewayEnabled, PastAfter;
    if steps != [] {
      assert Next(s, steps[0]).gateway == GatewayAfter(s.gateway, steps[0]);
      hide Next;
      StuckStep(s.gateway, steps[0]);
      StagedOverRun(Next(s, steps[0]), steps[1..]);
    }
  }

  /** A Gateway without UIs that stages a release for itself and cannot activate it. */
  function FailingAlone(release: Release): seq<Step> {
    [Begin, Stage({}, release, true), StartTask, Decide, Clear, ActivateGateway(false)]
  }

  /** So there are such runs. */
  lemma {:induction false} ActivationCanFail(release: Release)
    ensures var steps := FailingAlone(release);
      Runs(Start(), steps) && Stuck(After(Start(), steps).gateway)
  {
    var steps := FailingAlone(release);
    hide Next, Enabled, Stuck;
    AloneRuns(release);
    OwnStepsRun(Start(), steps);
    ActivationFailureBlocksUpdates(steps, []);
    assert steps[5] in steps;
  }

  lemma {:induction false} AloneRuns(release: Release)
    ensures GatewayRuns(NewGateway(), FailingAlone(release))
  {
    var steps := FailingAlone(release);
    var g1 := GatewayAfter(NewGateway(), steps[0]);
    var g2 := GatewayAfter(g1, steps[1]);
    var g3 := GatewayAfter(g2, steps[2]);
    var g4 := GatewayAfter(g3, steps[3]);
    var g5 := GatewayAfter(g4, steps[4]);
    assert GatewayEnabled(g5, steps[5]);
    hide GatewayAfter;
    assert GatewayRuns(g5, steps[5..]);
    assert GatewayRuns(g4, steps[4..]);
    assert GatewayRuns(g3, steps[3..]);
    assert GatewayRuns(g2, steps[2..]);
    assert GatewayRuns(g1, steps[1..]);
  }

  lemma {:induction false} OwnStepEnabled(s: System, step: Step)
    requires OwnStep(step) && GatewayEnabled(s.gateway, step)
    ensures Enabled(s, step) && Next(s, step).gateway == GatewayAfter(s.gateway, step)
  {
    hide GatewayEnabled, GatewayAfter, PastAfter, Broadcast, Verdict;
  }

  ghost predicate GatewayRuns(g: Gateway, steps: seq<Step>)
    decreases |steps|
  {
    steps == [] || (GatewayEnabled(g, steps[0]) && GatewayRuns(GatewayAfter(g, steps[0]), steps[1..]))
  }

  lemma {:induction false} OwnStepsRun(s: System, steps: seq<Step>)
    requires (forall step :: step in steps ==> OwnStep(step)) && GatewayRuns(s.gateway, steps)
    ensures Runs(s, steps)
    decreases |steps|
  {
    hide Next, Enabled, GatewayEnabled, GatewayAfter;
    if steps != [] {
      OwnStepEnabled(s, steps[0]);
      OwnStepsRun(Next(s, steps[0]), steps[1..]);
    }
  }
}
