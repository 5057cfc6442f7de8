/** The objects behind the coordinated update: the Gateway's coordinator, whose fields its
    coroutine and its connections update in turn, and the UI runtime that stages, activates
    and drops a release (`GatewayServer` in `src/tfr/gateway.py`, `GatewayUiRuntime` in
    `src/tfr/gateway_client.py`). */
module UpdateCoordinator {
  import opened Wrappers
  import opened CoordinatedUpdate

  /** What is known or answered while staging. The release check may fail; a plugin check is
      only made where the core needs no update, and may fail too (`None`). */
  datatype Survey = Survey(
    reportsBuild: Conn -> bool, checked: bool, coreUpdate: Conn -> bool, checksUpdates: Conn -> bool,
    pluginUpdate: Conn -> Option<bool>, managed: Conn -> bool, gatewayCore: bool, gatewayPlugin: Option<bool>,
    release: Option<Release>, supported: Conn -> bool)

  datatype StageError =
    | Unavailable | NotCandidate | NoBuild | CheckFailed | NoUpdateChecks | PluginCheckFailed | Unmanaged | StagingFailed
    | Incompatible | AlreadyInProgress

  /** Why the captured participants cannot take part, if they cannot. */
  function StageProblem(captured: set<Conn>, y: Survey): Option<StageError> {
    if exists c :: c in captured && !y.reportsBuild(c) then Some(NoBuild)
    else if !y.checked then Some(CheckFailed)
    else if exists c :: c in captured && !y.coreUpdate(c) && !y.checksUpdates(c) then Some(NoUpdateChecks)
    else if (exists c :: c in captured && !y.coreUpdate(c) && y.pluginUpdate(c).None?) || (!y.gatewayCore && y.gatewayPlugin.None?)
      then Some(PluginCheckFailed)
    else if exists c :: c in captured && (y.coreUpdate(c) || y.pluginUpdate(c) == Some(true)) && !y.managed(c) then Some(Unmanaged)
    else if !y.gatewayCore && y.gatewayPlugin != Some(true)
            && (forall c :: c in captured ==> !y.coreUpdate(c) && y.pluginUpdate(c) != Some(true)) then None
    else if y.release.None? then Some(StagingFailed)
    else if exists c :: c in captured && (y.coreUpdate(c) || y.pluginUpdate(c) == Some(true)) && !y.supported(c) then Some(Incompatible)
    else None
  }

  /** Each refusal has its reason, and whoever is asked for or needs an update can give it. */
  lemma {:induction false} RefusalsHaveReasons(captured: set<Conn>, y: Survey)
    ensures StageProblem(captured, y) == Some(NoBuild) <==> exists c :: c in captured && !y.reportsBuild(c)
    ensures StageProblem(captured, y) == Some(CheckFailed) ==> !y.checked
    ensures StageProblem(captured, y) == Some(NoUpdateChecks) ==> exists c :: c in captured && !y.coreUpdate(c) && !y.checksUpdates(c)
    ensures StageProblem(captured, y) == Some(PluginCheckFailed) ==>
      (!y.gatewayCore && y.gatewayPlugin.None?) || exists c :: c in captured && !y.coreUpdate(c) && y.pluginUpdate(c).None?
    ensures StageProblem(captured, y) == Some(Unmanaged) ==>
      exists c :: c in captured && (y.coreUpdate(c) || y.pluginUpdate(c) == Some(true)) && !y.managed(c)
    ensures StageProblem(captured, y) == Some(StagingFailed) ==> y.release.None?
    ensures StageProblem(captured, y) == Some(Incompatible) ==>
      exists c :: c in captured && (y.coreUpdate(c) || y.pluginUpdate(c) == Some(true)) && !y.supported(c)
    ensures StageProblem(captured, y) !in {Some(Unavailable), Some(NotCandidate), Some(AlreadyInProgress)}
    ensures StageProblem(captured, y) in {Some(StagingFailed), Some(Incompatible)} ==>
      y.gatewayCore || y.gatewayPlugin == Some(true) || exists c :: c in captured && (y.coreUpdate(c) || y.pluginUpdate(c) == Some(true))
    ensures StageProblem(captured, y).None? ==>
      y.checked && forall c :: c in captured ==>
        && y.reportsBuild(c) && (y.coreUpdate(c) || (y.checksUpdates(c) && y.pluginUpdate(c).Some?))
        && (y.coreUpdate(c) || y.pluginUpdate(c) == Some(true) ==> y.managed(c) && y.supported(c))
    ensures StageProblem(captured, y).None? && y.release.None? ==>
      !y.gatewayCore && y.gatewayPlugin != Some(true) && forall c :: c in captured ==> !y.coreUpdate(c) && y.pluginUpdate(c) != Some(true)
  {
  }

  lemma {:induction false} NobodySelected(captured: set<Conn>, selected: set<Conn>, y: Survey)
    requires selected == set c | c in captured && (y.coreUpdate(c) || y.pluginUpdate(c) == Some(true))
    ensures selected == {} <==> forall c :: c in captured ==> !y.coreUpdate(c) && y.pluginUpdate(c) != Some(true)
  {
    if selected == {} {
      assert forall c :: c in captured && (y.coreUpdate(c) || y.pluginUpdate(c) == Some(true)) ==> c in selected;
    }
  }

  /** Exactly these participants are written to, each its own message. */
  ghost predicate Tells(written: map<Conn, Message>, to: set<Conn>, message: Conn -> Message) {
    written.Keys == to && forall conn :: conn in to ==> written[conn] == message(conn)
  }

  ghost predicate Writes(written: map<Conn, Message>, to: set<Conn>, tx: nat, kind: Kind, message: RequestId -> Message) {
    written.Keys == to && forall conn :: conn in to ==> written[conn] == message(RequestId(tx, kind, conn))
  }

  /** One waiting request and one message per participant. */
  method Open(tx: nat, kind: Kind, to: set<Conn>, message: RequestId -> Message)
    returns (made: map<RequestId, Reply>, written: map<Conn, Message>)
    ensures made == AllWaiting(tx, kind, to) && Writes(written, to, tx, kind, message)
  {
    hide AllWaiting, Writes;
    made, written := map[], map[];
    NoneWritten(tx, kind, message);
    var left := to;
    ghost var done: set<Conn> := {};
    NoneWaiting(tx, kind);
    while left != {}
      invariant done + left == to
      invariant made == AllWaiting(tx, kind, done) && Writes(written, done, tx, kind, message)
      decreases |left|
    {
      var conn :| conn in left;
      var id := RequestId(tx, kind, conn);
      OneMoreWaiting(tx, kind, done, conn);
      OneMoreWritten(written, done, tx, kind, message, conn);
      left, done := left - {conn}, done + {conn};
      made := made[id := Waiting];
      written := written[conn := message(id)];
    }
    assert done == to;
  }

  lemma {:induction false} NoneWritten(tx: nat, kind: Kind, message: RequestId -> Message)
    ensures Writes(map[], {}, tx, kind, message)
  {
  }

  lemma {:induction false} OneMoreWritten(written: map<Conn, Message>, done: set<Conn>, tx: nat, kind: Kind,
                                          message: RequestId -> Message, conn: Conn)
    requires Writes(written, done, tx, kind, message)
    ensures Writes(written[conn := message(RequestId(tx, kind, conn))], done + {conn}, tx, kind, message)
  {
  }

  /** Every waiting request of a lost connection fails. */
  method BreakWaiting(requests: map<RequestId, Reply>, conn: Conn) returns (r: map<RequestId, Reply>)
    ensures r == BrokenFor(requests, conn)
  {
    r := requests;
    var left := requests.Keys;
    while left != {}
      invariant left <= requests.Keys && r.Keys == requests.Keys
      invariant forall id :: id in left ==> r[id] == requests[id]
      invariant forall id :: id in requests && id !in left ==> r[id] == BrokenFor(requests, conn)[id]
      decreases |left|
    {
      var id :| id in left;
      left := left - {id};
      if id.conn == conn && requests[id].Waiting? {
        r := r[id := Broken];
      }
    }
  }

  /** The first problem with the captured participants, in the order of the checks; `selected`
      are those that need an update. */
  method FindProblem(captured: set<Conn>, selected: set<Conn>, y: Survey) returns (error: Option<StageError>)
    requires selected == set c | c in captured && (y.coreUpdate(c) || y.pluginUpdate(c) == Some(true))
    ensures error == StageProblem(captured, y)
  {
    if exists c :: c in captured && !y.reportsBuild(c) {
      return Some(NoBuild);
    }
    if !y.checked {
      return Some(CheckFailed);
    }
    if exists c :: c in captured && !y.coreUpdate(c) && !y.checksUpdates(c) {
      return Some(NoUpdateChecks);
    }
    if (exists c :: c in captured && !y.coreUpdate(c) && y.pluginUpdate(c).None?) || (!y.gatewayCore && y.gatewayPlugin.None?) {
      return Some(PluginCheckFailed);
    }
    if exists c :: c in selected && !y.managed(c) {
      return Some(Unmanaged);
    }
    if !y.gatewayCore && y.gatewayPlugin != Some(true) && selected == {} {
      assert forall c :: c in captured && (y.coreUpdate(c) || y.pluginUpdate(c) == Some(true)) ==> c in selected;
      return None;
    }
    if y.release.None? {
      return Some(StagingFailed);
    }
    return if exists c :: c in selected && !(y.reportsBuild(c) && y.supported(c)) then Some(Incompatible) else None;
  }

  class Coordinator {
    var accepting: bool
    var participants: set<Conn>
    var transaction: set<Conn>
    var staged: Option<Release>
    var restart: bool
    var phase: Phase
    var tx: nat
    var requests: map<RequestId, Reply>

    ghost function State(): Gateway
      reads this
    {
      Gateway(accepting, participants, transaction, staged, restart, phase, tx, requests)
    }

    constructor ()
      ensures State() == NewGateway()
    {
      accepting, participants, transaction, staged := true, {}, {}, None;
      restart, phase, tx, requests := false, Idle, 0, map[];
    }

    /** The end of a handshake. */
    method Register(conn: Conn) returns (ok: bool)
      modifies this
      ensures ok == old(accepting)
      ensures participants == if ok then old(participants) + {conn} else old(participants)
      ensures State() == if ok then old(State()).Registered(conn) else old(State())
    {
      if !accepting {
        return false;
      }
      participants := participants + {conn};
      return true;
    }

    /** The end of a connection. */
    method Unregister(conn: Conn)
      modifies this
      ensures participants == old(participants) - {conn} && requests.Keys == old(requests).Keys
      ensures forall id :: id in requests ==>
        requests[id] == if id.conn == conn && old(requests)[id].Waiting? then Broken else old(requests)[id]
      ensures State() == old(State()).Unregistered(conn)
    {
      participants := participants - {conn};
      requests := BreakWaiting(requests, conn);
    }

    /** The first part of `_stage_gateway_update`: close membership and capture it. `checker`
        tells whether updates can be checked at all, `candidate` whether that is on the
        candidate channel, the only one for forced updates. */
    method BeginStaging(checker: bool, forced: bool, candidate: bool) returns (error: Option<StageError>)
      modifies this
      ensures error ==
        if old(staged).Some? || old(phase) != Idle then Some(AlreadyInProgress)
        else if !checker then Some(Unavailable)
        else if forced && !candidate then Some(NotCandidate)
        else None
      ensures error.None? ==>
        !accepting && transaction == old(participants) == participants && phase == Checking && tx == old(tx) + 1 && !restart
      ensures State() ==
        if error.None? then old(State()).Begun()
        else if old(State()).Busy() then old(State())
        else old(State()).(restart := false)
    {
      if staged.Some? || phase != Idle {
        return Some(AlreadyInProgress);
      }
      restart := false;
      if !checker {
        return Some(Unavailable);
      }
      if forced && !candidate {
        return Some(NotCandidate);
      }
      accepting, transaction, phase, tx := false, participants, Checking, tx + 1;
      return None;
    }

    /** The rest of it: choose who is updated and stage the release, or reopen membership. A UI
        is updated exactly when its core or its plugins need it, and so is the Gateway. */
    method FinishStaging(y: Survey) returns (r: Result<Option<Release>, StageError>)
      requires phase == Checking
      modifies this
      ensures (if r.Failure? then Some(r.error) else None) == StageProblem(old(transaction), y)
      ensures r.Success? ==> (
        r.value.None? <==>
          && !y.gatewayCore && y.gatewayPlugin != Some(true)
          && forall c :: c in old(transaction) ==> !y.coreUpdate(c) && y.pluginUpdate(c) != Some(true))
      ensures r.Success? && r.value.Some? ==>
        && y.release.Some? && r.value == y.release && staged == y.release && phase == Staged
        && transaction == (set c | c in old(transaction) && (y.coreUpdate(c) || y.pluginUpdate(c) == Some(true)))
        && (forall c :: c in transaction ==> y.reportsBuild(c) && y.managed(c) && y.supported(c))
        && restart == (y.gatewayCore || y.gatewayPlugin == Some(true))
        && State() == old(State()).StagedWith(transaction, y.release.value, restart)
      ensures r.Failure? || r.value.None? ==>
        accepting && transaction == {} && phase == Idle && State() == old(State()).Reopened()
    {
      var selected := set c | c in transaction && (y.coreUpdate(c) || y.pluginUpdate(c) == Some(true));
      var updateGateway := y.gatewayCore || y.gatewayPlugin == Some(true);
      var error := FindProblem(transaction, selected, y);
      NobodySelected(transaction, selected, y);
      RefusalsHaveReasons(transaction, y);
      hide StageProblem;
      if error.Some? || (!updateGateway && selected == {}) {
        accepting, transaction, phase := true, {}, Idle;
        return if error.Some? then Failure(error.value) else Success(None);
      }
      staged, transaction, restart, phase := y.release, selected, updateGateway, Staged;
      return Success(staged);
    }

    /** A request to every selected participant, and what is written to each. */
    method Request(kind: Kind, message: RequestId -> Message) returns (written: map<Conn, Message>)
      modifies this`requests
      ensures State() == old(State()).Requesting(kind)
      ensures Writes(written, transaction, tx, kind, message)
      ensures forall c :: c in transaction ==> RequestId(tx, kind, c) in requests && requests[RequestId(tx, kind, c)] == Waiting
    {
      var made;
      made, written := Open(tx, kind, transaction, message);
      AllAreWaiting(tx, kind, transaction);
      hide AllWaiting, Writes;
      requests := requests + made;
    }

    /** `_coordinate_update` asks everyone to prepare. */
    method StartPreparing() returns (written: map<Conn, Message>)
      requires phase == Staged
      modifies this
      ensures State() == old(State()).Started()
      ensures written.Keys == transaction == old(transaction) && phase == Preparing
      ensures forall c :: c in transaction ==>
        && written[c] == PrepareMessage(RequestId(tx, Prepare, c))
        && RequestId(tx, Prepare, c) in requests && requests[RequestId(tx, Prepare, c)] == Waiting
      ensures Tells(written, transaction, Preparation(tx))
    {
      hide AllWaiting;
      written := Request(Prepare, (id: RequestId) => PrepareMessage(id));
      phase := Preparing;
    }

    /** The decision, once an answer failed or all have come. */
    method Decide() returns (written: map<Conn, Message>)
      requires phase == Preparing && State().Gathered() && staged.Some?
      modifies this
      ensures State() == old(State()).Decided()
      ensures Tells(written, transaction, Verdict(old(State())))
      ensures phase == Committing || phase == Aborting
      ensures phase == Committing <==> forall c :: c in transaction ==>
        var id := RequestId(tx, Prepare, c);
        id in old(requests) && old(requests)[id] == Answered(Some((old(staged).value.version, old(staged).value.commit)))
      ensures written.Keys == transaction == old(transaction)
      ensures forall c :: c in transaction ==>
        if phase == Committing then
          && written[c] == CommitMessage(RequestId(tx, Commit, c), old(staged).value.id)
          && RequestId(tx, Commit, c) in requests && requests[RequestId(tx, Commit, c)] == Waiting
        else written[c] == AbortMessage(tx)
    {
      hide AllWaiting;
      var release := staged.value;
      var agreed := AllMatch(release);
      AgreementIsMatching(State());
      hide Gateway.Agreed;
      if agreed {
        written := Request(Commit, (id: RequestId) => CommitMessage(id, release.id));
        phase := Committing;
      } else {
        written := map conn | conn in transaction :: AbortMessage(tx);
        phase := Aborting;
      }
    }

    method AllMatch(release: Release) returns (agreed: bool)
      ensures agreed <==> forall c :: c in transaction ==>
        State().ReplyTo(Prepare, c) == Answered(Some((release.version, release.commit)))
    {
      agreed := true;
      var left := transaction;
      ghost var done: set<Conn> := {};
      while left != {}
        invariant done + left == transaction
        invariant agreed <==> forall c :: c in done ==>
          State().ReplyTo(Prepare, c) == Answered(Some((release.version, release.commit)))
        decreases |left|
      {
        var conn :| conn in left;
        left, done := left - {conn}, done + {conn};
        var id := RequestId(tx, Prepare, conn);
        if id !in requests || requests[id] != Answered(Some((release.version, release.commit))) {
          agreed := false;
        }
      }
      assert done == transaction;
    }

    /** The end of an abort, or of a commit whose answers have all come or failed. */
    method Clear()
      requires phase == Aborting || phase == Committing
      modifies this
      ensures State() == old(State()).Cleared()
      ensures if old(phase) == Committing && old(restart) then phase == Activating && staged == old(staged)
              else phase == Reopening && staged.None? && !restart
    {
      if phase == Committing && restart {
        phase := Activating;
      } else {
        staged, restart, phase := None, false, Reopening;
      }
    }

    method Reopen()
      requires phase == Reopening
      modifies this
      ensures accepting && transaction == {} && phase == Idle
      ensures State() == old(State()).Reopened()
    {
      accepting, transaction, phase := true, {}, Idle;
    }

    method ActivateGateway(ok: bool)
      requires phase == Activating
      modifies this
      ensures State() == old(State()).Activated(ok) && staged == old(staged)
      ensures if ok then phase == Restarting else phase == Idle && accepting && transaction == {}
    {
      if ok {
        phase := Restarting;
      } else {
        accepting, transaction, phase := true, {}, Idle;
      }
    }

    /** `_handle_update_ack`. */
    method HandleAck(conn: Conn, ack: Ack)
      modifies this`requests
      ensures State() == old(State()).Acknowledged(conn, ack)
      ensures requests ==
        if conn in participants && ack.id.conn == conn && ack.id in old(requests) && old(requests)[ack.id].Waiting?
        then old(requests)[ack.id := if ack.ok then Answered(ack.result) else Broken] else old(requests)
    {
      if conn !in participants || ack.id.conn != conn || ack.id !in requests || !requests[ack.id].Waiting? {
        return;
      }
      requests := requests[ack.id := if ack.ok then Answered(ack.result) else Broken];
    }

    method Expire(id: RequestId)
      modifies this`requests
      ensures State() == old(State()).Expired(id)
      ensures requests == if id in old(requests) && old(requests)[id].Waiting? then old(requests)[id := Broken] else old(requests)
    {
      if id in requests && requests[id].Waiting? {
        requests := requests[id := Broken];
      }
    }
  }

  lemma {:induction false} AllAreWaiting(tx: nat, kind: Kind, to: set<Conn>)
    ensures forall c :: c in to ==> RequestId(tx, kind, c) in AllWaiting(tx, kind, to) && AllWaiting(tx, kind, to)[RequestId(tx, kind, c)] == Waiting
  {
    assert forall c :: c in to ==> RequestId(tx, kind, c) in Requests(tx, kind, to);
  }

  lemma {:induction false} NoneWaiting(tx: nat, kind: Kind)
    ensures AllWaiting(tx, kind, {}) == map[]
  {
  }

  /** At the decision, agreement is that every selected participant answered with the staged
      version and commit: no failure, no silence, no other release. */
  lemma {:induction false} AgreementIsMatching(g: Gateway)
    requires g.staged.Some? && g.Gathered()
    ensures g.Agreed() <==>
      forall c :: c in g.transaction ==>
        g.ReplyTo(Prepare, c) == Answered(Some((g.staged.value.version, g.staged.value.commit)))
  {
  }

  /** The UI's part of an update. */
  class UiRuntime {
    var staged: Option<Release>
    var transactionActive: bool
    var restartExpected: bool

    constructor ()
      ensures staged.None? && !transactionActive && !restartExpected
    {
      staged, transactionActive, restartExpected := None, false, false;
    }

    /** `_prepare_update` and its acknowledgement: `result` is what staging on this host gives. */
    method PrepareUpdate(id: RequestId, result: Option<Release>) returns (ack: Ack)
      modifies this
      ensures ack == PrepareAck(id, result) && transactionActive
      ensures ack == if result.None? then Ack(id, false, None) else Ack(id, true, Some((result.value.version, result.value.commit)))
      ensures staged == if result.Some? then result else old(staged)
      ensures restartExpected == old(restartExpected)
    {
      transactionActive := true;
      if result.None? {
        return Ack(id, false, None);
      }
      staged := result;
      return Ack(id, true, Some((result.value.version, result.value.commit)));
    }

    /** `_commit_update` and its acknowledgement: `works` tells whether activation succeeds. */
    method CommitUpdate(id: RequestId, release: ReleaseId, works: bool) returns (ack: Ack, activated: Option<Release>)
      modifies this
      ensures ack == Ack(id, works && MayActivate(old(staged), release), None)
      ensures ack.ok <==> works && old(staged).Some? && old(staged).value.id == release
      ensures activated == if ack.ok then old(staged) else None
      ensures staged == old(staged) && transactionActive == old(transactionActive)
      ensures restartExpected == (old(restartExpected) || ack.ok)
    {
      if staged.None? || staged.value.id != release || !works {
        return Ack(id, false, None), None;
      }
      restartExpected := true;
      return Ack(id, true, None), staged;
    }

    /** `_abort_update`. */
    method AbortUpdate()
      modifies this
      ensures staged.None? && !transactionActive && restartExpected == old(restartExpected)
    {
      transactionActive, staged := false, None;
    }
  }
}
