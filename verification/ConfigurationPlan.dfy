/** One mutation of the managed configuration as a function of what is on disk
    (`src/tfr/gateway_configuration.py`). */
module ConfigurationPlan {
  import opened Wrappers
  import opened Sequences
  import opened Configuration

  // The functions model `_mutate`, `batch`, `undo`, `replace_document`, `remove_ui_profile` and
  // `_commit`: the planned document and audit entries, and the three writes that commit them,
  // each of which happens or raises without effect.

  datatype Request =
    | Set(address: Address, value: Value)
    | Reset(address: Address)
    | Batch(changes: seq<Change>)
    | Undo
    | Replace(document: Document, restart: Restart)
    | RemoveProfile(profile: Name)

  /** A planned revision: the proposed document and the audit entries about it. */
  datatype Plan = Plan(document: Document, mutations: seq<Mutation>)

  // ----------------------------------------------------------------- set, reset, batch

  function Requested(request: Request): seq<Change>
    requires request.Set? || request.Reset? || request.Batch?
  {
    match request
    case Set(address, value) => [Change(address, Some(value))]
    case Reset(address) => [Change(address, None)]
    case Batch(changes) => changes
  }

  function OperationOf(c: Change): Operation { if c.value.Some? then SetValue else ResetValue }

  function MutationOf(r: Registry, d: Document, c: Change, stamp: Stamp): Mutation {
    Mutation(d.revision + 1, OperationOf(c), c.address, Entry(d, c.address), c.value, stamp, r.restart(c.address.key))
  }

  /** The changes applied in order to the content of `d`. Every change must have an effect,
      and no address may be changed twice. */
  function Changed(r: Registry, d: Document, changes: seq<Change>, stamp: Stamp): (p: Result<Plan, Error>)
    ensures p.Success? ==> |p.value.mutations| == |changes|
  {
    if changes == [] then Success(Plan(d, []))
    else
      var init := changes[..|changes| - 1];
      var c := changes[|changes| - 1];
      var p := Changed(r, d, init, stamp);
      if p.Failure? then p
      else if exists e :: e in init && e.address == c.address then Failure(DuplicateChange)
      else if Placing(r, c.address).Some? then Failure(Placing(r, c.address).value)
      else if Entry(d, c.address) == c.value then Failure(NoEffect)
      else Success(Plan(Put(p.value.document, c.address, c.value), p.value.mutations + [MutationOf(r, d, c, stamp)]))
  }

  // ------------------------------------------------------------------------------ undo

  /** The entries about one revision. */
  function Latest(history: seq<Mutation>, revision: int): seq<Mutation> {
    Filter(history, (m: Mutation) => m.revision == revision)
  }

  /** Put back what the entries say was there before, newest entry first. */
  function Reverted(r: Registry, d: Document, entries: seq<Mutation>): Result<Document, Error>
    decreases |entries|
  {
    if entries == [] then Success(d)
    else
      var m := entries[|entries| - 1];
      if Placing(r, m.address).Some? then Failure(Placing(r, m.address).value)
      else Reverted(r, Put(d, m.address, m.previous), entries[..|entries| - 1])
  }

  function Restarts(entries: seq<Mutation>): seq<Restart> { seq(|entries|, i requires 0 <= i < |entries| => entries[i].restart) }

  /** The single audit entry of an undo. An undo of several changes only says how many. */
  function UndoEntry(r: Registry, d: Document, entries: seq<Mutation>, stamp: Stamp): Mutation
    requires entries != []
  {
    if |entries| > 1 then
      Mutation(d.revision + 1, UndoChange, Address(Shared, None, r.batchKey), Some(RevisionNote(d.revision)),
               Some(BatchNote(d.revision + 1, |entries|)), stamp, MaximumRestart(Restarts(entries)))
    else
      var m := entries[0];
      Mutation(d.revision + 1, UndoChange, m.address, Entry(d, m.address), m.previous, stamp, m.restart)
  }

  function Undone(r: Registry, d: Document, history: seq<Mutation>, stamp: Stamp): Result<Plan, Error> {
    var entries := Latest(history, d.revision);
    if entries == [] then Failure(NothingToUndo)
    else if entries[|entries| - 1].address.key == r.documentKey then Failure(WholeDocument)
    else
      var reverted := Reverted(r, d, entries);
      if reverted.Failure? then Failure(reverted.error)
      else Success(Plan(reverted.value, [UndoEntry(r, d, entries, stamp)]))
  }

  // ------------------------------------------------------------- whole-document changes

  function Replaced(r: Registry, d: Document, replacement: Document, restart: Restart, stamp: Stamp): Plan {
    Plan(replacement, [Mutation(d.revision + 1, ReplaceDocument, Address(Shared, None, r.documentKey),
                                Some(RevisionNote(d.revision)), Some(RevisionNote(d.revision + 1)), stamp, restart)])
  }

  function Removed(r: Registry, d: Document, profile: Name, restart: Restart, stamp: Stamp): Result<Plan, Error> {
    if profile !in d.uis then Failure(ProfileMissing)
    else Success(Plan(d.(uis := d.uis - {profile}),
                      [Mutation(d.revision + 1, Operation.RemoveProfile, Address(Ui, Some(profile), r.documentKey),
                                Some(SettingsNote(|d.uis[profile]|)), None, stamp, restart)]))
  }

  // ------------------------------------------------------------------------- the whole

  /** The checks made before the directory is locked. */
  function Refusal(r: Registry, request: Request): Option<Error> {
    match request
    case Set(_, _) => FirstError(r, Requested(request))
    case Reset(_) => FirstError(r, Requested(request))
    case Batch(changes) =>
      if 1 <= |changes| <= MAX_BATCH_CHANGES then FirstError(r, changes) else Some(BatchSize)
    case Undo => None
    case Replace(_, _) => None
    case RemoveProfile(profile) => if profile == r.blank then Some(ProfileInvalid) else None
  }

  /** The restart that removing a section calls for, over its settings in any order. */
  function RemovalRestart(r: Registry, section: Section): Restart {
    if exists k :: k in section && r.setting(k).Some? && r.restart(k) == GatewayRestart then GatewayRestart
    else if exists k :: k in section && r.setting(k).Some? && r.restart(k) == ClientRestart then ClientRestart
    else if exists k :: k in section && r.setting(k).Some? && r.restart(k) == ClientReload then ClientReload
    else Live
  }

  function Planned(r: Registry, d: Document, history: seq<Mutation>, request: Request, stamp: Stamp): Result<Plan, Error> {
    match request
    case Undo => Undone(r, d, history, stamp)
    case Replace(document, restart) => Success(Replaced(r, d, document, restart, stamp))
    case RemoveProfile(profile) =>
      Removed(r, d, profile, if profile in d.uis then RemovalRestart(r, d.uis[profile]) else Live, stamp)
    case _ => Changed(r, d, Requested(request), stamp)
  }

  /** The proposal carries the next revision and must validate as a whole. */
  function Proposed(r: Registry, d: Document, history: seq<Mutation>, request: Request, stamp: Stamp): Result<Plan, Error> {
    var p := Planned(r, d, history, request, stamp);
    if p.Failure? then p
    else
      var next := p.value.document.(revision := d.revision + 1);
      if DocumentValid(r, next) then Success(Plan(next, p.value.mutations)) else Failure(InvalidDocument)
  }

  // ------------------------------------------------------------------------- the audit

  function Bytes(r: Registry, lines: seq<Mutation>): nat {
    if lines == [] then 0 else Bytes(r, lines[..|lines| - 1]) + r.lineSize(lines[|lines| - 1]) + 1
  }

  /** The older lines that fit beside `count` lines of `total` bytes, newest first. */
  function OlderKept(r: Registry, older: seq<Mutation>, count: nat, total: nat): (kept: seq<Mutation>)
    ensures |kept| <= |older|
  {
    if older == [] || count >= MAX_AUDIT_ENTRIES || total + r.lineSize(older[|older| - 1]) + 1 > MAX_CONFIGURATION_BYTES then []
    else
      var line := older[|older| - 1];
      OlderKept(r, older[..|older| - 1], count + 1, total + r.lineSize(line) + 1) + [line]
  }

  function Appended(r: Registry, audit: seq<Mutation>, newest: seq<Mutation>): Result<seq<Mutation>, Error> {
    if Bytes(r, newest) > MAX_CONFIGURATION_BYTES then Failure(AuditTooLarge)
    else Success(OlderKept(r, audit, |newest|, Bytes(r, newest)) + newest)
  }

  lemma {:induction false} BytesSplit(r: Registry, a: seq<Mutation>, b: seq<Mutation>)
    ensures Bytes(r, a + b) == Bytes(r, a) + Bytes(r, b)
  {
    if b == [] {
      assert a + b == a;
    } else {
      BytesSplit(r, a, b[..|b| - 1]);
      assert (a + b)[..|a + b| - 1] == a + b[..|b| - 1];
    }
  }

  /** The longest suffix of the older lines that fits both limits. */
  ghost predicate LongestKept(r: Registry, older: seq<Mutation>, count: nat, total: nat, kept: seq<Mutation>) {
    && kept == LastN(older, |kept|)
    && count + |kept| <= MAX_AUDIT_ENTRIES && total + Bytes(r, kept) <= MAX_CONFIGURATION_BYTES
    && forall n :: |kept| < n <= |older| ==> !LineFits(r, older, count, total, n)
  }

  /** The newest `n` lines fit beside the others. */
  ghost predicate LineFits(r: Registry, older: seq<Mutation>, count: nat, total: nat, n: nat) {
    count + n <= MAX_AUDIT_ENTRIES && total + Bytes(r, LastN(older, n)) <= MAX_CONFIGURATION_BYTES
  }

  lemma {:induction false} LineFitsSnoc(r: Registry, init: seq<Mutation>, line: Mutation, count: nat, total: nat, n: nat)
    requires 0 < n
    ensures LineFits(r, init + [line], count, total, n) <==> LineFits(r, init, count + 1, total + r.lineSize(line) + 1, n - 1)
  {
    LastNSnoc(init, line, n);
    BytesSnoc(r, LastN(init, n - 1), line);
  }

  lemma {:induction false} LongestSnoc(r: Registry, init: seq<Mutation>, line: Mutation, count: nat, total: nat, kept: seq<Mutation>)
    requires LongestKept(r, init, count + 1, total + r.lineSize(line) + 1, kept)
    ensures LongestKept(r, init + [line], count, total, kept + [line])
  {
    hide LineFits, Bytes, LastN;
    LastNSnoc(init, line, |kept| + 1);
    BytesSnoc(r, kept, line);
    forall n | |kept| + 1 < n <= |init| + 1 ensures !LineFits(r, init + [line], count, total, n) {
      LineFitsSnoc(r, init, line, count, total, n);
    }
  }

  lemma {:induction false} LongestNone(r: Registry, init: seq<Mutation>, line: Mutation, count: nat, total: nat)
    requires count <= MAX_AUDIT_ENTRIES && total <= MAX_CONFIGURATION_BYTES
    requires count >= MAX_AUDIT_ENTRIES || total + r.lineSize(line) + 1 > MAX_CONFIGURATION_BYTES
    ensures LongestKept(r, init + [line], count, total, [])
  {
    var older := init + [line];
    assert LastN(older, 0) == [];
    forall n | 0 < n <= |older| ensures !LineFits(r, older, count, total, n) {
      LineFitsSnoc(r, init, line, count, total, n);
    }
  }

  lemma {:induction false} LongestOfNothing(r: Registry, count: nat, total: nat)
    requires count <= MAX_AUDIT_ENTRIES && total <= MAX_CONFIGURATION_BYTES
    ensures OlderKept(r, [], count, total) == [] && LongestKept(r, [], count, total, [])
  {
  }

  /** The kept lines are the longest suffix of the older ones that fits both limits. */
  lemma {:induction false} OlderKeptIsLongest(r: Registry, older: seq<Mutation>, count: nat, total: nat)
    requires count <= MAX_AUDIT_ENTRIES && total <= MAX_CONFIGURATION_BYTES
    ensures LongestKept(r, older, count, total, OlderKept(r, older, count, total))
  {
    hide LongestKept, OlderKept;
    if older == [] {
      LongestOfNothing(r, count, total);
    } else {
      var init, line := older[..|older| - 1], older[|older| - 1];
      assert older == init + [line];
      OlderKeptSnoc(r, init, line, count, total);
      var more := total + r.lineSize(line) + 1;
      if count >= MAX_AUDIT_ENTRIES || more > MAX_CONFIGURATION_BYTES {
        LongestNone(r, init, line, count, total);
      } else {
        OlderKeptIsLongest(r, init, count + 1, more);
        LongestSnoc(r, init, line, count, total, OlderKept(r, init, count + 1, more));
      }
    }
  }

  lemma {:induction false} BytesSnoc(r: Registry, lines: seq<Mutation>, line: Mutation)
    ensures Bytes(r, lines + [line]) == Bytes(r, lines) + r.lineSize(line) + 1
  {
    assert (lines + [line])[..|lines|] == lines;
  }

  lemma {:induction false} OlderKeptSnoc(r: Registry, init: seq<Mutation>, line: Mutation, count: nat, total: nat)
    ensures var more := total + r.lineSize(line) + 1;
      OlderKept(r, init + [line], count, total) ==
        if count >= MAX_AUDIT_ENTRIES || more > MAX_CONFIGURATION_BYTES then [] else OlderKept(r, init, count + 1, more) + [line]
  {
    assert (init + [line])[..|init|] == init;
  }

  // -------------------------------------------------------------------- the three writes

  /** What the state directory holds. A missing file is an empty document or audit. */
  datatype Disk = Disk(previous: Option<Document>, document: Document, audit: seq<Mutation>)

  /** Which of the commit's writes raise. */
  datatype Faults = Faults(previous: bool, document: bool, audit: bool, restore: bool)

  function Committed(r: Registry, disk: Disk, plan: Plan, faults: Faults): (Disk, Result<seq<Mutation>, Error>) {
    if faults.previous then (disk, Failure(WriteFailed))
    else
      var saved := disk.(previous := Some(disk.document));
      if faults.document then (saved, Failure(WriteFailed))
      else
        var written := saved.(document := plan.document);
        var appended := Appended(r, disk.audit, plan.mutations);
        if appended.Failure? || faults.audit then
          (if faults.restore then written else saved, if appended.Failure? then Failure(appended.error) else Failure(WriteFailed))
        else (written.(audit := appended.value), Success(plan.mutations))
  }

  function History(disk: Disk): seq<Mutation> { LastN(disk.audit, MAX_AUDIT_ENTRIES) }

  /** One request against the state directory. */
  function Transact(r: Registry, disk: Disk, expected: int, request: Request, stamp: Stamp, faults: Faults)
    : (Disk, Result<seq<Mutation>, Error>)
  {
    var refusal := Refusal(r, request);
    if refusal.Some? then (disk, Failure(refusal.value))
    else if expected != disk.document.revision then (disk, Failure(RevisionConflict))
    else
      var plan := Proposed(r, disk.document, History(disk), request, stamp);
      if plan.Failure? then (disk, Failure(plan.error)) else Committed(r, disk, plan.value, faults)
  }
}
