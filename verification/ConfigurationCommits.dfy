/** Exactly when a request commits, and what it then writes (`src/tfr/gateway_configuration.py`). */
module ConfigurationCommits {
  import opened Wrappers
  import opened Sequences
  import opened Configuration
  import opened ConfigurationPlan
  import opened ConfigurationRuns

  // ----------------------------------------------------------- what a document's fields hold

  /** Where each scope is stored: three of them in one section, which takes no target. */
  lemma {:induction false} SingleEntries(d: Document, k: Key, t: Name)
    ensures Entry(d, Address(Shared, None, k)) == if k in d.shared then Some(d.shared[k]) else None
    ensures Entry(d, Address(Gateway, None, k)) == if k in d.gateway then Some(d.gateway[k]) else None
    ensures Entry(d, Address(Secret, None, k)) == if k in d.secretReferences then Some(d.secretReferences[k]) else None
    ensures Entry(d, Address(Shared, Some(t), k)).None? && Entry(d, Address(Gateway, Some(t), k)).None?
    ensures Entry(d, Address(Secret, Some(t), k)).None?
  {
  }

  /** The others in a section for each target. */
  lemma {:induction false} TargetedEntries(d: Document, k: Key, t: Name)
    ensures Entry(d, Address(UiType, Some(t), k)) == if t in d.uiTypes && k in d.uiTypes[t] then Some(d.uiTypes[t][k]) else None
    ensures Entry(d, Address(Ui, Some(t), k)) == if t in d.uis && k in d.uis[t] then Some(d.uis[t][k]) else None
    ensures Entry(d, Address(World, Some(t), k)) == if t in d.worlds && k in d.worlds[t] then Some(d.worlds[t][k]) else None
    ensures Entry(d, Address(Plugin, Some(t), k)) == if t in d.plugins && k in d.plugins[t] then Some(d.plugins[t][k]) else None
    ensures Entry(d, Address(UiType, None, k)).None? && Entry(d, Address(Ui, None, k)).None?
    ensures Entry(d, Address(World, None, k)).None? && Entry(d, Address(Plugin, None, k)).None?
  {
  }

  // --------------------------------------------------------------- which entries are accepted

  /** A setting registered for `s` may be changed in this scope. */
  predicate Permits(s: SettingScope, scope: Scope) {
    || (s == SharedSetting && scope == Shared)
    || (s == GatewaySetting && scope == Gateway)
    || (s == UiTypeSetting && (scope == UiType || scope == Ui))
    || (s == UiSetting && scope == Ui)
    || (s == WorldSetting && scope == World)
    || (s == PluginSetting && scope == Plugin)
    || (s == SecretSetting && scope == Secret)
  }

  /** The target suits the scope and the key. */
  predicate TargetSuits(r: Registry, a: Address) {
    match a.scope
    case World => a.target.None? || r.worldKey(a.target.value, a.key)
    case Plugin => a.target.None? || r.pluginKey(a.target.value, a.key)
    case UiType => a.target == Some(r.terminal) || a.target == Some(r.pwa)
    case _ => true
  }

  /** Single sections take no target, the others one that is not blank. */
  predicate TargetGiven(r: Registry, a: Address) {
    if a.scope == Shared || a.scope == Gateway || a.scope == Secret then a.target.None?
    else a.target.Some? && a.target.value != r.blank
  }

  /** The errors of one change before the lock, in their order. */
  lemma {:induction false} ChangeErrorIs(r: Registry, c: Change)
    ensures ChangeError(r, c) ==
      if r.setting(c.address.key).None? then Some(UnknownKey)
      else if !Permits(r.setting(c.address.key).value, c.address.scope) then Some(ScopeNotAllowed)
      else if !TargetSuits(r, c.address) then Some(TargetMismatch)
      else if c.value.Some? && !r.accepts(c.address.key, c.value.value) then Some(InvalidValue)
      else None
  {
  }

  /** The first change in order that has an error decides the refusal. */
  lemma {:induction false} FirstErrorIs(r: Registry, changes: seq<Change>)
    ensures FirstError(r, changes).None? <==> forall i :: 0 <= i < |changes| ==> ChangeError(r, changes[i]).None?
    ensures FirstError(r, changes).Some? ==> exists i ::
      0 <= i < |changes| && FirstError(r, changes) == ChangeError(r, changes[i]) && forall j :: 0 <= j < i ==> ChangeError(r, changes[j]).None?
  {
    hide ChangeError;
    if changes != [] && ChangeError(r, changes[0]).None? {
      FirstErrorIs(r, changes[1..]);
      if FirstError(r, changes).Some? {
        var i :| 0 <= i < |changes| - 1 && FirstError(r, changes[1..]) == ChangeError(r, changes[1..][i])
          && forall j :: 0 <= j < i ==> ChangeError(r, changes[1..][j]).None?;
        assert changes[1..][i] == changes[i + 1];
        forall j | 0 <= j < i + 1 ensures ChangeError(r, changes[j]).None? {
          if j > 0 { assert changes[1..][j - 1] == changes[j]; }
        }
      }
    }
  }

  /** What a stored entry must satisfy. */
  predicate Storable(r: Registry, a: Address, v: Value) {
    && r.setting(a.key).Some? && Permits(r.setting(a.key).value, a.scope) && TargetSuits(r, a)
    && (a.scope == Secret ==> r.isReference(v)) && r.accepts(a.key, v)
  }

  /** A document's content is valid exactly when every entry may be stored. */
  lemma {:induction false} ContentValidIs(r: Registry, d: Document)
    ensures ContentValid(r, d) <==> forall a :: Entry(d, a).Some? ==> Storable(r, a, Entry(d, a).value)
  {
    ContentValidMeans(r, d);
    forall a: Address, v ensures EntryValid(r, a, v) <==> Storable(r, a, v) {}
    hide ContentValid, Entry, EntryValid, Storable;
    if forall a :: Entry(d, a).Some? ==> Storable(r, a, Entry(d, a).value) {
      forall scope ensures EntriesValid(r, d, scope) {}
    }
    if forall scope :: EntriesValid(r, d, scope) {
      forall a: Address | Entry(d, a).Some? ensures Storable(r, a, Entry(d, a).value) {
        assert EntriesValid(r, d, a.scope);
      }
    }
  }

  // ------------------------------------------------------------------ set, reset and batch

  /** A change that can be made: known, permitted, placed, valid, and with an effect. */
  predicate Acceptable(r: Registry, d: Document, c: Change) {
    && r.setting(c.address.key).Some? && Permits(r.setting(c.address.key).value, c.address.scope)
    && TargetSuits(r, c.address) && TargetGiven(r, c.address)
    && (c.value.Some? ==> r.accepts(c.address.key, c.value.value) && (c.address.scope == Secret ==> r.isReference(c.value.value)))
    && Entry(d, c.address) != c.value
  }

  /** The document with the changes made one after the other. */
  function Updated(d: Document, changes: seq<Change>): Document {
    if changes == [] then d
    else
      var c := changes[|changes| - 1];
      var e := Updated(d, changes[..|changes| - 1]);
      if Shaped(c.address.scope, c.address.target) then Put(e, c.address, c.value) else e
  }

  /** One audit entry per change. */
  function EntriesFor(r: Registry, d: Document, changes: seq<Change>, stamp: Stamp): (entries: seq<Mutation>)
    ensures |entries| == |changes|
  {
    seq(|changes|, i requires 0 <= i < |changes| =>
      Mutation(d.revision + 1, if changes[i].value.Some? then SetValue else ResetValue, changes[i].address,
               Entry(d, changes[i].address), changes[i].value, stamp, r.restart(changes[i].address.key)))
  }

  /** What the lines of these entries take in the audit file. */
  function LineTotal(r: Registry, entries: seq<Mutation>): nat {
    if entries == [] then 0 else LineTotal(r, entries[..|entries| - 1]) + r.lineSize(entries[|entries| - 1]) + 1
  }

  lemma {:induction false} LineTotalIs(r: Registry, entries: seq<Mutation>)
    ensures Bytes(r, entries) == LineTotal(r, entries)
  {
    if entries != [] {
      LineTotalIs(r, entries[..|entries| - 1]);
    }
  }

  ghost predicate DistinctChanges(changes: seq<Change>) {
    forall i, j :: 0 <= i < j < |changes| ==> changes[i].address != changes[j].address
  }

  /** The changes are of different addresses, and each can be made. */
  ghost predicate AllAcceptable(r: Registry, d: Document, changes: seq<Change>) {
    DistinctChanges(changes) && forall i :: 0 <= i < |changes| ==> Acceptable(r, d, changes[i])
  }

  /** What the last change needs to be planned. */
  predicate Plannable(r: Registry, d: Document, c: Change) { TargetGiven(r, c.address) && Entry(d, c.address) != c.value }

  lemma {:induction false} ChangedSnoc(r: Registry, d: Document, init: seq<Change>, c: Change, stamp: Stamp)
    ensures var (p, q) := (Changed(r, d, init, stamp), Changed(r, d, init + [c], stamp));
      && (q.Success? <==> p.Success? && !(exists e :: e in init && e.address == c.address) && Plannable(r, d, c))
      && (q.Success? ==>
            && Shaped(c.address.scope, c.address.target)
            && q.value == Plan(Put(p.value.document, c.address, c.value), p.value.mutations + [MutationOf(r, d, c, stamp)]))
  {
    assert (init + [c])[..|init|] == init;
    PlacingShapes(r, c.address);
    assert Placing(r, c.address).None? <==> TargetGiven(r, c.address);
    hide Put, Entry, Placing, TargetGiven, MutationOf;
  }

  lemma {:induction false} EntriesForSnoc(r: Registry, d: Document, init: seq<Change>, c: Change, stamp: Stamp)
    ensures EntriesFor(r, d, init + [c], stamp) == EntriesFor(r, d, init, stamp) + [MutationOf(r, d, c, stamp)]
    ensures Shaped(c.address.scope, c.address.target) ==> Updated(d, init + [c]) == Put(Updated(d, init), c.address, c.value)
  {
    assert (init + [c])[..|init|] == init;
    hide Put, Entry;
  }

  lemma {:induction false} DistinctSnoc(init: seq<Change>, c: Change)
    ensures DistinctChanges(init + [c]) <==> DistinctChanges(init) && !(exists e :: e in init && e.address == c.address)
  {
    var all := init + [c];
    if DistinctChanges(all) {
      forall e | e in init ensures e.address != c.address {
        var i :| 0 <= i < |init| && init[i] == e;
        assert all[i] == e && all[|init|] == c;
      }
      forall i, j | 0 <= i < j < |init| ensures init[i].address != init[j].address {
        assert all[i] == init[i] && all[j] == init[j];
      }
    }
  }

  /** When the changes can be planned, and the plan. */
  lemma {:induction false} ChangedIff(r: Registry, d: Document, changes: seq<Change>, stamp: Stamp)
    ensures Changed(r, d, changes, stamp).Success? <==>
      DistinctChanges(changes) && forall i :: 0 <= i < |changes| ==> Plannable(r, d, changes[i])
    ensures Changed(r, d, changes, stamp).Success? ==>
      Changed(r, d, changes, stamp).value == Plan(Updated(d, changes), EntriesFor(r, d, changes, stamp))
  {
    if changes != [] {
      var init, c := changes[..|changes| - 1], changes[|changes| - 1];
      ChangedIff(r, d, init, stamp);
      assert changes == init + [c];
      ChangedSnoc(r, d, init, c, stamp);
      EntriesForSnoc(r, d, init, c, stamp);
      DistinctSnoc(init, c);
      hide Put, Entry, Plannable, EntriesFor, MutationOf, DistinctChanges, Changed, Updated;
      assert forall i :: 0 <= i < |changes| ==> changes[i] == if i < |init| then init[i] else c;
    }
  }

  /** The changed content is valid exactly when the new secrets are references. */
  lemma {:induction false} UpdatedValid(r: Registry, d: Document, changes: seq<Change>)
    requires ContentValid(r, d) && DistinctChanges(changes)
    requires forall i :: 0 <= i < |changes| ==> ChangeError(r, changes[i]).None? && Plannable(r, d, changes[i])
    ensures ContentValid(r, Updated(d, changes)) <==>
      forall i :: 0 <= i < |changes| && changes[i].value.Some? && changes[i].address.scope == Secret ==> r.isReference(changes[i].value.value)
  {
    ContentValidIs(r, d);
    ContentValidIs(r, Updated(d, changes));
    forall a ensures Entry(Updated(d, changes), a) == ValueAfter(d, changes, a) { UpdatedReads(r, d, changes, a); }
    forall i | 0 <= i < |changes|
      ensures ValueAfter(d, changes, changes[i].address) == changes[i].value
      ensures changes[i].value.Some? ==>
        (Storable(r, changes[i].address, changes[i].value.value) <==> (changes[i].address.scope == Secret ==> r.isReference(changes[i].value.value)))
    {
      ValueAfterIs(d, changes, i);
      ChangeErrorIs(r, changes[i]);
    }
    forall a ensures ValueAfter(d, changes, a) == Entry(d, a) || exists i :: 0 <= i < |changes| && changes[i].address == a {
      ValueAfterElse(d, changes, a);
    }
    hide ContentValid, Entry, Updated, ValueAfter, Storable, ChangeError, Plannable;
  }

  /** What an address holds after the changes. */
  function ValueAfter(d: Document, changes: seq<Change>, a: Address): Option<Value> {
    if changes == [] then Entry(d, a)
    else if changes[|changes| - 1].address == a then changes[|changes| - 1].value
    else ValueAfter(d, changes[..|changes| - 1], a)
  }

  lemma {:induction false} UpdatedReads(r: Registry, d: Document, changes: seq<Change>, a: Address)
    requires forall i :: 0 <= i < |changes| ==> Plannable(r, d, changes[i])
    ensures Entry(Updated(d, changes), a) == ValueAfter(d, changes, a)
  {
    hide Put, Entry;
    if changes != [] {
      var init, c := changes[..|changes| - 1], changes[|changes| - 1];
      UpdatedReads(r, d, init, a);
      PutReadsBack(Updated(d, init), c.address, c.value);
    }
  }

  lemma {:induction false} ValueAfterIs(d: Document, changes: seq<Change>, i: nat)
    requires DistinctChanges(changes) && i < |changes|
    ensures ValueAfter(d, changes, changes[i].address) == changes[i].value
  {
    hide Entry;
    if i < |changes| - 1 {
      var init := changes[..|changes| - 1];
      ValueAfterIs(d, init, i);
      assert init[i] == changes[i];
    }
  }

  lemma {:induction false} ValueAfterElse(d: Document, changes: seq<Change>, a: Address)
    ensures ValueAfter(d, changes, a) == Entry(d, a) || exists i :: 0 <= i < |changes| && changes[i].address == a
  {
    hide Entry;
    if changes != [] && changes[|changes| - 1].address != a {
      var init := changes[..|changes| - 1];
      ValueAfterElse(d, init, a);
      if i :| 0 <= i < |init| && init[i].address == a {
        assert changes[i].address == a;
      }
    }
  }

  function Revised(d: Document, revision: nat): Document { d.(revision := revision) }

  /** Any request commits exactly when it is not refused at once, expects the current revision,
      has a plan whose document is valid and whose lines fit, and no write raises. */
  lemma {:induction false} CommitIff(r: Registry, disk: Disk, step: Step)
    requires AuditBounded(r, disk)
    ensures var p := Planned(r, disk.document, disk.audit, step.request, step.stamp);
      && (Outcome(r, disk, step).Success? <==>
            && Refusal(r, step.request).None? && step.expected == disk.document.revision && p.Success?
            && DocumentValid(r, Revised(p.value.document, disk.document.revision + 1))
            && Bytes(r, p.value.mutations) <= 1_048_576
            && !step.faults.previous && !step.faults.document && !step.faults.audit)
      && (Outcome(r, disk, step).Success? ==>
            && Outcome(r, disk, step).value == p.value.mutations
            && Next(r, disk, step).document == Revised(p.value.document, disk.document.revision + 1))
  {
    HistoryIsAudit(r, disk);
    hide Refusal, Planned, DocumentValid, Bytes, OlderKept, AuditBounded, History;
  }

  /** The size limits of the planned document and its lines, and no write raises. */
  predicate Writable(r: Registry, d: Document, changes: seq<Change>, step: Step) {
    && r.documentSize(Revised(Updated(d, changes), d.revision + 1)) <= 1_048_576
    && LineTotal(r, EntriesFor(r, d, changes, step.stamp)) <= 1_048_576
    && !step.faults.previous && !step.faults.document && !step.faults.audit
  }

  lemma {:induction false} ChangesNeed(r: Registry, disk: Disk, before: Document, step: Step)
    requires Inv(r, disk, before) && (step.request.Set? || step.request.Reset? || step.request.Batch?)
    requires Outcome(r, disk, step).Success?
    ensures step.expected == disk.document.revision && 1 <= |Requested(step.request)| <= 64
    ensures AllAcceptable(r, disk.document, Requested(step.request)) && Writable(r, disk.document, Requested(step.request), step)
  {
    hide Inv, Outcome, Next, Planned, Refusal, DocumentValid, ContentValid, AuditBounded, AllAcceptable, Updated, Revised,
         LineTotal, EntriesFor, Bytes, Erring, Changed;
    var d, changes := disk.document, Requested(step.request);
    InvBounded(r, disk, before);
    CommitIff(r, disk, step);
    ChangesPlanned(r, d, disk.audit, step.request, step.stamp);
    ChangesValidIff(r, d, changes, step.stamp);
    LineTotalIs(r, EntriesFor(r, d, changes, step.stamp));
  }

  lemma {:induction false} ChangesSuffice(r: Registry, disk: Disk, before: Document, step: Step)
    requires Inv(r, disk, before) && (step.request.Set? || step.request.Reset? || step.request.Batch?)
    requires step.expected == disk.document.revision && 1 <= |Requested(step.request)| <= 64
    requires AllAcceptable(r, disk.document, Requested(step.request)) && Writable(r, disk.document, Requested(step.request), step)
    ensures Outcome(r, disk, step).Success?
  {
    hide Inv, Outcome, Next, Planned, Refusal, DocumentValid, ContentValid, AuditBounded, AllAcceptable, Updated, Revised,
         LineTotal, EntriesFor, Bytes, Erring, Changed;
    var d, changes := disk.document, Requested(step.request);
    InvBounded(r, disk, before);
    ChangesPlanned(r, d, disk.audit, step.request, step.stamp);
    ChangesValidIff(r, d, changes, step.stamp);
    LineTotalIs(r, EntriesFor(r, d, changes, step.stamp));
    CommitIff(r, disk, step);
  }

  /** Exactly when a set, a reset or a batch commits: from 1 to 64 changes of different
      addresses, each acceptable, at the current revision, within the size limits, and with no
      write that raises. */
  lemma {:induction false} ChangesCommitIff(r: Registry, disk: Disk, before: Document, step: Step)
    requires Inv(r, disk, before)
    requires step.request.Set? || step.request.Reset? || step.request.Batch?
    ensures Outcome(r, disk, step).Success? <==>
      && step.expected == disk.document.revision && 1 <= |Requested(step.request)| <= 64
      && AllAcceptable(r, disk.document, Requested(step.request)) && Writable(r, disk.document, Requested(step.request), step)
  {
    hide Inv, Outcome, AllAcceptable, Writable, Requested;
    if Outcome(r, disk, step).Success? {
      ChangesNeed(r, disk, before, step);
    }
    if step.expected == disk.document.revision && 1 <= |Requested(step.request)| <= 64
       && AllAcceptable(r, disk.document, Requested(step.request)) && Writable(r, disk.document, Requested(step.request), step) {
      ChangesSuffice(r, disk, before, step);
    }
  }

  /** What it writes: the changes made one after the other, and one entry for each. */
  lemma {:induction false} ChangesWrite(r: Registry, disk: Disk, before: Document, step: Step)
    requires Inv(r, disk, before) && Outcome(r, disk, step).Success?
    requires step.request.Set? || step.request.Reset? || step.request.Batch?
    ensures Outcome(r, disk, step).value == EntriesFor(r, disk.document, Requested(step.request), step.stamp)
    ensures Next(r, disk, step).document == Revised(Updated(disk.document, Requested(step.request)), disk.document.revision + 1)
  {
    hide *;
    InvBounded(r, disk, before);
    CommitIff(r, disk, step);
    ChangesPlanned(r, disk.document, disk.audit, step.request, step.stamp);
    ChangesValidIff(r, disk.document, Requested(step.request), step.stamp);
  }

  /** Some change has an error before the lock. */
  predicate Erring(r: Registry, changes: seq<Change>) { FirstError(r, changes).Some? }

  /** The plan exists and is valid exactly when the changes are acceptable. */
  lemma {:induction false} ChangesValidIff(r: Registry, d: Document, changes: seq<Change>, stamp: Stamp)
    requires ContentValid(r, d)
    ensures var p := Changed(r, d, changes, stamp);
      && (!Erring(r, changes) && p.Success? && DocumentValid(r, Revised(p.value.document, d.revision + 1)) <==>
            && AllAcceptable(r, d, changes)
            && r.documentSize(Revised(Updated(d, changes), d.revision + 1)) <= 1_048_576)
      && (p.Success? ==> p.value == Plan(Updated(d, changes), EntriesFor(r, d, changes, stamp)))
  {
    ChangedIff(r, d, changes, stamp);
    FirstErrorIs(r, changes);
    hide FirstError, Changed, Updated, EntriesFor, Revised, DocumentValid, ContentValid, DistinctChanges, Acceptable, Plannable, ChangeError;
    RevisedValid(r, Updated(d, changes), d.revision + 1);
    if !Erring(r, changes) && Changed(r, d, changes, stamp).Success? {
      UpdatedValid(r, d, changes);
    }
    AcceptableIs(r, d, changes);
  }

  lemma {:induction false} InvBounded(r: Registry, disk: Disk, before: Document)
    requires Inv(r, disk, before)
    ensures AuditBounded(r, disk) && DocumentValid(r, disk.document) && ContentValid(r, disk.document)
  {
    hide ContentValid;
  }

  lemma {:induction false} ChangesPlanned(r: Registry, d: Document, history: seq<Mutation>, request: Request, stamp: Stamp)
    requires request.Set? || request.Reset? || request.Batch?
    ensures Planned(r, d, history, request, stamp) == Changed(r, d, Requested(request), stamp)
    ensures Refusal(r, request).None? <==> 1 <= |Requested(request)| <= 64 && !Erring(r, Requested(request))
  {
    hide Changed, FirstError;
  }

  lemma {:induction false} RevisedValid(r: Registry, d: Document, revision: nat)
    ensures DocumentValid(r, Revised(d, revision)) <==> ContentValid(r, d) && r.documentSize(Revised(d, revision)) <= 1_048_576
  {
    RevisionKeepsValid(r, d, revision);
    hide ContentValid;
  }

  lemma {:induction false} RevisionKeepsValid(r: Registry, d: Document, revision: nat)
    ensures ContentValid(r, d.(revision := revision)) <==> ContentValid(r, d)
  {
  }

  lemma {:induction false} AcceptableIs(r: Registry, d: Document, changes: seq<Change>)
    ensures (forall i :: 0 <= i < |changes| ==> Acceptable(r, d, changes[i])) <==>
      forall i :: 0 <= i < |changes| ==>
        ChangeError(r, changes[i]).None? && Plannable(r, d, changes[i])
        && (changes[i].value.Some? && changes[i].address.scope == Secret ==> r.isReference(changes[i].value.value))
  {
    forall i | 0 <= i < |changes| ensures Acceptable(r, d, changes[i]) <==>
        ChangeError(r, changes[i]).None? && Plannable(r, d, changes[i])
        && (changes[i].value.Some? && changes[i].address.scope == Secret ==> r.isReference(changes[i].value.value))
    {
      ChangeErrorIs(r, changes[i]);
    }
    hide Acceptable, ChangeError, Plannable;
  }

  /** A batch of no changes, or of more than 64, is refused as such. */
  lemma {:induction false} BatchSizeRefused(r: Registry, disk: Disk, step: Step)
    requires step.request.Batch? && (|step.request.changes| == 0 || |step.request.changes| > 64)
    ensures Outcome(r, disk, step) == Failure(BatchSize) && Next(r, disk, step) == disk
  {
  }

  /** Batches of several changes: acceptable ones at different addresses commit together. */
  lemma {:induction false} BatchCommits(r: Registry, disk: Disk, before: Document, step: Step)
    requires Inv(r, disk, before) && step.request.Batch? && 1 <= |step.request.changes| <= 64
    requires AllAcceptable(r, disk.document, step.request.changes)
    requires step.expected == disk.document.revision && Writable(r, disk.document, step.request.changes, step)
    ensures Outcome(r, disk, step).Success? && |Outcome(r, disk, step).value| == |step.request.changes|
    ensures forall i :: 0 <= i < |step.request.changes| ==>
      Entry(Next(r, disk, step).document, step.request.changes[i].address) == step.request.changes[i].value
  {
    hide Transact, Inv, Updated, LineTotal, AllAcceptable;
    ChangesCommitIff(r, disk, before, step);
    ChangesWrite(r, disk, before, step);
    ChangesReadBack(r, disk, step);
    forall i | 0 <= i < |step.request.changes|
      ensures Entry(Next(r, disk, step).document, step.request.changes[i].address) == step.request.changes[i].value
    {
      var changes := Requested(step.request);
      assert changes == step.request.changes;
      assert Entry(Next(r, disk, step).document, changes[i].address) == changes[i].value;
    }
  }

  // --------------------------------------------------------------- whole-document changes

  /** Exactly when a whole-document change commits, and its one entry. */
  lemma {:induction false} ReplaceCommitsIff(r: Registry, disk: Disk, before: Document, step: Step)
    requires Inv(r, disk, before) && step.request.Replace?
    ensures var (d, e) := (disk.document, step.request.document);
      var entry := Mutation(d.revision + 1, ReplaceDocument, Address(Shared, None, r.documentKey),
                            Some(RevisionNote(d.revision)), Some(RevisionNote(d.revision + 1)), step.stamp, step.request.restart);
      && (Outcome(r, disk, step).Success? <==>
            && step.expected == d.revision
            && (forall a :: Entry(e, a).Some? ==> Storable(r, a, Entry(e, a).value))
            && r.documentSize(e.(revision := d.revision + 1)) <= 1_048_576 && r.lineSize(entry) + 1 <= 1_048_576
            && !step.faults.previous && !step.faults.document && !step.faults.audit)
      && (Outcome(r, disk, step).Success? ==>
            Outcome(r, disk, step).value == [entry] && Next(r, disk, step).document == e.(revision := d.revision + 1))
  {
    var d, e := disk.document, step.request.document;
    var entry := Mutation(d.revision + 1, ReplaceDocument, Address(Shared, None, r.documentKey),
                          Some(RevisionNote(d.revision)), Some(RevisionNote(d.revision + 1)), step.stamp, step.request.restart);
    hide Outcome, Next, ContentValid, DocumentValid, Entry, Bytes, AuditBounded, LatestTells, Storable;
    CommitIff(r, disk, step);
    ContentValidIs(r, e);
    RevisedValid(r, e, d.revision + 1);
    LineBytes(r, entry);
  }

  /** The highest restart among the known settings of a section. */
  ghost predicate HighestRestart(r: Registry, section: Section, restart: Restart) {
    && (forall k :: k in section && r.setting(k).Some? ==> r.restart(k).Rank() <= restart.Rank())
    && (restart == Live || exists k :: k in section && r.setting(k).Some? && r.restart(k) == restart)
  }

  lemma {:induction false} RemovalRestartIs(r: Registry, section: Section)
    ensures HighestRestart(r, section, RemovalRestart(r, section))
  {
  }

  /** The one entry of a removed profile. */
  function RemovalEntry(r: Registry, d: Document, profile: Name, stamp: Stamp, restart: Restart): Mutation
    requires profile in d.uis
  {
    Mutation(d.revision + 1, Operation.RemoveProfile, Address(Ui, Some(profile), r.documentKey),
             Some(SettingsNote(|d.uis[profile]|)), None, stamp, restart)
  }

  function WithoutProfile(d: Document, profile: Name): Document { d.(uis := d.uis - {profile}, revision := d.revision + 1) }

  /** A UI profile without settings is not removed. */
  lemma {:induction false} ProfileNeeded(r: Registry, disk: Disk, before: Document, step: Step)
    requires Inv(r, disk, before) && step.request.RemoveProfile? && step.request.profile !in disk.document.uis
    ensures Outcome(r, disk, step).Failure?
  {
    hide Inv, Outcome, Next, DocumentValid, Planned, AuditBounded;
    InvBounded(r, disk, before);
    CommitIff(r, disk, step);
    RemovalPlanned(r, disk.document, disk.audit, step.request, step.stamp);
  }

  /** Exactly when the removal of one with settings commits, and what it then writes. */
  lemma {:induction false} RemovalCommitsIff(r: Registry, disk: Disk, before: Document, step: Step, restart: Restart)
    requires Inv(r, disk, before) && step.request.RemoveProfile? && step.request.profile in disk.document.uis
    requires HighestRestart(r, disk.document.uis[step.request.profile], restart)
    ensures Outcome(r, disk, step).Success? <==>
      && step.request.profile != r.blank && step.expected == disk.document.revision
      && r.documentSize(WithoutProfile(disk.document, step.request.profile)) <= 1_048_576
      && r.lineSize(RemovalEntry(r, disk.document, step.request.profile, step.stamp, restart)) + 1 <= 1_048_576
      && !step.faults.previous && !step.faults.document && !step.faults.audit
    ensures Outcome(r, disk, step).Success? ==>
      && Outcome(r, disk, step).value == [RemovalEntry(r, disk.document, step.request.profile, step.stamp, restart)]
      && Next(r, disk, step).document == WithoutProfile(disk.document, step.request.profile)
  {
    var d, profile := disk.document, step.request.profile;
    hide Inv, Outcome, Next, DocumentValid, Bytes, AuditBounded, HighestRestart, Planned, Refusal, RemovalEntry;
    InvBounded(r, disk, before);
    CommitIff(r, disk, step);
    RemovalPlanned(r, d, disk.audit, step.request, step.stamp);
    HighestIsOne(r, d.uis[profile], restart);
    LineBytes(r, RemovalEntry(r, d, profile, step.stamp, restart));
    RemovalValid(r, d, profile);
    hide WithoutProfile;
  }

  lemma {:induction false} RemovalPlanned(r: Registry, d: Document, history: seq<Mutation>, request: Request, stamp: Stamp)
    requires request.RemoveProfile?
    ensures Refusal(r, request) == if request.profile == r.blank then Some(ProfileInvalid) else None
    ensures var (p, profile) := (Planned(r, d, history, request, stamp), request.profile);
      && (p.Success? <==> profile in d.uis)
      && (profile in d.uis ==>
            && Revised(p.value.document, d.revision + 1) == WithoutProfile(d, profile)
            && p.value.mutations == [RemovalEntry(r, d, profile, stamp, RemovalRestart(r, d.uis[profile]))])
  {
    hide RemovalRestart;
  }

  lemma {:induction false} HighestIsOne(r: Registry, section: Section, restart: Restart)
    requires HighestRestart(r, section, restart)
    ensures RemovalRestart(r, section) == restart
  {
    RemovalRestartIs(r, section);
    hide RemovalRestart;
  }

  lemma {:induction false} RemovalValid(r: Registry, d: Document, profile: Name)
    requires DocumentValid(r, d)
    ensures DocumentValid(r, WithoutProfile(d, profile)) <==> r.documentSize(WithoutProfile(d, profile)) <= 1_048_576
  {
  }

  // ------------------------------------------------------------------------------- undo

  /** The one entry of a committed undo: of several entries it only says how many there were
      and the highest restart among them; of a single one it is the exchange of its values. */
  lemma {:induction false} UndoWrites(r: Registry, disk: Disk, before: Document, step: Step)
    requires r.Proper() && Inv(r, disk, before) && step.request.Undo? && Outcome(r, disk, step).Success?
    ensures var (d, value) := (disk.document, Outcome(r, disk, step).value);
      var latest := Filter(disk.audit, (m: Mutation) => m.revision == d.revision);
      && |value| == 1 && latest != [] && Next(r, disk, step).document.revision == d.revision + 1
      && (|latest| == 1 ==>
            var m := latest[0];
            value[0] == Mutation(d.revision + 1, UndoChange, m.address, m.value, m.previous, step.stamp, m.restart))
      && (|latest| > 1 ==>
            && value[0] == Mutation(d.revision + 1, UndoChange, Address(Shared, None, r.batchKey), Some(RevisionNote(d.revision)),
                                    Some(BatchNote(d.revision + 1, |latest|)), step.stamp, value[0].restart)
            && (forall m :: m in latest ==> m.restart.Rank() <= value[0].restart.Rank())
            && (exists m :: m in latest && m.restart == value[0].restart))
  {
    var d, latest := disk.document, LatestOf(disk);
    hide Outcome, Next, Filter, Inv, UndoEntry;
    UndoWritesOne(r, disk, before, step);
    if |latest| == 1 {
      UndoEntryOfOne(r, disk, before, step);
    } else {
      UndoEntryOfMany(r, d, latest, step.stamp);
    }
  }

  lemma {:induction false} UndoWritesOne(r: Registry, disk: Disk, before: Document, step: Step)
    requires r.Proper() && Inv(r, disk, before) && step.request.Undo? && Outcome(r, disk, step).Success?
    ensures LatestOf(disk) != [] && Next(r, disk, step).document.revision == disk.document.revision + 1
    ensures Outcome(r, disk, step).value == [UndoEntry(r, disk.document, LatestOf(disk), step.stamp)]
  {
    UndoOutcome(r, disk, step.expected, step.stamp, step.faults);
    hide Transact, DocumentValid, Reverted, Latest, UndoEntry, LatestTells, AuditBounded;
  }

  lemma {:induction false} UndoEntryOfOne(r: Registry, disk: Disk, before: Document, step: Step)
    requires r.Proper() && Inv(r, disk, before) && step.request.Undo? && Outcome(r, disk, step).Success? && |LatestOf(disk)| == 1
    ensures var (d, m) := (disk.document, LatestOf(disk)[0]);
      UndoEntry(r, d, LatestOf(disk), step.stamp) ==
        Mutation(d.revision + 1, UndoChange, m.address, m.value, m.previous, step.stamp, m.restart)
  {
    UndoOutcome(r, disk, step.expected, step.stamp, step.faults);
    hide Transact, DocumentValid, Latest, UndoDocument, AuditBounded, Describes, ContentValid;
    if OnlyNames(r, LatestOf(disk)) {
      NamedNotUndone(r, disk);
      assert false;
    } else {
      SingleTells(r, LatestOf(disk), before, disk.document);
    }
  }

  lemma {:induction false} UndoEntryOfMany(r: Registry, d: Document, entries: seq<Mutation>, stamp: Stamp)
    requires |entries| > 1
    ensures var entry := UndoEntry(r, d, entries, stamp);
      && entry == Mutation(d.revision + 1, UndoChange, Address(Shared, None, r.batchKey), Some(RevisionNote(d.revision)),
                           Some(BatchNote(d.revision + 1, |entries|)), stamp, entry.restart)
      && (forall m :: m in entries ==> m.restart.Rank() <= entry.restart.Rank())
      && (exists m :: m in entries && m.restart == entry.restart)
  {
    RestartsOf(entries);
    hide MaximumRestart, Restarts;
  }

  lemma {:induction false} SingleTells(r: Registry, entries: seq<Mutation>, before: Document, d: Document)
    requires |entries| == 1 && Describes(r, entries, before, d)
    ensures entries[0].value == Entry(d, entries[0].address)
  {
    assert EntryTells(r, entries[0], before, d);
  }

  lemma {:induction false} RestartsOf(entries: seq<Mutation>)
    requires entries != []
    ensures var restart := MaximumRestart(Restarts(entries));
      && (forall m :: m in entries ==> m.restart.Rank() <= restart.Rank())
      && exists m :: m in entries && m.restart == restart
  {
    var s := Restarts(entries);
    forall m | m in entries ensures m.restart in s {
      var i :| 0 <= i < |entries| && entries[i] == m;
      assert s[i] == m.restart;
    }
    var i :| 0 <= i < |s| && s[i] == MaximumRestart(s);
    assert entries[i] in entries;
  }

  /** What is refused about an undo at the current revision, before anything is written. */
  lemma {:induction false} UndoRefusals(r: Registry, disk: Disk, step: Step)
    requires AuditBounded(r, disk) && step.request.Undo?
    ensures var latest := Filter(disk.audit, (m: Mutation) => m.revision == disk.document.revision);
      && (step.expected != disk.document.revision ==> Outcome(r, disk, step) == Failure(RevisionConflict))
      && (step.expected == disk.document.revision && latest == [] ==> Outcome(r, disk, step) == Failure(NothingToUndo))
      && (step.expected == disk.document.revision && latest != [] && latest[|latest| - 1].address.key == r.documentKey ==>
            Outcome(r, disk, step) == Failure(WholeDocument))
  {
    HistoryIsAudit(r, disk);
    hide Filter, History, AuditBounded, Reverted, UndoEntry;
  }

  /** An outdated expectation is refused after the checks that need no lock. */
  lemma {:induction false} ConflictRefused(r: Registry, disk: Disk, step: Step)
    requires step.expected != disk.document.revision
    ensures Next(r, disk, step) == disk && Outcome(r, disk, step).Failure?
    ensures step.request.Replace? || (step.request.RemoveProfile? && step.request.profile != r.blank) ==>
      Outcome(r, disk, step) == Failure(RevisionConflict)
  {
    hide FirstError, Proposed;
  }

  // ----------------------------------------------------------------------- the audit file

  /** The newest `n` older lines fit beside the new ones: 500 lines, and a mebibyte. */
  ghost predicate Roomy(r: Registry, audit: seq<Mutation>, newest: seq<Mutation>, n: nat) {
    n <= |audit| && |newest| + n <= 500 && LineTotal(r, audit[|audit| - n..]) + LineTotal(r, newest) <= 1_048_576
  }

  /** New entries go behind as many of the newest older ones as leave room; entries that do not
      fit by themselves are refused. */
  lemma {:induction false} AuditKeeps(r: Registry, audit: seq<Mutation>, newest: seq<Mutation>)
    requires |newest| <= 500
    ensures Appended(r, audit, newest).Success? <==> LineTotal(r, newest) <= 1_048_576
    ensures Appended(r, audit, newest).Success? ==> exists n: nat ::
      && Roomy(r, audit, newest, n) && Appended(r, audit, newest).value == audit[|audit| - n..] + newest
      && forall m: nat :: n < m ==> !Roomy(r, audit, newest, m)
  {
    LineTotalIs(r, newest);
    hide LineTotal, Bytes, OlderKept;
    if LineTotal(r, newest) <= 1_048_576 {
      OlderKeptIsLongest(r, audit, |newest|, Bytes(r, newest));
      var n := |OlderKept(r, audit, |newest|, Bytes(r, newest))|;
      forall m: nat | m <= |audit| ensures Roomy(r, audit, newest, m) <==> LineFits(r, audit, |newest|, Bytes(r, newest), m) {
        LineTotalIs(r, audit[|audit| - m..]);
        assert LastN(audit, m) == audit[|audit| - m..];
      }
      hide LineFits, LastN;
      AuditKept(r, audit, newest, n);
    }
  }

  lemma {:induction false} AuditKept(r: Registry, audit: seq<Mutation>, newest: seq<Mutation>, n: nat)
    requires LongestKept(r, audit, |newest|, Bytes(r, newest), OlderKept(r, audit, |newest|, Bytes(r, newest)))
    requires n == |OlderKept(r, audit, |newest|, Bytes(r, newest))|
    ensures LineFits(r, audit, |newest|, Bytes(r, newest), n)
    ensures OlderKept(r, audit, |newest|, Bytes(r, newest)) == audit[|audit| - n..]
    ensures forall m :: n < m <= |audit| ==> !LineFits(r, audit, |newest|, Bytes(r, newest), m)
  {
    hide OlderKept, Bytes;
  }
}
