/** What any interleaving of stores on one directory keeps, with writes failing at any point. */
module ConfigurationRuns {
  import opened Wrappers
  import opened Sequences
  import opened Configuration
  import opened ConfigurationPlan

  // No lost update, failure atomicity, an audit that tells the truth about the current revision,
  // and undo as the exact inverse of the last change.

  // --------------------------------------------------- what entries say about a change

  ghost predicate Distinct(entries: seq<Mutation>) {
    forall i, j :: 0 <= i < j < |entries| ==> entries[i].address != entries[j].address
  }

  ghost predicate Touches(entries: seq<Mutation>, a: Address) {
    exists i :: 0 <= i < |entries| && entries[i].address == a
  }

  /** The entry tells the truth about one address, and something did change there. */
  ghost predicate EntryTells(r: Registry, m: Mutation, before: Document, after: Document) {
    && r.setting(m.address.key).Some? && Placing(r, m.address).None?
    && m.previous == Entry(before, m.address) && m.value == Entry(after, m.address) && m.previous != m.value
  }

  /** The entries are the whole difference between the two documents. */
  ghost predicate Describes(r: Registry, entries: seq<Mutation>, before: Document, after: Document) {
    && Distinct(entries)
    && (forall i :: 0 <= i < |entries| ==> EntryTells(r, entries[i], before, after))
    && (forall a :: !Touches(entries, a) ==> Entry(after, a) == Entry(before, a))
  }

  lemma {:induction false} FirstErrorNone(r: Registry, changes: seq<Change>, i: nat)
    requires FirstError(r, changes).None? && i < |changes|
    ensures ChangeError(r, changes[i]).None?
  {
    if i > 0 {
      FirstErrorNone(r, changes[1..], i - 1);
    }
  }

  lemma {:induction false} TouchesMore(entries: seq<Mutation>, m: Mutation, a: Address)
    ensures Touches(entries, a) ==> Touches(entries + [m], a)
    ensures Touches(entries + [m], m.address)
  {
    assert (entries + [m])[|entries|] == m;
    if Touches(entries, a) {
      var i :| 0 <= i < |entries| && entries[i].address == a;
      assert (entries + [m])[i].address == a;
    }
  }

  lemma {:induction false} TouchedByChange(entries: seq<Mutation>, changes: seq<Change>, a: Address)
    requires |entries| == |changes| && forall i :: 0 <= i < |changes| ==> entries[i].address == changes[i].address
    ensures Touches(entries, a) ==> exists e :: e in changes && e.address == a
  {
    if Touches(entries, a) {
      var i :| 0 <= i < |entries| && entries[i].address == a;
      assert changes[i] in changes;
    }
  }

  lemma {:induction false} DistinctMore(entries: seq<Mutation>, m: Mutation)
    requires Distinct(entries) && !Touches(entries, m.address)
    ensures Distinct(entries + [m]) && forall i :: 0 <= i < |entries| ==> entries[i].address != m.address
  {
  }

  lemma {:induction false} DescribesStep(r: Registry, entries: seq<Mutation>, before: Document, after: Document, m: Mutation)
    requires Describes(r, entries, before, after) && !Touches(entries, m.address)
    requires r.setting(m.address.key).Some? && Placing(r, m.address).None?
    requires m.previous == Entry(before, m.address) && m.previous != m.value
    requires Shaped(m.address.scope, m.address.target)
    ensures Describes(r, entries + [m], before, Put(after, m.address, m.value))
  {
    var entries' := entries + [m];
    var after' := Put(after, m.address, m.value);
    hide Put, Entry, Placing, Shaped, Distinct;
    PutReadsBack(after, m.address, m.value);
    DistinctMore(entries, m);
    hide Touches;
    forall i | 0 <= i < |entries'| ensures EntryTells(r, entries'[i], before, after') {
      if i < |entries| {
        assert EntryTells(r, entries[i], before, after);
      }
    }
    forall a | !Touches(entries', a) ensures Entry(after', a) == Entry(before, a) {
      TouchesMore(entries, m, a);
    }
  }

  lemma {:induction false} NothingDescribed(r: Registry, d: Document)
    ensures Describes(r, [], d, d)
  {
  }

  lemma {:induction false} KnownChange(r: Registry, c: Change)
    requires ChangeError(r, c).None?
    ensures r.setting(c.address.key).Some?
  {
  }

  /** Planning a set, a reset or a batch gives entries that describe exactly the change. */
  lemma {:induction false} ChangedDescribes(r: Registry, d: Document, changes: seq<Change>, stamp: Stamp)
    requires forall i :: 0 <= i < |changes| ==> ChangeError(r, changes[i]).None?
    requires Changed(r, d, changes, stamp).Success?
    ensures var p := Changed(r, d, changes, stamp).value;
      && Describes(r, p.mutations, d, p.document)
      && (forall i :: 0 <= i < |changes| ==> p.mutations[i].address == changes[i].address && p.mutations[i].revision == d.revision + 1)
  {
    hide Describes, Put, Entry, ChangeError, Placing, Shaped, Touches;
    if changes == [] {
      NothingDescribed(r, d);
    } else {
      var init, c := changes[..|changes| - 1], changes[|changes| - 1];
      ChangedDescribes(r, d, init, stamp);
      var q := Changed(r, d, init, stamp).value;
      var m := MutationOf(r, d, c, stamp);
      KnownChange(r, c);
      PlacingShapes(r, c.address);
      TouchedByChange(q.mutations, init, c.address);
      DescribesStep(r, q.mutations, d, q.document, m);
    }
  }

  /** Putting back previous values, newest first, gives every touched address its previous
      value and leaves the others alone. */
  lemma {:induction false} RevertedRestores(r: Registry, d: Document, entries: seq<Mutation>)
    requires Distinct(entries) && forall i :: 0 <= i < |entries| ==> Placing(r, entries[i].address).None?
    ensures Reverted(r, d, entries).Success?
    ensures var e := Reverted(r, d, entries).value;
      && (forall i :: 0 <= i < |entries| ==> Entry(e, entries[i].address) == entries[i].previous)
      && (forall a :: !Touches(entries, a) ==> Entry(e, a) == Entry(d, a))
    decreases |entries|
  {
    hide Put, Entry, Placing, Shaped;
    if entries != [] {
      var init, m := entries[..|entries| - 1], entries[|entries| - 1];
      assert entries == init + [m];
      PlacingShapes(r, m.address);
      var d' := Put(d, m.address, m.previous);
      PutReadsBack(d, m.address, m.previous);
      RevertedRestores(r, d', init);
      assert !Touches(init, m.address);
      hide Touches;
      var e := Reverted(r, d', init).value;
      forall i | 0 <= i < |entries| ensures Entry(e, entries[i].address) == entries[i].previous {
        if i < |init| {
          assert init[i] == entries[i];
        }
      }
      forall a | !Touches(entries, a) ensures Entry(e, a) == Entry(d, a) {
        TouchesMore(init, m, a);
      }
    }
  }

  /** Entries that describe a change are exactly what is needed to take it back. */
  lemma {:induction false} RevertedInverts(r: Registry, entries: seq<Mutation>, before: Document, after: Document)
    requires Describes(r, entries, before, after)
    ensures Reverted(r, after, entries).Success? && SameContent(Reverted(r, after, entries).value, before)
  {
    assert forall i :: 0 <= i < |entries| ==> EntryTells(r, entries[i], before, after);
    RevertedRestores(r, after, entries);
    hide Reverted, Entry, Placing;
    var e := Reverted(r, after, entries).value;
    forall a ensures Entry(e, a) == Entry(before, a) {
      if Touches(entries, a) {
        var i :| 0 <= i < |entries| && entries[i].address == a;
      }
    }
  }

  // -------------------------------------------------------------- what the disk keeps

  /** A single entry that names a whole document or the undo of a batch. */
  ghost predicate OnlyNames(r: Registry, entries: seq<Mutation>) {
    && |entries| == 1
    && (entries[0].address.key == r.documentKey
        || (entries[0].address == Address(Shared, None, r.batchKey) && entries[0].previous.Some?))
  }

  /** The entries at the document's revision: none, one entry that only names a whole
      document or a batch undo, or the whole difference from the document before. */
  ghost predicate LatestTells(r: Registry, disk: Disk, before: Document) {
    var latest := Latest(disk.audit, disk.document.revision);
    || latest == []
    || OnlyNames(r, latest)
    || Describes(r, latest, before, disk.document)
  }

  ghost predicate AuditBounded(r: Registry, disk: Disk) {
    && |disk.audit| <= MAX_AUDIT_ENTRIES && Bytes(r, disk.audit) <= MAX_CONFIGURATION_BYTES
    && forall m :: m in disk.audit ==> m.revision <= disk.document.revision
  }

  /** `before` is the document that the current revision replaced. */
  ghost predicate Inv(r: Registry, disk: Disk, before: Document) {
    && AuditBounded(r, disk)
    && DocumentValid(r, disk.document) && ContentValid(r, before)
    && LatestTells(r, disk, before)
  }

  lemma {:induction false} LatestOfAppended(r: Registry, audit: seq<Mutation>, newest: seq<Mutation>, revision: nat)
    requires Appended(r, audit, newest).Success? && |newest| <= MAX_AUDIT_ENTRIES
    requires forall m :: m in audit ==> m.revision < revision
    requires forall m :: m in newest ==> m.revision == revision
    ensures var kept := Appended(r, audit, newest).value;
      && Latest(kept, revision) == newest
      && |kept| <= MAX_AUDIT_ENTRIES && Bytes(r, kept) <= MAX_CONFIGURATION_BYTES
      && (forall m :: m in kept ==> m.revision <= revision)
  {
    var older := OlderKept(r, audit, |newest|, Bytes(r, newest));
    OlderKeptIsLongest(r, audit, |newest|, Bytes(r, newest));
    BytesSplit(r, older, newest);
    assert forall m :: m in older ==> m in audit;
    var p := (m: Mutation) => m.revision == revision;
    FilterAppend(older, newest, p);
    FilterNone(older, p);
    FilterAll(newest, p);
  }

  /** A plan describes itself: what its entries say is how its document differs from `d`,
      unless they only name the whole document or a batch undo. */
  ghost predicate PlanTells(r: Registry, d: Document, plan: Plan) {
    && plan.document.revision == d.revision + 1
    && 1 <= |plan.mutations| <= MAX_BATCH_CHANGES
    && (forall m :: m in plan.mutations ==> m.revision == d.revision + 1)
    && DocumentValid(r, plan.document)
    && (OnlyNames(r, plan.mutations) || Describes(r, plan.mutations, d, plan.document))
  }

  lemma {:induction false} DescribesSame(r: Registry, entries: seq<Mutation>, before: Document, after: Document, before': Document, after': Document)
    requires Describes(r, entries, before, after) && SameContent(before, before') && SameContent(after, after')
    ensures Describes(r, entries, before', after')
  {
    hide Entry, Placing;
    forall i | 0 <= i < |entries| ensures EntryTells(r, entries[i], before', after') {
      assert EntryTells(r, entries[i], before, after);
    }
  }

  lemma {:induction false} RevisionKeepsContent(d: Document, revision: nat)
    ensures SameContent(d, d.(revision := revision))
  {
    hide SectionAt, Shaped;
    forall a: Address ensures Entry(d, a) == Entry(d.(revision := revision), a) {
      if Shaped(a.scope, a.target) {
        RevisionKeepsSection(d, revision, a.scope, a.target);
      }
    }
  }

  lemma {:induction false} RevisionKeepsSection(d: Document, revision: nat, scope: Scope, target: Option<Name>)
    requires Shaped(scope, target)
    ensures SectionAt(d.(revision := revision), scope, target) == SectionAt(d, scope, target)
  {
  }

  /** Undoing one described change is itself a described change. */
  lemma {:induction false} SingleUndoDescribes(r: Registry, m: Mutation, before: Document, d: Document, stamp: Stamp)
    requires Describes(r, [m], before, d)
    ensures var e := Reverted(r, d, [m]);
      e.Success? && Describes(r, [UndoEntry(r, d, [m], stamp)], d, e.value)
  {
    var u := UndoEntry(r, d, [m], stamp);
    assert EntryTells(r, [m][0], before, d);
    RevertedInverts(r, [m], before, d);
    hide Reverted, Entry, Placing;
    var e := Reverted(r, d, [m]).value;
    assert EntryTells(r, u, d, e);
    forall a | !Touches([u], a) ensures Entry(e, a) == Entry(d, a) {
      assert a != [u][0].address;
      assert !Touches([m], a);
    }
  }

  lemma {:induction false} ChangesPlanTells(r: Registry, d: Document, changes: seq<Change>, stamp: Stamp)
    requires FirstError(r, changes).None? && 1 <= |changes| <= MAX_BATCH_CHANGES
    requires Changed(r, d, changes, stamp).Success?
    ensures var p := Changed(r, d, changes, stamp).value;
      && Describes(r, p.mutations, d, p.document) && |p.mutations| == |changes|
      && (forall m :: m in p.mutations ==> m.revision == d.revision + 1)
  {
    forall i | 0 <= i < |changes| ensures ChangeError(r, changes[i]).None? {
      FirstErrorNone(r, changes, i);
    }
    hide ChangeError, Changed, FirstError, Describes;
    ChangedDescribes(r, d, changes, stamp);
  }

  /** The undo of a batch undo would store a value under a word that is no setting. */
  lemma {:induction false} BatchNoteRefused(r: Registry, d: Document, m: Mutation, revision: nat)
    requires r.Proper() && m.address == Address(Shared, None, r.batchKey) && m.previous.Some?
    ensures Reverted(r, d, [m]).Success? && !DocumentValid(r, Reverted(r, d, [m]).value.(revision := revision))
  {
    assert [m][..0] == [];
    var e := Put(d, m.address, m.previous);
    assert Reverted(r, d, [m]) == Reverted(r, e, []);
    assert r.batchKey in e.shared;
    hide Put;
    assert !SectionValid(r, Shared, None, e.shared) by {
      assert !EntryValid(r, m.address, e.shared[r.batchKey]);
    }
  }

  lemma {:induction false} UndoPlanTells(r: Registry, disk: Disk, before: Document, stamp: Stamp)
    requires r.Proper() && Inv(r, disk, before) && Undone(r, disk.document, disk.audit, stamp).Success?
    requires DocumentValid(r, Undone(r, disk.document, disk.audit, stamp).value.document.(revision := disk.document.revision + 1))
    ensures var p := Undone(r, disk.document, disk.audit, stamp).value;
      && |p.mutations| == 1 && p.mutations[0].revision == disk.document.revision + 1
      && (OnlyNames(r, p.mutations) || Describes(r, p.mutations, disk.document, p.document))
  {
    var d := disk.document;
    var latest := Latest(disk.audit, d.revision);
    hide Describes, Latest, Reverted, DocumentValid, ContentValid;
    if |latest| == 1 {
      assert latest == [latest[0]];
      if OnlyNames(r, latest) {
        BatchNoteRefused(r, d, latest[0], d.revision + 1);
        assert false;
      } else {
        SingleUndoDescribes(r, latest[0], before, d, stamp);
      }
    }
  }

  lemma {:induction false} HistoryIsAudit(r: Registry, disk: Disk)
    requires AuditBounded(r, disk)
    ensures History(disk) == disk.audit
  {
  }

  lemma {:induction false} PlannedTells(r: Registry, disk: Disk, before: Document, request: Request, stamp: Stamp)
    requires r.Proper() && Inv(r, disk, before) && Refusal(r, request).None?
    requires Planned(r, disk.document, disk.audit, request, stamp).Success?
    requires DocumentValid(r, Planned(r, disk.document, disk.audit, request, stamp).value.document.(revision := disk.document.revision + 1))
    ensures var p := Planned(r, disk.document, disk.audit, request, stamp).value;
      && 1 <= |p.mutations| <= MAX_BATCH_CHANGES
      && (forall m :: m in p.mutations ==> m.revision == disk.document.revision + 1)
      && (OnlyNames(r, p.mutations) || Describes(r, p.mutations, disk.document, p.document))
  {
    hide Inv, DocumentValid, Describes, FirstError, Changed, Undone;
    match request
    case Undo =>
      UndoPlanTells(r, disk, before, stamp);
    case Replace(_, _) =>
    case RemoveProfile(_) =>
    case _ =>
      ChangesPlanTells(r, disk.document, Requested(request), stamp);
  }

  lemma {:induction false} ProposedTells(r: Registry, disk: Disk, before: Document, request: Request, stamp: Stamp)
    requires r.Proper() && Inv(r, disk, before) && Refusal(r, request).None?
    requires Proposed(r, disk.document, disk.audit, request, stamp).Success?
    ensures PlanTells(r, disk.document, Proposed(r, disk.document, disk.audit, request, stamp).value)
  {
    hide Inv, DocumentValid, Describes, SameContent, Planned, Refusal, OnlyNames;
    var d := disk.document;
    PlannedTells(r, disk, before, request, stamp);
    var p := Planned(r, d, disk.audit, request, stamp).value;
    RevisionKeepsContent(p.document, d.revision + 1);
    if Describes(r, p.mutations, d, p.document) {
      RevisionKeepsContent(d, d.revision);
      DescribesSame(r, p.mutations, d, p.document, d, p.document.(revision := d.revision + 1));
    }
  }

  // ------------------------------------------------------------------ one transaction

  lemma {:induction false} CommitKeeps(r: Registry, disk: Disk, before: Document, plan: Plan, faults: Faults)
    requires Inv(r, disk, before) && PlanTells(r, disk.document, plan)
    ensures var (next, outcome) := Committed(r, disk, plan, faults);
      && (next.document == disk.document ==> Inv(r, next, before) && next.audit == disk.audit)
      && (next.document != disk.document ==>
            next.document == plan.document && Inv(r, next, disk.document)
            && (outcome.Success? || (faults.restore && next.audit == disk.audit)))
      && (outcome.Success? ==> outcome.value == plan.mutations && next.document == plan.document
                               && Latest(next.audit, next.document.revision) == plan.mutations)
  {
    var revision := disk.document.revision + 1;
    var appended := Appended(r, disk.audit, plan.mutations);
    hide Appended, ContentValid, Describes, Bytes;
    NothingNewer(disk.audit, revision);
    if appended.Success? {
      LatestOfAppended(r, disk.audit, plan.mutations, revision);
    }
    hide Latest;
  }

  lemma {:induction false} NothingNewer(audit: seq<Mutation>, revision: nat)
    requires forall m :: m in audit ==> m.revision < revision
    ensures Latest(audit, revision) == []
  {
    FilterNone(audit, (m: Mutation) => m.revision == revision);
  }

  /** What any single request does to the directory: a winner raises the revision by exactly
      one from the revision it expected, and a loser changes neither document nor audit
      unless the write that should restore the document also raised. */
  lemma {:induction false} TransactOutcome(r: Registry, disk: Disk, expected: int, request: Request, stamp: Stamp, faults: Faults)
    ensures var (next, outcome) := Transact(r, disk, expected, request, stamp, faults);
      && (outcome.Success? ==>
            expected == disk.document.revision && next.document.revision == disk.document.revision + 1
            && next.previous == Some(disk.document))
      && (outcome.Failure? ==> next.audit == disk.audit)
      && (outcome.Failure? && next.document != disk.document ==> faults.restore && expected == disk.document.revision)
      && (next.document == disk.document || next.document.revision == disk.document.revision + 1)
  {
    hide Refusal, Planned, DocumentValid, Appended;
  }

  /** The document that the current one replaced. */
  function Before(disk: Disk, before: Document, next: Disk): Document {
    if next.document.revision == disk.document.revision then before else disk.document
  }

  lemma {:induction false} TransactKeeps(r: Registry, disk: Disk, before: Document, expected: int, request: Request, stamp: Stamp, faults: Faults)
    requires r.Proper() && Inv(r, disk, before)
    ensures var (next, outcome) := Transact(r, disk, expected, request, stamp, faults);
      && Inv(r, next, Before(disk, before, next))
      && (outcome.Success? ==> Latest(next.audit, next.document.revision) == outcome.value)
  {
    TransactOutcome(r, disk, expected, request, stamp, faults);
    HistoryIsAudit(r, disk);
    hide Inv, Committed, Proposed, Refusal, PlanTells, Latest, History;
    if Refusal(r, request).None? && expected == disk.document.revision {
      var plan := Proposed(r, disk.document, disk.audit, request, stamp);
      if plan.Success? {
        ProposedTells(r, disk, before, request, stamp);
        CommitKeeps(r, disk, before, plan.value, faults);
      }
    }
  }

  // ------------------------------------------------------------------------------- runs

  /** One request by any store on the directory, and the writes that raise during it. */
  datatype Step = Step(expected: int, request: Request, stamp: Stamp, faults: Faults)

  function Next(r: Registry, disk: Disk, step: Step): Disk {
    Transact(r, disk, step.expected, step.request, step.stamp, step.faults).0
  }

  function Outcome(r: Registry, disk: Disk, step: Step): Result<seq<Mutation>, Error> {
    Transact(r, disk, step.expected, step.request, step.stamp, step.faults).1
  }

  /** The directory after the first `n` steps, and the document its revision replaced. */
  function At(r: Registry, disk: Disk, before: Document, steps: seq<Step>, n: nat): (Disk, Document)
    requires n <= |steps|
  {
    if n == 0 then (disk, before)
    else
      var (d, b) := At(r, disk, before, steps, n - 1);
      (Next(r, d, steps[n - 1]), Before(d, b, Next(r, d, steps[n - 1])))
  }

  function Wins(r: Registry, disk: Disk, before: Document, steps: seq<Step>, n: nat): bool
    requires n < |steps|
  {
    Outcome(r, At(r, disk, before, steps, n).0, steps[n]).Success?
  }

  lemma {:induction false} RunKeeps(r: Registry, disk: Disk, before: Document, steps: seq<Step>, n: nat)
    requires r.Proper() && Inv(r, disk, before) && n <= |steps|
    ensures var (d, b) := At(r, disk, before, steps, n); Inv(r, d, b)
  {
    hide Inv, Transact;
    if n > 0 {
      RunKeeps(r, disk, before, steps, n - 1);
      var (d, b) := At(r, disk, before, steps, n - 1);
      var step := steps[n - 1];
      TransactKeeps(r, d, b, step.expected, step.request, step.stamp, step.faults);
    }
  }

  lemma {:induction false} AtNext(r: Registry, disk: Disk, before: Document, steps: seq<Step>, n: nat)
    requires n < |steps|
    ensures At(r, disk, before, steps, n + 1).0 == Next(r, At(r, disk, before, steps, n).0, steps[n])
  {
    hide Next;
  }

  lemma {:induction false} StepOutcome(r: Registry, disk: Disk, step: Step)
    ensures var (next, outcome) := (Next(r, disk, step), Outcome(r, disk, step));
      && (outcome.Success? ==>
            step.expected == disk.document.revision && next.document.revision == disk.document.revision + 1)
      && (outcome.Failure? && !step.faults.restore ==> next.document == disk.document && next.audit == disk.audit)
      && disk.document.revision <= next.document.revision
  {
    TransactOutcome(r, disk, step.expected, step.request, step.stamp, step.faults);
    hide Transact;
  }

  lemma {:induction false} RevisionsClimb(r: Registry, disk: Disk, before: Document, steps: seq<Step>, m: nat, n: nat)
    requires m <= n <= |steps|
    ensures At(r, disk, before, steps, m).0.document.revision <= At(r, disk, before, steps, n).0.document.revision
    decreases n
  {
    hide Next, Outcome;
    if m < n {
      RevisionsClimb(r, disk, before, steps, m, n - 1);
      StepOutcome(r, At(r, disk, before, steps, n - 1).0, steps[n - 1]);
    }
  }

  /** No update is lost over any interleaving of stores and failures: every winner expected
      the revision it found and left the next one, later winners expected strictly later
      revisions, and so no two requests that expect the same revision both win. */
  lemma {:induction false} NoLostUpdate(r: Registry, disk: Disk, before: Document, steps: seq<Step>, i: nat, j: nat)
    requires i < j < |steps|
    ensures Wins(r, disk, before, steps, i) && Wins(r, disk, before, steps, j) ==>
      && steps[i].expected == At(r, disk, before, steps, i).0.document.revision
      && At(r, disk, before, steps, i + 1).0.document.revision == steps[i].expected + 1
      && steps[i].expected < steps[j].expected
  {
    hide At, Wins;
    if Wins(r, disk, before, steps, i) && Wins(r, disk, before, steps, j) {
      Winner(r, disk, before, steps, i);
      Winner(r, disk, before, steps, j);
      RevisionsClimb(r, disk, before, steps, i + 1, j);
    }
  }

  lemma {:induction false} Winner(r: Registry, disk: Disk, before: Document, steps: seq<Step>, i: nat)
    requires i < |steps| && Wins(r, disk, before, steps, i)
    ensures steps[i].expected == At(r, disk, before, steps, i).0.document.revision
    ensures At(r, disk, before, steps, i + 1).0.document.revision == steps[i].expected + 1
  {
    hide At, Next, Outcome;
    AtNext(r, disk, before, steps, i);
    StepOutcome(r, At(r, disk, before, steps, i).0, steps[i]);
  }

  /** How many of the first `n` steps committed. */
  function Commits(r: Registry, disk: Disk, before: Document, steps: seq<Step>, n: nat): nat
    requires n <= |steps|
  {
    if n == 0 then 0
    else Commits(r, disk, before, steps, n - 1) + if Wins(r, disk, before, steps, n - 1) then 1 else 0
  }

  /** While every restoring write succeeds, the revision counts the commits. */
  lemma {:induction false} RevisionCountsCommits(r: Registry, disk: Disk, before: Document, steps: seq<Step>, n: nat)
    requires n <= |steps| && forall i :: 0 <= i < n ==> !steps[i].faults.restore
    ensures At(r, disk, before, steps, n).0.document.revision == disk.document.revision + Commits(r, disk, before, steps, n)
  {
    hide Next, Outcome;
    if n > 0 {
      RevisionCountsCommits(r, disk, before, steps, n - 1);
      StepOutcome(r, At(r, disk, before, steps, n - 1).0, steps[n - 1]);
    }
  }

  /** An empty directory satisfies the invariant. */
  lemma {:induction false} EmptyKeeps(r: Registry)
    requires r.documentSize(EMPTY_DOCUMENT) <= MAX_CONFIGURATION_BYTES
    ensures Inv(r, Disk(None, EMPTY_DOCUMENT, []), EMPTY_DOCUMENT)
  {
    assert Latest([], 0) == [];
  }

  // ------------------------------------------------------------------------------- undo

  /** What undo would write, ignoring the size limits. */
  function UndoDocument(r: Registry, disk: Disk): Result<Document, Error> {
    var reverted := Reverted(r, disk.document, Latest(disk.audit, disk.document.revision));
    if reverted.Failure? then reverted else Success(reverted.value.(revision := disk.document.revision + 1))
  }

  function LatestOf(disk: Disk): seq<Mutation> { Latest(disk.audit, disk.document.revision) }

  /** When an undo commits, and what it writes, in terms of what it would write. */
  lemma {:induction false} UndoOutcome(r: Registry, disk: Disk, expected: int, stamp: Stamp, faults: Faults)
    requires AuditBounded(r, disk)
    ensures var (next, outcome) := Transact(r, disk, expected, Undo, stamp, faults);
      var latest := LatestOf(disk);
      var planned := expected == disk.document.revision && latest != [] && latest[|latest| - 1].address.key != r.documentKey
        && UndoDocument(r, disk).Success? && DocumentValid(r, UndoDocument(r, disk).value);
      && (!planned ==> outcome.Failure? && next == disk)
      && (planned ==> (outcome.Success? <==>
            && r.lineSize(UndoEntry(r, disk.document, latest, stamp)) + 1 <= MAX_CONFIGURATION_BYTES
            && !faults.previous && !faults.document && !faults.audit))
      && (outcome.Success? ==> next.document == UndoDocument(r, disk).value && outcome.value == [UndoEntry(r, disk.document, latest, stamp)])
      && (next.document != disk.document ==> next.document == UndoDocument(r, disk).value)
  {
    HistoryIsAudit(r, disk);
    var latest := LatestOf(disk);
    if latest != [] {
      LineBytes(r, UndoEntry(r, disk.document, latest, stamp));
    }
    hide AuditBounded, Latest, OlderKept, Reverted, History, DocumentValid, Bytes, UndoEntry;
  }

  /** An entry that only names its change is never undone. */
  lemma {:induction false} NamedNotUndone(r: Registry, disk: Disk)
    requires r.Proper() && OnlyNames(r, LatestOf(disk)) && LatestOf(disk)[0].address.key != r.documentKey
    ensures UndoDocument(r, disk).Success? ==> !DocumentValid(r, UndoDocument(r, disk).value)
  {
    var latest := LatestOf(disk);
    assert latest == [latest[0]];
    hide Latest, Reverted, DocumentValid;
    BatchNoteRefused(r, disk.document, latest[0], disk.document.revision + 1);
  }

  /** In every reachable state, for any audit history, an undo that commits, or fails and leaves
      its document behind, restores exactly the content before the last commit. */
  lemma {:induction false} UndoRestores(r: Registry, disk: Disk, before: Document, expected: int, stamp: Stamp, faults: Faults)
    requires r.Proper() && Inv(r, disk, before)
    requires var (next, outcome) := Transact(r, disk, expected, Undo, stamp, faults);
      outcome.Success? || next.document != disk.document
    ensures SameContent(Transact(r, disk, expected, Undo, stamp, faults).0.document, before)
  {
    UndoOutcome(r, disk, expected, stamp, faults);
    hide Transact, DocumentValid, Reverted, Latest, UndoEntry, Describes, SameContent, AuditBounded;
    if OnlyNames(r, LatestOf(disk)) {
      NamedNotUndone(r, disk);
      assert false;
    } else {
      UndoDocumentInverts(r, disk, before);
    }
  }

  lemma {:induction false} UndoDocumentInverts(r: Registry, disk: Disk, before: Document)
    requires Describes(r, LatestOf(disk), before, disk.document)
    ensures UndoDocument(r, disk).Success? && SameContent(UndoDocument(r, disk).value, before)
  {
    hide Latest, Describes, Reverted, SameContent;
    RevertedInverts(r, LatestOf(disk), before, disk.document);
    var e := Reverted(r, disk.document, LatestOf(disk)).value;
    RevisionKeepsContent(e, disk.document.revision + 1);
    SameContentTransitive(before, e, UndoDocument(r, disk).value);
  }

  lemma {:induction false} SameContentTransitive(a: Document, b: Document, c: Document)
    requires SameContent(b, a) && SameContent(b, c)
    ensures SameContent(c, a)
  {
    hide Entry;
  }

  /** Exactly when an undo commits: it expects the current revision, the last commit was not
      a whole-document change or a batch undo and has its entries, the restored document and
      the new line fit their limits, and no write raises. */
  lemma {:induction false} UndoAccepted(r: Registry, disk: Disk, before: Document, expected: int, stamp: Stamp, faults: Faults)
    requires r.Proper() && Inv(r, disk, before)
    ensures LatestOf(disk) != [] && !OnlyNames(r, LatestOf(disk)) ==> UndoDocument(r, disk).Success?
    ensures var latest := LatestOf(disk);
      Transact(r, disk, expected, Undo, stamp, faults).1.Success? <==>
        && expected == disk.document.revision
        && latest != [] && !OnlyNames(r, latest)
        && r.documentSize(UndoDocument(r, disk).value) <= MAX_CONFIGURATION_BYTES
        && r.lineSize(UndoEntry(r, disk.document, latest, stamp)) + 1 <= MAX_CONFIGURATION_BYTES
        && !faults.previous && !faults.document && !faults.audit
  {
    UndoOutcome(r, disk, expected, stamp, faults);
    hide Transact, UndoDocument, LatestOf, UndoEntry, ContentValid, AuditBounded, Describes;
    var latest := LatestOf(disk);
    if OnlyNames(r, latest) && latest[0].address.key != r.documentKey {
      NamedNotUndone(r, disk);
    } else if latest != [] && !OnlyNames(r, latest) {
      UndoIsValid(r, disk, before);
    }
  }

  lemma {:induction false} LineBytes(r: Registry, m: Mutation)
    ensures Bytes(r, [m]) == r.lineSize(m) + 1
  {
    assert [m][..0] == [];
  }

  lemma {:induction false} UndoIsValid(r: Registry, disk: Disk, before: Document)
    requires r.Proper() && Inv(r, disk, before) && LatestOf(disk) != [] && !OnlyNames(r, LatestOf(disk))
    ensures UndoDocument(r, disk).Success? && ContentValid(r, UndoDocument(r, disk).value)
    ensures LatestOf(disk)[|LatestOf(disk)| - 1].address.key != r.documentKey
  {
    hide Latest, UndoDocument, ContentValid, Entry, SameContent, DocumentValid, AuditBounded, Placing;
    var latest := LatestOf(disk);
    assert EntryTells(r, latest[|latest| - 1], before, disk.document);
    UndoDocumentInverts(r, disk, before);
    SameContentSymmetric(UndoDocument(r, disk).value, before);
    SameContentValid(r, before, UndoDocument(r, disk).value);
  }

  lemma {:induction false} SameContentSymmetric(a: Document, b: Document)
    requires SameContent(a, b)
    ensures SameContent(b, a)
  {
    hide Entry;
  }

  /** While the revision stays, so does the document it replaced. */
  lemma {:induction false} BeforeStays(r: Registry, disk: Disk, before: Document, steps: seq<Step>, m: nat, n: nat)
    requires m <= n <= |steps|
    requires At(r, disk, before, steps, m).0.document.revision == At(r, disk, before, steps, n).0.document.revision
    ensures At(r, disk, before, steps, m).1 == At(r, disk, before, steps, n).1
    decreases n
  {
    hide Next, Outcome;
    if m < n {
      RevisionsClimb(r, disk, before, steps, m, n - 1);
      RevisionsClimb(r, disk, before, steps, n - 1, n);
      BeforeStays(r, disk, before, steps, m, n - 1);
    }
  }

  /** Over a whole run: an undo that commits restores the content the directory had before
      the last commit, whatever refused or failed requests came between the two. */
  lemma {:induction false} UndoInRun(r: Registry, disk: Disk, before: Document, steps: seq<Step>, i: nat, j: nat)
    requires r.Proper() && Inv(r, disk, before) && i < j < |steps|
    ensures
      && Wins(r, disk, before, steps, i)
      && At(r, disk, before, steps, i + 1).0.document.revision == At(r, disk, before, steps, j).0.document.revision
      && Wins(r, disk, before, steps, j) && steps[j].request.Undo?
      ==> SameContent(At(r, disk, before, steps, j + 1).0.document, At(r, disk, before, steps, i).0.document)
  {
    hide At, Inv, Transact, SameContent, Wins;
    if Wins(r, disk, before, steps, i) && Wins(r, disk, before, steps, j) && steps[j].request.Undo?
       && At(r, disk, before, steps, i + 1).0.document.revision == At(r, disk, before, steps, j).0.document.revision {
      Winner(r, disk, before, steps, i);
      AtBefore(r, disk, before, steps, i);
      BeforeStays(r, disk, before, steps, i + 1, j);
      RunKeeps(r, disk, before, steps, j);
      AtNext(r, disk, before, steps, j);
      var (d, b) := At(r, disk, before, steps, j);
      WinsMeans(r, disk, before, steps, j);
      UndoRestores(r, d, b, steps[j].expected, steps[j].stamp, steps[j].faults);
    }
  }

  lemma {:induction false} WinsMeans(r: Registry, disk: Disk, before: Document, steps: seq<Step>, j: nat)
    requires j < |steps| && Wins(r, disk, before, steps, j)
    ensures Outcome(r, At(r, disk, before, steps, j).0, steps[j]).Success?
  {
    hide At, Outcome;
  }

  lemma {:induction false} AtBefore(r: Registry, disk: Disk, before: Document, steps: seq<Step>, n: nat)
    requires n < |steps|
    requires At(r, disk, before, steps, n).0.document.revision < At(r, disk, before, steps, n + 1).0.document.revision
    ensures At(r, disk, before, steps, n + 1).1 == At(r, disk, before, steps, n).0.document
  {
    hide Next;
  }

  /** Undoing an undo redoes the change, and so on for any number of undos. */
  lemma {:induction false} UndoTwiceRedoes(r: Registry, disk: Disk, before: Document, first: Step, second: Step)
    requires r.Proper() && Inv(r, disk, before)
    requires first.request.Undo? && second.request.Undo?
    ensures Outcome(r, disk, first).Success? && Outcome(r, Next(r, disk, first), second).Success? ==>
      SameContent(Next(r, Next(r, disk, first), second).document, disk.document)
  {
    TransactKeeps(r, disk, before, first.expected, Undo, first.stamp, first.faults);
    TransactOutcome(r, disk, first.expected, Undo, first.stamp, first.faults);
    hide Transact, Inv, SameContent;
    if Outcome(r, disk, first).Success? && Outcome(r, Next(r, disk, first), second).Success? {
      UndoRestores(r, Next(r, disk, first), disk.document, second.expected, second.stamp, second.faults);
    }
  }

  /** The undo of a batch leaves an entry that only names it, and no undo commits while that
      entry, or that of a whole-document change, is the latest. */
  lemma {:induction false} BatchUndoIsFinal(r: Registry, disk: Disk, before: Document, step: Step)
    requires r.Proper() && Inv(r, disk, before) && step.request.Undo?
    ensures (OnlyNames(r, LatestOf(disk)) ==> Outcome(r, disk, step).Failure? && Next(r, disk, step) == disk)
    ensures |LatestOf(disk)| > 1 && Outcome(r, disk, step).Success? ==> OnlyNames(r, LatestOf(Next(r, disk, step)))
  {
    UndoOutcome(r, disk, step.expected, step.stamp, step.faults);
    TransactKeeps(r, disk, before, step.expected, Undo, step.stamp, step.faults);
    hide Transact, UndoDocument, DocumentValid, Inv, Latest;
    var latest := LatestOf(disk);
    if OnlyNames(r, latest) && latest[0].address.key != r.documentKey {
      NamedNotUndone(r, disk);
    }
  }

  /** What commits after a set, reset or batch. */
  lemma {:induction false} ChangesCommit(r: Registry, disk: Disk, step: Step)
    requires Outcome(r, disk, step).Success? || Next(r, disk, step).document != disk.document
    requires step.request.Set? || step.request.Reset? || step.request.Batch?
    ensures var changes := Requested(step.request);
      && FirstError(r, changes).None? && 1 <= |changes| <= MAX_BATCH_CHANGES
      && Changed(r, disk.document, changes, step.stamp).Success?
      && (Outcome(r, disk, step).Success? ==>
            Outcome(r, disk, step).value == Changed(r, disk.document, changes, step.stamp).value.mutations)
      && Next(r, disk, step).document ==
           Changed(r, disk.document, changes, step.stamp).value.document.(revision := disk.document.revision + 1)
  {
    hide DocumentValid, Changed, FirstError, Appended, History;
  }

  lemma {:induction false} ChangesNamed(r: Registry, d: Document, changes: seq<Change>, stamp: Stamp)
    requires Changed(r, d, changes, stamp).Success?
    ensures var mutations := Changed(r, d, changes, stamp).value.mutations;
      forall i :: 0 <= i < |changes| ==>
        mutations[i].address == changes[i].address && mutations[i].value == changes[i].value && mutations[i].operation != UndoChange
  {
    hide Put, Placing, Entry;
    if changes != [] {
      ChangesNamed(r, d, changes[..|changes| - 1], stamp);
    }
  }

  /** A committed set, reset or batch: every requested value reads back, every requested
      reset is gone, and nothing else changes. */
  lemma {:induction false} ChangesReadBack(r: Registry, disk: Disk, step: Step)
    requires step.request.Set? || step.request.Reset? || step.request.Batch?
    requires Outcome(r, disk, step).Success?
    ensures var changes := Requested(step.request);
      forall i :: 0 <= i < |changes| ==> Entry(Next(r, disk, step).document, changes[i].address) == changes[i].value
    ensures var changes := Requested(step.request);
      forall a :: (forall i :: 0 <= i < |changes| ==> changes[i].address != a) ==>
        Entry(Next(r, disk, step).document, a) == Entry(disk.document, a)
  {
    var d, changes := disk.document, Requested(step.request);
    ChangesCommit(r, disk, step);
    hide Next, Outcome, Changed, FirstError, Describes, Entry;
    ChangesNamed(r, d, changes, step.stamp);
    ChangesPlanTells(r, d, changes, step.stamp);
    var p := Changed(r, d, changes, step.stamp).value;
    var after := p.document.(revision := d.revision + 1);
    RevisionKeepsContent(p.document, d.revision + 1);
    DescribesReads(r, p.mutations, d, p.document);
    forall i | 0 <= i < |changes| ensures Entry(after, changes[i].address) == changes[i].value {
      assert Entry(p.document, p.mutations[i].address) == p.mutations[i].value;
    }
    forall a | forall i :: 0 <= i < |changes| ==> changes[i].address != a ensures Entry(after, a) == Entry(d, a) {
      assert !Touches(p.mutations, a);
    }
  }

  lemma {:induction false} DescribesReads(r: Registry, entries: seq<Mutation>, before: Document, after: Document)
    requires Describes(r, entries, before, after)
    ensures forall i :: 0 <= i < |entries| ==> Entry(after, entries[i].address) == entries[i].value
    ensures forall a :: !Touches(entries, a) ==> Entry(after, a) == Entry(before, a)
  {
    hide Entry, Placing;
    forall i | 0 <= i < |entries| ensures Entry(after, entries[i].address) == entries[i].value {
      assert EntryTells(r, entries[i], before, after);
    }
  }

  /** A committed whole-document change: the replacement's content, or the old content
      without one UI's whole section. */
  lemma {:induction false} WholeDocumentWrites(r: Registry, disk: Disk, step: Step)
    requires Outcome(r, disk, step).Success?
    ensures step.request.Replace? ==> SameContent(Next(r, disk, step).document, step.request.document)
    ensures step.request.RemoveProfile? ==>
      var (profile, next) := (step.request.profile, Next(r, disk, step).document);
      && profile in disk.document.uis && profile !in next.uis
      && forall a :: Entry(next, a) == if a.scope == Ui && a.target == Some(profile) then None else Entry(disk.document, a)
  {
    hide DocumentValid, Appended, FirstError, Changed, Undone, RemovalRestart, SameContent, Entry;
    var d := disk.document;
    if step.request.Replace? {
      RevisionKeepsContent(step.request.document, d.revision + 1);
      SameContentSymmetric(step.request.document, step.request.document.(revision := d.revision + 1));
    }
    if step.request.RemoveProfile? {
      ProfileRemoved(d, step.request.profile, d.revision + 1);
    }
  }

  lemma {:induction false} ProfileRemoved(d: Document, profile: Name, revision: nat)
    ensures var e := d.(uis := d.uis - {profile}, revision := revision);
      forall a :: Entry(e, a) == if a.scope == Ui && a.target == Some(profile) then None else Entry(d, a)
  {
    var e := d.(uis := d.uis - {profile}, revision := revision);
    forall a: Address | Shaped(a.scope, a.target)
      ensures SectionAt(e, a.scope, a.target) == if a.scope == Ui && a.target == Some(profile) then map[] else SectionAt(d, a.scope, a.target)
    {}
    hide SectionAt;
  }

  /** A single valid change with an effect commits when it expects the current revision, its
      line fits and no write raises. */
  lemma {:induction false} OneChangeCommits(r: Registry, disk: Disk, step: Step, c: Change)
    requires (step.request.Set? || step.request.Reset?) && Requested(step.request) == [c]
    requires step.expected == disk.document.revision && step.faults == Faults(false, false, false, false)
    requires ChangeError(r, c).None? && Placing(r, c.address).None? && Entry(disk.document, c.address) != c.value
    requires Shaped(c.address.scope, c.address.target)
    requires DocumentValid(r, Put(disk.document, c.address, c.value).(revision := disk.document.revision + 1))
    requires r.lineSize(MutationOf(r, disk.document, c, step.stamp)) + 1 <= MAX_CONFIGURATION_BYTES
    ensures Outcome(r, disk, step) == Success([MutationOf(r, disk.document, c, step.stamp)])
    ensures Next(r, disk, step).document == Put(disk.document, c.address, c.value).(revision := disk.document.revision + 1)
  {
    var d, m := disk.document, MutationOf(r, disk.document, c, step.stamp);
    assert [c][..0] == [] && [c][1..] == [] && FirstError(r, []).None?;
    assert Changed(r, d, [], step.stamp) == Success(Plan(d, []));
    assert Changed(r, d, [c], step.stamp) == Success(Plan(Put(d, c.address, c.value), [m])) by {
      assert [] + [m] == [m];
    }
    LineBytes(r, m);
    hide Put, DocumentValid, Bytes, OlderKept, Changed, Entry;
  }
}
