/** The managed configuration store: objects that share one state directory, each with its
    own possibly stale document and history, which every mutation reloads under the
    directory's lock (`GatewayConfigurationStore` in `src/tfr/gateway_configuration.py`). */
module ConfigurationStore {
  import opened Wrappers
  import opened Sequences
  import opened Configuration
  import opened ConfigurationPlan

  /** The state directory. Each write replaces a whole file, or raises without effect. */
  class Directory {
    var previous: Option<Document>
    var document: Document
    var audit: seq<Mutation>

    ghost function Holds(): Disk
      reads this
    {
      Disk(previous, document, audit)
    }

    constructor ()
      ensures Holds() == Disk(None, EMPTY_DOCUMENT, [])
    {
      previous, document, audit := None, EMPTY_DOCUMENT, [];
    }

    method WritePrevious(d: Document, raises: bool) returns (ok: bool)
      modifies this`previous
      ensures ok == !raises && previous == if ok then Some(d) else old(previous)
    {
      ok := !raises;
      if ok { previous := Some(d); }
    }

    method WriteDocument(d: Document, raises: bool) returns (ok: bool)
      modifies this`document
      ensures ok == !raises && document == if ok then d else old(document)
    {
      ok := !raises;
      if ok { document := d; }
    }

    method WriteAudit(lines: seq<Mutation>, raises: bool) returns (ok: bool)
      modifies this`audit
      ensures ok == !raises && audit == if ok then lines else old(audit)
    {
      ok := !raises;
      if ok { audit := lines; }
    }
  }

  class GatewayConfigurationStore {
    const directory: Directory
    const registry: Registry
    var document: Document
    var history: seq<Mutation>

    constructor (directory: Directory, registry: Registry)
      ensures this.directory == directory && this.registry == registry
      ensures document == directory.document && history == History(directory.Holds())
    {
      this.directory, this.registry := directory, registry;
      document, history := directory.document, LastN(directory.audit, MAX_AUDIT_ENTRIES);
    }

    /** What the store remembers after a committed mutation. */
    ghost predicate Remembers(disk: Disk, mutations: seq<Mutation>)
      reads this, directory
    {
      document == directory.document && history == LastN(History(disk) + mutations, MAX_AUDIT_ENTRIES)
    }

    method Lock()
      modifies this
      ensures document == directory.document && history == History(directory.Holds())
    {
      document, history := directory.document, LastN(directory.audit, MAX_AUDIT_ENTRIES);
    }

    method AppendAudit(newest: seq<Mutation>, raises: bool) returns (error: Option<Error>)
      modifies directory`audit
      ensures var appended := Appended(registry, old(directory.audit), newest);
        && (appended.Failure? ==> error == Some(appended.error))
        && (appended.Success? ==> error == if raises then Some(WriteFailed) else None)
        && (directory.audit == if error.None? then appended.value else old(directory.audit))
    {
      hide Appended;
      var lines := KeepLines(directory.audit, newest);
      if lines.Failure? {
        return Some(lines.error);
      }
      var ok := directory.WriteAudit(lines.value, raises);
      error := if ok then None else Some(WriteFailed);
    }

    /** All the newest lines, and as many older ones as still fit, newest first. */
    method KeepLines(existing: seq<Mutation>, newest: seq<Mutation>) returns (r: Result<seq<Mutation>, Error>)
      ensures r == Appended(registry, existing, newest)
    {
      hide OlderKept;
      var total: nat := 0;
      for i := 0 to |newest|
        invariant total == Bytes(registry, newest[..i])
      {
        assert newest[..i + 1][..i] == newest[..i];
        total := total + registry.lineSize(newest[i]) + 1;
      }
      assert newest[..|newest|] == newest;
      hide Bytes;
      if total > MAX_CONFIGURATION_BYTES {
        return Failure(AuditTooLarge);
      }
      var lines := newest;
      var left: nat := |existing|;
      assert existing[..left] == existing;
      while left > 0 && |lines| < MAX_AUDIT_ENTRIES && total + registry.lineSize(existing[left - 1]) + 1 <= MAX_CONFIGURATION_BYTES
        invariant left <= |existing|
        invariant OlderKept(registry, existing, |newest|, Bytes(registry, newest)) + newest ==
          OlderKept(registry, existing[..left], |lines|, total) + lines
      {
        var line := existing[left - 1];
        OlderKeptStep(registry, existing[..left], |lines|, total, lines);
        assert existing[..left][..left - 1] == existing[..left - 1];
        lines := [line] + lines;
        total := total + registry.lineSize(line) + 1;
        left := left - 1;
      }
      OlderKeptEnds(registry, existing[..left], |lines|, total);
      assert [] + lines == lines;
      return Success(lines);
    }

    /** Save the old document aside, write the new one, then the audit; restore the old one
        if the audit cannot be written. */
    method Commit(proposed: Document, mutations: seq<Mutation>, faults: Faults) returns (r: Result<seq<Mutation>, Error>)
      requires document == directory.document
      modifies this, directory
      ensures (directory.Holds(), r) == Committed(registry, old(directory.Holds()), Plan(proposed, mutations), faults)
      ensures if r.Success? then
                r.value == mutations && document == proposed == directory.document
                && history == LastN(old(history) + mutations, MAX_AUDIT_ENTRIES)
              else document == old(document) && history == old(history)
    {
      hide Appended;
      var previous := document;
      var ok := directory.WritePrevious(previous, faults.previous);
      if !ok {
        return Failure(WriteFailed);
      }
      ok := directory.WriteDocument(proposed, faults.document);
      if !ok {
        return Failure(WriteFailed);
      }
      var error := AppendAudit(mutations, faults.audit);
      if error.Some? {
        ok := directory.WriteDocument(previous, faults.restore);
        return Failure(error.value);
      }
      document := proposed;
      history := LastN(history + mutations, MAX_AUDIT_ENTRIES);
      return Success(mutations);
    }

    /** Validate the proposal as a whole and commit it as the next revision. */
    method Propose(proposed: Document, mutations: seq<Mutation>, faults: Faults) returns (r: Result<seq<Mutation>, Error>)
      requires document == directory.document
      modifies this, directory
      ensures var next := proposed.(revision := old(document.revision) + 1);
        && (DocumentValid(registry, next) ==>
              (directory.Holds(), r) == Committed(registry, old(directory.Holds()), Plan(next, mutations), faults))
        && (!DocumentValid(registry, next) ==> directory.Holds() == old(directory.Holds()) && r == Failure(InvalidDocument))
        && (if r.Success? then r.value == mutations && document == next == directory.document && history == LastN(old(history) + mutations, MAX_AUDIT_ENTRIES)
            else document == old(document) && history == old(history))
    {
      hide DocumentValid, Committed;
      var next := proposed.(revision := document.revision + 1);
      if !DocumentValid(registry, next) {
        return Failure(InvalidDocument);
      }
      r := Commit(next, mutations, faults);
      assert r.Success? ==> r == Committed(registry, old(directory.Holds()), Plan(next, mutations), faults).1;
    }

    /** `set`. */
    method Set(address: Address, value: Value, expected: int, stamp: Stamp, faults: Faults) returns (r: Result<seq<Mutation>, Error>)
      modifies this, directory
      ensures (directory.Holds(), r) == Transact(registry, old(directory.Holds()), expected, Request.Set(address, value), stamp, faults)
      ensures r.Success? ==> Remembers(old(directory.Holds()), r.value)
      ensures r.Failure? ==>
        (document == old(document) && history == old(history))
        || (document == old(directory.document) && history == History(old(directory.Holds())))
    {
      r := Mutate(Request.Set(address, value), Change(address, Some(value)), expected, stamp, faults);
    }

    /** `reset`. */
    method Reset(address: Address, expected: int, stamp: Stamp, faults: Faults) returns (r: Result<seq<Mutation>, Error>)
      modifies this, directory
      ensures (directory.Holds(), r) == Transact(registry, old(directory.Holds()), expected, Request.Reset(address), stamp, faults)
      ensures r.Success? ==> Remembers(old(directory.Holds()), r.value)
      ensures r.Failure? ==>
        (document == old(document) && history == old(history))
        || (document == old(directory.document) && history == History(old(directory.Holds())))
    {
      r := Mutate(Request.Reset(address), Change(address, None), expected, stamp, faults);
    }

    /** `_mutate`, with the checks its callers make first. */
    method Mutate(ghost request: Request, change: Change, expected: int, stamp: Stamp, faults: Faults) returns (r: Result<seq<Mutation>, Error>)
      requires (request.Set? || request.Reset?) && Requested(request) == [change]
      modifies this, directory
      ensures (directory.Holds(), r) == Transact(registry, old(directory.Holds()), expected, request, stamp, faults)
      ensures r.Success? ==> Remembers(old(directory.Holds()), r.value)
      ensures r.Failure? ==>
        (document == old(document) && history == old(history))
        || (document == old(directory.document) && history == History(old(directory.Holds())))
    {
      OneChange(registry, document, change, stamp);
      hide Changed, Committed, DocumentValid, ChangeError, FirstError, Placing, Entry, Put;
      var error := ChangeError(registry, change);
      if error.Some? {
        return Failure(error.value);
      }
      Lock();
      OneChange(registry, document, change, stamp);
      if expected != document.revision {
        return Failure(RevisionConflict);
      }
      var misplaced := Placing(registry, change.address);
      if misplaced.Some? {
        return Failure(misplaced.value);
      }
      if Entry(document, change.address) == change.value {
        return Failure(NoEffect);
      }
      PlacingShapes(registry, change.address);
      r := Propose(Put(document, change.address, change.value), [MutationOf(registry, document, change, stamp)], faults);
    }

    /** `batch`. */
    method Batch(changes: seq<Change>, expected: int, stamp: Stamp, faults: Faults) returns (r: Result<seq<Mutation>, Error>)
      modifies this, directory
      ensures (directory.Holds(), r) == Transact(registry, old(directory.Holds()), expected, Request.Batch(changes), stamp, faults)
      ensures r.Success? ==> Remembers(old(directory.Holds()), r.value)
      ensures r.Failure? ==>
        (document == old(document) && history == old(history))
        || (document == old(directory.document) && history == History(old(directory.Holds())))
    {
      hide Changed, Committed, DocumentValid, FirstError;
      var error := NormalizeBatch(changes);
      if error.Some? {
        return Failure(error.value);
      }
      Lock();
      if expected != document.revision {
        return Failure(RevisionConflict);
      }
      var plan := ApplyBatch(changes, stamp);
      if plan.Failure? {
        return Failure(plan.error);
      }
      r := Propose(plan.value.document, plan.value.mutations, faults);
    }

    method NormalizeBatch(changes: seq<Change>) returns (error: Option<Error>)
      ensures error == Refusal(registry, Request.Batch(changes))
    {
      if !(1 <= |changes| <= MAX_BATCH_CHANGES) {
        return Some(BatchSize);
      }
      hide ChangeError;
      for i := 0 to |changes|
        invariant FirstError(registry, changes) == FirstError(registry, changes[i..])
      {
        error := ChangeError(registry, changes[i]);
        if error.Some? {
          return error;
        }
        assert changes[i..][1..] == changes[i + 1..];
      }
      return None;
    }

    method ApplyBatch(changes: seq<Change>, stamp: Stamp) returns (r: Result<Plan, Error>)
      ensures r == Changed(registry, document, changes, stamp)
    {
      hide Changed, Put, Placing, Entry;
      var proposed := document;
      var mutations: seq<Mutation> := [];
      var seen: set<Address> := {};
      NoChange(registry, document, stamp);
      for i := 0 to |changes|
        invariant Changed(registry, document, changes[..i], stamp) == Success(Plan(proposed, mutations))
        invariant forall a :: a in seen <==> ChangesAt(changes[..i], a)
      {
        var c := changes[i];
        assert changes[..i + 1] == changes[..i] + [c];
        OneMoreChange(registry, document, changes[..i], c, stamp);
        if c.address in seen {
          BatchFails(registry, document, changes, i + 1, stamp);
          return Failure(DuplicateChange);
        }
        var misplaced := Placing(registry, c.address);
        if misplaced.Some? {
          BatchFails(registry, document, changes, i + 1, stamp);
          return Failure(misplaced.value);
        }
        if Entry(document, c.address) == c.value {
          BatchFails(registry, document, changes, i + 1, stamp);
          return Failure(NoEffect);
        }
        PlacingShapes(registry, c.address);
        seen := seen + {c.address};
        proposed := Put(proposed, c.address, c.value);
        mutations := mutations + [MutationOf(registry, document, c, stamp)];
      }
      assert changes[..|changes|] == changes;
      return Success(Plan(proposed, mutations));
    }

    /** `undo`: put back every previous value of the latest revision, newest entry first. */
    method Undo(expected: int, stamp: Stamp, faults: Faults) returns (r: Result<seq<Mutation>, Error>)
      modifies this, directory
      ensures (directory.Holds(), r) == Transact(registry, old(directory.Holds()), expected, Request.Undo, stamp, faults)
      ensures r.Success? ==> Remembers(old(directory.Holds()), r.value)
      ensures r.Failure? ==>
        (document == old(document) && history == old(history))
        || (document == old(directory.document) && history == History(old(directory.Holds())))
    {
      hide Committed, DocumentValid, Latest, Reverted, UndoEntry;
      Lock();
      if expected != document.revision {
        return Failure(RevisionConflict);
      }
      var changes := Latest(history, document.revision);
      if changes == [] {
        return Failure(NothingToUndo);
      }
      if changes[|changes| - 1].address.key == registry.documentKey {
        return Failure(WholeDocument);
      }
      var reverted := Revert(changes);
      if reverted.Failure? {
        return Failure(reverted.error);
      }
      r := Propose(reverted.value, [UndoEntry(registry, document, changes, stamp)], faults);
    }

    method Revert(changes: seq<Mutation>) returns (r: Result<Document, Error>)
      ensures r == Reverted(registry, document, changes)
    {
      hide Put, Placing;
      var proposed := document;
      var left: nat := |changes|;
      while left > 0
        invariant left <= |changes|
        invariant left == |changes| ==> changes[..left] == changes
        invariant Reverted(registry, document, changes) == Reverted(registry, proposed, changes[..left])
      {
        var m := changes[left - 1];
        var misplaced := Placing(registry, m.address);
        if misplaced.Some? {
          return Failure(misplaced.value);
        }
        PlacingShapes(registry, m.address);
        assert changes[..left][..left - 1] == changes[..left - 1];
        proposed := Put(proposed, m.address, m.previous);
        left := left - 1;
      }
      return Success(proposed);
    }

    /** `replace_document`. */
    method ReplaceDocument(replacement: Document, restart: Restart, expected: int, stamp: Stamp, faults: Faults)
      returns (r: Result<seq<Mutation>, Error>)
      modifies this, directory
      ensures (directory.Holds(), r) == Transact(registry, old(directory.Holds()), expected, Replace(replacement, restart), stamp, faults)
      ensures r.Success? ==> Remembers(old(directory.Holds()), r.value)
      ensures r.Failure? ==>
        (document == old(document) && history == old(history))
        || (document == old(directory.document) && history == History(old(directory.Holds())))
    {
      hide Committed, DocumentValid;
      Lock();
      if expected != document.revision {
        return Failure(RevisionConflict);
      }
      r := Propose(replacement, Replaced(registry, document, replacement, restart, stamp).mutations, faults);
    }

    /** `remove_ui_profile`. */
    method RemoveUiProfile(profile: Name, expected: int, stamp: Stamp, faults: Faults) returns (r: Result<seq<Mutation>, Error>)
      modifies this, directory
      ensures (directory.Holds(), r) == Transact(registry, old(directory.Holds()), expected, Request.RemoveProfile(profile), stamp, faults)
      ensures r.Success? ==> Remembers(old(directory.Holds()), r.value)
      ensures r.Failure? ==>
        (document == old(document) && history == old(history))
        || (document == old(directory.document) && history == History(old(directory.Holds())))
    {
      hide Committed, DocumentValid, RemovalRestart;
      if profile == registry.blank {
        return Failure(ProfileInvalid);
      }
      Lock();
      if expected != document.revision {
        return Failure(RevisionConflict);
      }
      if profile !in document.uis {
        return Failure(ProfileMissing);
      }
      var restart := RemovalRestart(registry, document.uis[profile]);
      var plan := Removed(registry, document, profile, restart, stamp).value;
      r := Propose(plan.document, plan.mutations, faults);
    }
  }

  lemma {:induction false} OlderKeptEnds(r: Registry, older: seq<Mutation>, count: nat, total: nat)
    requires older == [] || count >= MAX_AUDIT_ENTRIES || total + r.lineSize(older[|older| - 1]) + 1 > MAX_CONFIGURATION_BYTES
    ensures OlderKept(r, older, count, total) == []
  {
  }

  lemma {:induction false} OlderKeptStep(r: Registry, older: seq<Mutation>, count: nat, total: nat, lines: seq<Mutation>)
    requires older != [] && count < MAX_AUDIT_ENTRIES && total + r.lineSize(older[|older| - 1]) + 1 <= MAX_CONFIGURATION_BYTES
    ensures var line := older[|older| - 1];
      OlderKept(r, older, count, total) + lines ==
        OlderKept(r, older[..|older| - 1], count + 1, total + r.lineSize(line) + 1) + ([line] + lines)
  {
    var line := older[|older| - 1];
    var rest := OlderKept(r, older[..|older| - 1], count + 1, total + r.lineSize(line) + 1);
    assert (rest + [line]) + lines == rest + ([line] + lines);
  }

  predicate ChangesAt(changes: seq<Change>, a: Address) { exists e :: e in changes && e.address == a }

  lemma {:induction false} NoChange(r: Registry, d: Document, stamp: Stamp)
    ensures Changed(r, d, [], stamp) == Success(Plan(d, []))
  {
  }

  /** One more change is checked against those before it and then applied. */
  lemma {:induction false} OneMoreChange(r: Registry, d: Document, done: seq<Change>, c: Change, stamp: Stamp)
    requires Changed(r, d, done, stamp).Success?
    ensures var p := Changed(r, d, done, stamp).value;
      Changed(r, d, done + [c], stamp) ==
        if ChangesAt(done, c.address) then Failure(DuplicateChange)
        else if Placing(r, c.address).Some? then Failure(Placing(r, c.address).value)
        else if Entry(d, c.address) == c.value then Failure(NoEffect)
        else Success(Plan(Put(p.document, c.address, c.value), p.mutations + [MutationOf(r, d, c, stamp)]))
    ensures forall a :: ChangesAt(done + [c], a) <==> ChangesAt(done, a) || a == c.address
  {
    hide Put, Placing, Entry;
    assert (done + [c])[..|done|] == done;
    PlacingShapes(r, c.address);
    assert c in done + [c];
    forall e | e in done ensures e in done + [c] {}
  }

  /** The first failing change decides how the batch fails. */
  lemma {:induction false} BatchFails(r: Registry, d: Document, changes: seq<Change>, n: nat, stamp: Stamp)
    requires n <= |changes| && Changed(r, d, changes[..n], stamp).Failure?
    ensures Changed(r, d, changes, stamp) == Changed(r, d, changes[..n], stamp)
    decreases |changes|
  {
    if n == |changes| {
      assert changes[..n] == changes;
    } else {
      var init := changes[..|changes| - 1];
      assert init[..n] == changes[..n];
      BatchFails(r, d, init, n, stamp);
    }
  }

  /** A single change is a batch of one. */
  lemma {:induction false} OneChange(r: Registry, d: Document, c: Change, stamp: Stamp)
    ensures FirstError(r, [c]) == ChangeError(r, c)
    ensures Changed(r, d, [c], stamp) ==
      if Placing(r, c.address).Some? then Failure(Placing(r, c.address).value)
      else if Entry(d, c.address) == c.value then Failure(NoEffect)
      else
        Success(Plan(Put(d, c.address, c.value), [MutationOf(r, d, c, stamp)]))
  {
    NoChange(r, d, stamp);
    OneMoreChange(r, d, [], c, stamp);
    assert [] + [c] == [c] && [c][1..] == [];
    assert [] + [MutationOf(r, d, c, stamp)] == [MutationOf(r, d, c, stamp)];
    assert FirstError(r, []).None?;
  }
}
