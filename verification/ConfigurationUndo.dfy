/** When a change followed by its undo gives back the very document. */
module ConfigurationUndo {
  import opened Wrappers
  import opened Configuration
  import opened ConfigurationPlan
  import opened ConfigurationRuns

  // And not only its content: `_section` creates the sections it is asked for
  // (`src/tfr/gateway_configuration.py`).

  /** The section of an address exists, as the single one of its scope or for its target. */
  predicate HasSection(d: Document, a: Address) {
    SingleSection(a.scope) || (a.target.Some? && a.target.value in Targeted(d, a.scope))
  }

  function ChangeAddresses(changes: seq<Change>): seq<Address> {
    seq(|changes|, i requires 0 <= i < |changes| => changes[i].address)
  }

  function EntryAddresses(entries: seq<Mutation>): seq<Address> {
    seq(|entries|, i requires 0 <= i < |entries| => entries[i].address)
  }

  /** Some address is in the section of this target. */
  ghost predicate InSection(addresses: seq<Address>, scope: Scope, t: Name) {
    exists a :: a in addresses && a.scope == scope && a.target == Some(t)
  }

  /** `e` has the targets of `d` and those of the addresses, and no others. */
  ghost predicate AddsTargets(d: Document, e: Document, addresses: seq<Address>) {
    forall scope, t :: !SingleSection(scope) ==>
      (t in Targeted(e, scope) <==> t in Targeted(d, scope) || InSection(addresses, scope, t))
  }

  lemma {:induction false} PutTarget(d: Document, a: Address, value: Option<Value>, scope: Scope, t: Name)
    requires Shaped(a.scope, a.target) && !SingleSection(scope)
    ensures t in Targeted(Put(d, a, value), scope) <==> t in Targeted(d, scope) || (a.scope == scope && a.target == Some(t))
  {
    var section := SectionAt(d, a.scope, a.target);
    var section' := if value.Some? then section[a.key := value.value] else section - {a.key};
    WithSectionTargets(d, a.scope, a.target, section', scope, t);
    hide SectionAt, WithSection, Targeted;
  }

  lemma {:induction false} PutTargets(d: Document, a: Address, value: Option<Value>)
    requires Shaped(a.scope, a.target)
    ensures AddsTargets(d, Put(d, a, value), [a])
  {
    hide Put, Targeted;
    forall scope, t | !SingleSection(scope)
      ensures t in Targeted(Put(d, a, value), scope) <==> t in Targeted(d, scope) || InSection([a], scope, t)
    {
      PutTarget(d, a, value, scope, t);
      assert a in [a];
    }
  }

  lemma {:induction false} WithSectionTargets(d: Document, scope: Scope, target: Option<Name>, section: Section, scope': Scope, t: Name)
    requires Shaped(scope, target) && !SingleSection(scope')
    ensures t in Targeted(WithSection(d, scope, target, section), scope') <==>
      t in Targeted(d, scope') || (scope' == scope && target == Some(t))
  {
  }

  lemma {:induction false} AddsTwice(d: Document, e: Document, f: Document, a: seq<Address>, b: seq<Address>, c: seq<Address>)
    requires AddsTargets(d, e, a) && AddsTargets(e, f, b)
    requires forall x :: x in c <==> x in a || x in b
    ensures AddsTargets(d, f, c)
  {
    hide Targeted;
    forall scope, t ensures InSection(c, scope, t) <==> InSection(a, scope, t) || InSection(b, scope, t) {}
  }

  lemma {:induction false} AddsNothing(d: Document)
    ensures AddsTargets(d, d, [])
  {
  }

  lemma {:induction false} ChangedTargets(r: Registry, d: Document, changes: seq<Change>, stamp: Stamp)
    requires Changed(r, d, changes, stamp).Success?
    ensures AddsTargets(d, Changed(r, d, changes, stamp).value.document, ChangeAddresses(changes))
  {
    hide AddsTargets, Put, Placing, Entry, Shaped;
    if changes == [] {
      AddsNothing(d);
    } else {
      var init, c := changes[..|changes| - 1], changes[|changes| - 1];
      ChangedTargets(r, d, init, stamp);
      var e := Changed(r, d, init, stamp).value.document;
      PlacingShapes(r, c.address);
      PutTargets(e, c.address, c.value);
      assert ChangeAddresses(changes) == ChangeAddresses(init) + [c.address];
      AddsTwice(d, e, Put(e, c.address, c.value), ChangeAddresses(init), [c.address], ChangeAddresses(changes));
    }
  }

  lemma {:induction false} RevertedTargets(r: Registry, d: Document, entries: seq<Mutation>)
    requires Reverted(r, d, entries).Success?
    ensures AddsTargets(d, Reverted(r, d, entries).value, EntryAddresses(entries))
    decreases |entries|
  {
    hide AddsTargets, Put, Placing, Entry, Shaped;
    if entries == [] {
      AddsNothing(d);
    } else {
      var init, m := entries[..|entries| - 1], entries[|entries| - 1];
      PlacingShapes(r, m.address);
      var e := Put(d, m.address, m.previous);
      PutTargets(d, m.address, m.previous);
      RevertedTargets(r, e, init);
      assert EntryAddresses(entries) == EntryAddresses(init) + [m.address];
      AddsTwice(d, e, Reverted(r, e, init).value, [m.address], EntryAddresses(init), EntryAddresses(entries));
    }
  }

  /** Documents with the same content and the same targets differ at most in their revision. */
  lemma {:induction false} SameDocument(d: Document, e: Document)
    requires SameContent(d, e) && AddsTargets(d, e, [])
    ensures e.(revision := d.revision) == d
  {
    forall scope, target | Shaped(scope, target) ensures SectionAt(d, scope, target) == SectionAt(e, scope, target) {
      forall k ensures k in SectionAt(d, scope, target) <==> k in SectionAt(e, scope, target)
        ensures k in SectionAt(d, scope, target) ==> SectionAt(d, scope, target)[k] == SectionAt(e, scope, target)[k]
      {
        assert Entry(d, Address(scope, target, k)) == Entry(e, Address(scope, target, k));
      }
    }
    forall scope | SingleSection(scope) ensures Single(d, scope) == Single(e, scope) {
      assert SectionAt(d, scope, None) == SectionAt(e, scope, None);
    }
    forall scope | !SingleSection(scope) ensures Targeted(d, scope) == Targeted(e, scope) {
      forall t | t in Targeted(d, scope) ensures Targeted(d, scope)[t] == Targeted(e, scope)[t] {
        assert SectionAt(d, scope, Some(t)) == SectionAt(e, scope, Some(t));
      }
      assert Targeted(d, scope).Keys == Targeted(e, scope).Keys;
    }
    SameParts(d, e);
  }

  lemma {:induction false} SameParts(d: Document, e: Document)
    requires forall scope :: if SingleSection(scope) then Single(d, scope) == Single(e, scope) else Targeted(d, scope) == Targeted(e, scope)
    ensures e.(revision := d.revision) == d
  {
    assert Single(d, Shared) == Single(e, Shared) && Single(d, Gateway) == Single(e, Gateway) && Single(d, Secret) == Single(e, Secret);
    assert Targeted(d, UiType) == Targeted(e, UiType) && Targeted(d, Ui) == Targeted(e, Ui);
    assert Targeted(d, World) == Targeted(e, World) && Targeted(d, Plugin) == Targeted(e, Plugin);
  }

  /** What a committed change followed by a committed undo leaves: the earlier content, and
      the targets of the change besides the earlier ones. */
  lemma {:induction false} ChangeAndUndo(r: Registry, disk: Disk, before: Document, first: Step, second: Step)
    requires r.Proper() && Inv(r, disk, before)
    requires first.request.Set? || first.request.Reset? || first.request.Batch?
    requires second.request.Undo?
    requires Outcome(r, disk, first).Success? && Outcome(r, Next(r, disk, first), second).Success?
    ensures var after := Next(r, Next(r, disk, first), second).document;
      SameContent(after, disk.document) && AddsTargets(disk.document, after, ChangeAddresses(Requested(first.request)))
  {
    var d, changes, middle := disk.document, Requested(first.request), Next(r, disk, first);
    AfterChange(r, disk, before, first);
    hide Transact, Inv, SameContent, AddsTargets, Changed, Reverted, Latest, ChangeAddresses;
    UndoRestores(r, middle, d, second.expected, second.stamp, second.faults);
    UndoTargets(r, middle, d, second);
    TargetsAddUp(d, Changed(r, d, changes, first.stamp).value.document, middle.document,
                 Reverted(r, middle.document, LatestOf(middle)).value, Next(r, middle, second).document, ChangeAddresses(changes));
  }

  /** A committed change leaves its own entries as the latest and has added its targets. */
  lemma {:induction false} AfterChange(r: Registry, disk: Disk, before: Document, step: Step)
    requires r.Proper() && Inv(r, disk, before) && Outcome(r, disk, step).Success?
    requires step.request.Set? || step.request.Reset? || step.request.Batch?
    ensures var (d, changes, next) := (disk.document, Requested(step.request), Next(r, disk, step));
      var p := Changed(r, d, changes, step.stamp);
      && Inv(r, next, d) && p.Success? && next.document == p.value.document.(revision := next.document.revision)
      && EntryAddresses(LatestOf(next)) == ChangeAddresses(changes)
      && AddsTargets(d, p.value.document, ChangeAddresses(changes))
  {
    var d, changes := disk.document, Requested(step.request);
    hide Transact, Inv, AddsTargets, Changed, FirstError, Latest, EntryAddresses, ChangeAddresses;
    TransactKeeps(r, disk, before, step.expected, step.request, step.stamp, step.faults);
    TransactOutcome(r, disk, step.expected, step.request, step.stamp, step.faults);
    ChangesCommit(r, disk, step);
    ChangesNamed(r, d, changes, step.stamp);
    ChangedTargets(r, d, changes, step.stamp);
    AddressesSame(Outcome(r, disk, step).value, changes);
  }

  lemma {:induction false} AddressesSame(entries: seq<Mutation>, changes: seq<Change>)
    requires |entries| == |changes| && forall i :: 0 <= i < |changes| ==> entries[i].address == changes[i].address
    ensures EntryAddresses(entries) == ChangeAddresses(changes)
  {
  }

  /** A committed undo adds the targets of the entries it takes back. */
  lemma {:induction false} UndoTargets(r: Registry, disk: Disk, before: Document, step: Step)
    requires Inv(r, disk, before) && step.request.Undo? && Outcome(r, disk, step).Success?
    ensures var (reverted, next) := (Reverted(r, disk.document, LatestOf(disk)), Next(r, disk, step));
      && reverted.Success? && next.document == reverted.value.(revision := next.document.revision)
      && AddsTargets(disk.document, reverted.value, EntryAddresses(LatestOf(disk)))
  {
    InvBounds(r, disk, before);
    hide Inv;
    UndoOutcome(r, disk, step.expected, step.stamp, step.faults);
    hide Transact, AddsTargets, Reverted, Latest, DocumentValid;
    RevertedTargets(r, disk.document, LatestOf(disk));
  }

  lemma {:induction false} InvBounds(r: Registry, disk: Disk, before: Document)
    requires Inv(r, disk, before)
    ensures AuditBounded(r, disk)
  {
  }

  /** Revisions do not matter to targets, and adding the same ones twice is adding them once. */
  lemma {:induction false} TargetsAddUp(d: Document, e: Document, e': Document, f: Document, f': Document, addresses: seq<Address>)
    requires AddsTargets(d, e, addresses) && e' == e.(revision := e'.revision)
    requires AddsTargets(e', f, addresses) && f' == f.(revision := f'.revision)
    ensures AddsTargets(d, f', addresses)
  {
    forall scope | !SingleSection(scope) ensures Targeted(e', scope) == Targeted(e, scope) && Targeted(f', scope) == Targeted(f, scope) {}
    hide Targeted, InSection;
  }

  /** The section of the address exists and is empty. */
  ghost predicate LeftEmpty(d: Document, a: Address) {
    HasSection(d, a) && Shaped(a.scope, a.target) && SectionAt(d, a.scope, a.target) == map[]
  }

  /** The documents are equal, revision aside, exactly when every address had a section in the
      earlier one; the sections it did not have are left empty. */
  ghost predicate ReturnsExactly(d: Document, after: Document, addresses: seq<Address>) {
    && (after.(revision := d.revision) == d <==> forall a :: a in addresses ==> HasSection(d, a))
    && forall a :: a in addresses && !HasSection(d, a) ==> LeftEmpty(after, a)
  }

  /** Exactly when undo gives back the very document, revision aside: when every target that
      the change touched already had a section. Each section it made is left behind empty. */
  lemma {:induction false} UndoRestoresDocumentIff(r: Registry, disk: Disk, before: Document, first: Step, second: Step)
    requires r.Proper() && Inv(r, disk, before)
    requires first.request.Set? || first.request.Reset? || first.request.Batch?
    requires second.request.Undo?
    ensures Outcome(r, disk, first).Success? && Outcome(r, Next(r, disk, first), second).Success? ==>
      ReturnsExactly(disk.document, Next(r, Next(r, disk, first), second).document, ChangeAddresses(Requested(first.request)))
  {
    if Outcome(r, disk, first).Success? && Outcome(r, Next(r, disk, first), second).Success? {
      ChangeAndUndo(r, disk, before, first, second);
      ChangesPlaced(r, disk, first);
      hide Inv, Next, Outcome;
      var changes := Requested(first.request);
      var after := Next(r, Next(r, disk, first), second).document;
      hide SameContent, AddsTargets, HasSection, ReturnsExactly;
      SameIff(disk.document, after, ChangeAddresses(changes));
    }
  }

  lemma {:induction false} ChangesPlaced(r: Registry, disk: Disk, step: Step)
    requires step.request.Set? || step.request.Reset? || step.request.Batch?
    requires Outcome(r, disk, step).Success?
    ensures forall a :: a in ChangeAddresses(Requested(step.request)) ==> Shaped(a.scope, a.target)
  {
    ChangesCommit(r, disk, step);
    hide Outcome, Next;
    ChangedPlaced(r, disk.document, Requested(step.request), step.stamp);
  }

  lemma {:induction false} ChangedPlaced(r: Registry, d: Document, changes: seq<Change>, stamp: Stamp)
    requires Changed(r, d, changes, stamp).Success?
    ensures forall a :: a in ChangeAddresses(changes) ==> Shaped(a.scope, a.target)
  {
    hide Put, Placing, Entry, Shaped;
    if changes != [] {
      var init, c := changes[..|changes| - 1], changes[|changes| - 1];
      ChangedPlaced(r, d, init, stamp);
      PlacingShapes(r, c.address);
      assert ChangeAddresses(changes) == ChangeAddresses(init) + [c.address];
    }
  }

  lemma {:induction false} SameIff(d: Document, after: Document, addresses: seq<Address>)
    requires SameContent(after, d) && AddsTargets(d, after, addresses)
    requires forall a :: a in addresses ==> Shaped(a.scope, a.target)
    ensures ReturnsExactly(d, after, addresses)
  {
    if forall a :: a in addresses ==> HasSection(d, a) {
      NoNewTargets(d, after, addresses);
      SameContentSymmetric(after, d);
      hide SameContent, AddsTargets;
      SameDocument(d, after);
    }
    forall a | a in addresses && !HasSection(d, a)
      ensures after.(revision := d.revision) != d
      ensures LeftEmpty(after, a)
    {
      NewTargetEmpty(d, after, addresses, a);
    }
  }

  lemma {:induction false} NoNewTargets(d: Document, after: Document, addresses: seq<Address>)
    requires AddsTargets(d, after, addresses) && forall a :: a in addresses ==> HasSection(d, a)
    ensures AddsTargets(d, after, [])
  {
    hide Targeted;
  }

  lemma {:induction false} NewTargetEmpty(d: Document, after: Document, addresses: seq<Address>, a: Address)
    requires SameContent(after, d) && AddsTargets(d, after, addresses)
    requires a in addresses && Shaped(a.scope, a.target) && !HasSection(d, a)
    ensures after.(revision := d.revision) != d
    ensures LeftEmpty(after, a)
  {
    assert InSection(addresses, a.scope, a.target.value);
    assert a.target.value in Targeted(after, a.scope);
    SameTargets(after, d.revision, a.scope);
    SameContentSymmetric(after, d);
    hide InSection;
    EmptyFromContent(d, after, a.scope, a.target.value);
  }

  lemma {:induction false} SameTargets(d: Document, revision: nat, scope: Scope)
    requires !SingleSection(scope)
    ensures Targeted(d.(revision := revision), scope) == Targeted(d, scope)
  {
  }

  lemma {:induction false} EmptyFromContent(before: Document, after: Document, scope: Scope, t: Name)
    requires SameContent(before, after) && !SingleSection(scope)
    requires t !in Targeted(before, scope) && t in Targeted(after, scope)
    ensures Targeted(after, scope)[t] == map[]
  {
    forall k ensures k !in Targeted(after, scope)[t] {
      assert Entry(after, Address(scope, Some(t), k)) == Entry(before, Address(scope, Some(t), k));
    }
    assert Targeted(after, scope)[t].Keys == {};
  }

  /** A concrete case: an empty directory, one UI setting, and its undo. */
  function FirstSetting(t: Name, k: Key, v: Value, stamp: Stamp): Step {
    Step(0, Set(Address(Ui, Some(t), k), v), stamp, Faults(false, false, false, false))
  }

  function ItsUndo(stamp: Stamp): Step { Step(1, Undo, stamp, Faults(false, false, false, false)) }

  function OneUiSetting(k: Key, blank: Name, documentKey: Key, batchKey: Key): Registry {
    SampleRegistry((key: Key) => if key == k then Some(UiSetting) else None, (n: Name, key: Key) => false, blank, documentKey, batchKey)
  }

  /** Both requests commit, and the document has gained an empty section. */
  lemma {:induction false} UndoLeavesEmptySection(t: Name, blank: Name, k: Key, documentKey: Key, batchKey: Key, v: Value, stamp: Stamp)
    requires t != blank && k !in {documentKey, batchKey} && documentKey != batchKey
    ensures var r := OneUiSetting(k, blank, documentKey, batchKey);
      var disk := Disk(None, EMPTY_DOCUMENT, []);
      var (first, second) := (FirstSetting(t, k, v, stamp), ItsUndo(stamp));
      && r.Proper() && Inv(r, disk, EMPTY_DOCUMENT)
      && Outcome(r, disk, first).Success? && Outcome(r, Next(r, disk, first), second).Success?
      && var after := Next(r, Next(r, disk, first), second).document;
         after.(revision := 0) != EMPTY_DOCUMENT && t in after.uis && after.uis[t] == map[]
  {
    var r := OneUiSetting(k, blank, documentKey, batchKey);
    var disk := Disk(None, EMPTY_DOCUMENT, []);
    var first, second := FirstSetting(t, k, v, stamp), ItsUndo(stamp);
    var a := Address(Ui, Some(t), k);
    EmptyKeeps(r);
    PutEmptyValid(r, a, v);
    OneChangeCommits(r, disk, first, Change(a, Some(v)));
    var middle := Next(r, disk, first);
    SecondCommits(r, disk, a, v, first, second);
    hide Next, Outcome, Inv;
    UndoRestoresDocumentIff(r, disk, EMPTY_DOCUMENT, first, second);
    assert ChangeAddresses(Requested(first.request))[0] == a;
    assert !HasSection(disk.document, a) && a in ChangeAddresses(Requested(first.request));
  }

  lemma {:induction false} PutEmptyValid(r: Registry, a: Address, v: Value)
    requires a.scope == Ui && a.target.Some? && EntryValid(r, a, v) && forall d :: r.documentSize(d) == 0
    ensures Shaped(a.scope, a.target) && DocumentValid(r, Put(EMPTY_DOCUMENT, a, Some(v)).(revision := 1))
  {
    var e := Put(EMPTY_DOCUMENT, a, Some(v));
    assert e == EMPTY_DOCUMENT.(uis := map[a.target.value := map[a.key := v]]);
    hide EntryValid;
  }

  lemma {:induction false} SecondCommits(r: Registry, disk: Disk, a: Address, v: Value, first: Step, second: Step)
    requires r.Proper() && Inv(r, disk, EMPTY_DOCUMENT) && disk == Disk(None, EMPTY_DOCUMENT, [])
    requires first.request == Set(a, v) && Outcome(r, disk, first).Success? && r.setting(a.key).Some?
    requires Outcome(r, disk, first).value == [MutationOf(r, EMPTY_DOCUMENT, Change(a, Some(v)), first.stamp)]
    requires Next(r, disk, first).document.revision == 1
    requires second == ItsUndo(second.stamp) && forall d :: r.documentSize(d) == 0
    requires forall m :: r.lineSize(m) == 0
    ensures Outcome(r, Next(r, disk, first), second).Success?
  {
    var middle := Next(r, disk, first);
    var m := MutationOf(r, EMPTY_DOCUMENT, Change(a, Some(v)), first.stamp);
    TransactKeeps(r, disk, EMPTY_DOCUMENT, first.expected, first.request, first.stamp, first.faults);
    assert LatestOf(middle) == [m];
    hide Transact, Inv, Latest, DocumentValid;
    UndoAccepted(r, middle, Before(disk, EMPTY_DOCUMENT, middle), 1, second.stamp, second.faults);
  }
}
