/** The managed layer of the effective-value index against the stored document. */
module ConfigurationIndex {
  import opened Wrappers
  import opened Sequences
  import opened Configuration
  import opened ConfigurationPlan
  import opened ConfigurationRuns
  import opened ConfigurationValues
  import opened TargetNames

  // The initial load and the synchronisation after each confirmed request (`src/tfr/gateway.py`).

  /** The managed layer, without its details. */
  type Managed = map<Key, Stored>

  predicate Indexed(scope: Scope) { scope !in {Ui, UiType} }

  /** `_sync_gateway_configuration_value`: record the current value of one address, or clear
      its key. UI sections are not indexed. */
  function Synced(c: Catalog, managed: Managed, d: Document, a: Address): Managed {
    if !Indexed(a.scope) then managed
    else if Entry(d, a).Some? then managed[a.key := Storing(c, a.key, Entry(d, a).value)]
    else managed - {a.key}
  }

  function SyncedAll(c: Catalog, managed: Managed, d: Document, entries: seq<Mutation>): Managed {
    if entries == [] then managed
    else Synced(c, SyncedAll(c, managed, d, entries[..|entries| - 1]), d, entries[|entries| - 1].address)
  }

  /** An indexed address that holds a value. */
  ghost predicate Holds(d: Document, a: Address) { Indexed(a.scope) && Entry(d, a).Some? }

  ghost predicate KeyAgrees(c: Catalog, d: Document, managed: Managed, k: Key) {
    && (forall a :: Holds(d, a) && a.key == k ==> k in managed && managed[k] == Storing(c, k, Entry(d, a).value))
    && (k in managed ==> exists a :: Holds(d, a) && a.key == k)
  }

  /** The managed layer holds exactly the keys of the non-UI sections, with their values,
      redacted when sensitive. */
  ghost predicate Agrees(c: Catalog, d: Document, managed: Managed) {
    forall k :: KeyAgrees(c, d, managed, k)
  }

  /** The agreement spelled out: a key is in the layer exactly when a section other than those of
      UIs and UI types holds it; every such section holds a value that is recorded as it is, or
      as hidden when the key is sensitive. */
  lemma {:induction false} AgreesIs(c: Catalog, d: Document, managed: Managed)
    ensures Agrees(c, d, managed) <==>
      && (forall k :: k in managed ==> exists a: Address :: a.key == k && a.scope != Ui && a.scope != UiType && Entry(d, a).Some?)
      && (forall a: Address :: a.scope != Ui && a.scope != UiType && Entry(d, a).Some? ==>
            a.key in managed && managed[a.key] == if c.sensitive(a.key) then Redacted else Kept(Entry(d, a).value))
  {
    hide Entry;
    forall a: Address ensures Holds(d, a) <==> a.scope != Ui && a.scope != UiType && Entry(d, a).Some? {}
    if Agrees(c, d, managed) {
      forall a: Address | Holds(d, a)
        ensures a.key in managed && managed[a.key] == if c.sensitive(a.key) then Redacted else Kept(Entry(d, a).value)
      {
        assert KeyAgrees(c, d, managed, a.key);
      }
      forall k | k in managed ensures exists a: Address :: a.key == k && a.scope != Ui && a.scope != UiType && Entry(d, a).Some? {
        assert KeyAgrees(c, d, managed, k);
      }
    }
  }

  /** Targets for which the naming rules leave one home per known key, such as names without
      dots. */
  ghost predicate OneHome(r: Registry, plain: Name -> bool) {
    && (forall t, u, k :: r.setting(k) == Some(WorldSetting) && plain(t) && plain(u) && r.worldKey(t, k) && r.worldKey(u, k) ==> t == u)
    && (forall t, u, k :: r.setting(k) == Some(PluginSetting) && plain(t) && plain(u) && r.pluginKey(t, k) && r.pluginKey(u, k) ==> t == u)
  }

  /** The naming rules leave one home per key to the names whose text has no dots. */
  lemma {:induction false} DotFreeNamesHaveOneHome(r: Registry, text: Name -> string, keyText: Key -> string)
    requires forall t, u :: text(t) == text(u) ==> t == u
    requires forall t, k :: r.worldKey(t, k) == Below("worlds", text(t), keyText(k))
    requires forall t, k :: r.pluginKey(t, k) == AtOrBelow("plugins.config", text(t), keyText(k))
    ensures OneHome(r, (n: Name) => DotFree(text(n)))
  {
    hide Below, AtOrBelow, DotFree;
    forall t, u, k | DotFree(text(t)) && DotFree(text(u)) && r.worldKey(t, k) && r.worldKey(u, k) ensures t == u {
      DotFreeHasOneHome("worlds", text(t), text(u), keyText(k));
    }
    forall t, u, k | DotFree(text(t)) && DotFree(text(u)) && r.pluginKey(t, k) && r.pluginKey(u, k) ensures t == u {
      PluginHasOneHome("plugins.config", text(t), text(u), keyText(k));
    }
  }

  /** Where a key may be stored outside the UI sections. */
  ghost predicate Homed(r: Registry, plain: Name -> bool, a: Address) {
    && Indexed(a.scope) && Shaped(a.scope, a.target) && (a.target.Some? ==> plain(a.target.value))
    && DescriptorError(r, a.key, a.scope).None? && TargetFits(r, a)
  }

  lemma {:induction false} HomeUnique(r: Registry, plain: Name -> bool, a: Address, b: Address)
    requires OneHome(r, plain) && Homed(r, plain, a) && Homed(r, plain, b) && a.key == b.key
    ensures a == b
  {
  }

  ghost predicate PlainTargets(d: Document, plain: Name -> bool) {
    forall a :: Holds(d, a) && a.target.Some? ==> plain(a.target.value)
  }

  lemma {:induction false} HoldersHomed(r: Registry, plain: Name -> bool, d: Document, a: Address)
    requires ContentValid(r, d) && PlainTargets(d, plain) && Holds(d, a)
    ensures Homed(r, plain, a)
  {
    ContentValidMeans(r, d);
    hide ContentValid, SectionAt;
    assert EntriesValid(r, d, a.scope);
  }

  /** The last indexed address with this key that is synchronised. */
  function LastSync(entries: seq<Mutation>, k: Key): Option<Address> {
    if entries == [] then None
    else
      var a := entries[|entries| - 1].address;
      if Indexed(a.scope) && a.key == k then Some(a) else LastSync(entries[..|entries| - 1], k)
  }

  /** The last synchronised address alone decides what is recorded for its key. */
  lemma {:induction false} SyncedAt(c: Catalog, managed: Managed, d: Document, entries: seq<Mutation>, k: Key)
    ensures var after := SyncedAll(c, managed, d, entries);
      match LastSync(entries, k)
      case None => (k in after <==> k in managed) && (k in managed ==> after[k] == managed[k])
      case Some(a) =>
        (k in after <==> Entry(d, a).Some?) && (Entry(d, a).Some? ==> after[k] == Storing(c, k, Entry(d, a).value))
  {
    hide Entry;
    if entries != [] {
      SyncedAt(c, managed, d, entries[..|entries| - 1], k);
    }
  }

  lemma {:induction false} LastSyncIs(entries: seq<Mutation>, k: Key)
    ensures LastSync(entries, k).Some? ==>
      var a := LastSync(entries, k).value; Indexed(a.scope) && a.key == k && Touches(entries, a)
    ensures LastSync(entries, k).None? ==> forall a: Address :: Indexed(a.scope) && a.key == k ==> !Touches(entries, a)
  {
    if entries != [] {
      var init, m := entries[..|entries| - 1], entries[|entries| - 1];
      LastSyncIs(init, k);
      assert entries == init + [m];
      assert entries[|entries| - 1].address == m.address;
      forall a ensures Touches(entries, a) <==> Touches(init, a) || m.address == a {
        TouchesMore(init, m, a);
        if Touches(entries, a) && m.address != a {
          var i :| 0 <= i < |entries| && entries[i].address == a;
          assert init[i].address == a;
        }
      }
    }
  }

  /** Entries cover every difference between two documents. */
  ghost predicate Covers(entries: seq<Mutation>, d: Document, e: Document) {
    forall a :: !Touches(entries, a) ==> Entry(d, a) == Entry(e, a)
  }

  /** Every holder of a synchronised key stores what the last synchronised address stores;
      in particular there is none when that address is empty. */
  ghost predicate Settled(c: Catalog, d: Document, entries: seq<Mutation>) {
    forall b :: Holds(d, b) && LastSync(entries, b.key).Some? ==>
      var last := Entry(d, LastSync(entries, b.key).value);
      last.Some? && Storing(c, b.key, last.value) == Storing(c, b.key, Entry(d, b).value)
  }

  /** Exactly when synchronising keeps the agreement, for any targets. */
  lemma {:induction false} CoveredAgreesIff(c: Catalog, d: Document, e: Document, managed: Managed, entries: seq<Mutation>)
    requires Covers(entries, d, e) && Agrees(c, d, managed)
    ensures Agrees(c, e, SyncedAll(c, managed, e, entries)) <==> Settled(c, e, entries)
  {
    hide KeyAgrees, SettledAt, Covers, SyncedAll, Settled, LastSync;
    forall k ensures KeyAgrees(c, e, SyncedAll(c, managed, e, entries), k) <==> SettledAt(c, e, entries, k) {
      KeyCovered(c, d, e, managed, entries, k);
    }
    SettledByKey(c, e, entries);
  }

  /** The same for one key, which need not agree before when it is synchronised. */
  lemma {:induction false} KeyCovered(c: Catalog, d: Document, e: Document, managed: Managed, entries: seq<Mutation>, k: Key)
    requires Covers(entries, d, e) && (LastSync(entries, k).None? ==> KeyAgrees(c, d, managed, k))
    ensures KeyAgrees(c, e, SyncedAll(c, managed, e, entries), k) <==> SettledAt(c, e, entries, k)
  {
    hide Entry, SyncedAll, LastSync, Storing;
    SyncedAt(c, managed, e, entries, k);
    LastSyncIs(entries, k);
    KeySettled(c, d, e, managed, SyncedAll(c, managed, e, entries), entries, k);
  }

  ghost predicate SettledAt(c: Catalog, d: Document, entries: seq<Mutation>, k: Key) {
    LastSync(entries, k).Some? ==> forall b :: Holds(d, b) && b.key == k ==>
      var last := Entry(d, LastSync(entries, k).value);
      last.Some? && Storing(c, k, last.value) == Storing(c, k, Entry(d, b).value)
  }

  lemma {:induction false} SettledByKey(c: Catalog, d: Document, entries: seq<Mutation>)
    ensures Settled(c, d, entries) <==> forall k :: SettledAt(c, d, entries, k)
  {
    hide Entry, LastSync, Storing;
    if forall k :: SettledAt(c, d, entries, k) {
      forall b | Holds(d, b) && LastSync(entries, b.key).Some?
        ensures var last := Entry(d, LastSync(entries, b.key).value);
          last.Some? && Storing(c, b.key, last.value) == Storing(c, b.key, Entry(d, b).value)
      {
        assert SettledAt(c, d, entries, b.key);
      }
    }
  }

  lemma {:induction false} KeySettled(c: Catalog, d: Document, e: Document, managed: Managed, after: Managed, entries: seq<Mutation>, k: Key)
    requires Covers(entries, d, e) && (LastSync(entries, k).None? ==> KeyAgrees(c, d, managed, k))
    requires match LastSync(entries, k)
      case None =>
        && (k in after <==> k in managed) && (k in managed ==> after[k] == managed[k])
        && (forall a: Address :: Indexed(a.scope) && a.key == k ==> !Touches(entries, a))
      case Some(a) =>
        && Indexed(a.scope) && a.key == k && (k in after <==> Entry(e, a).Some?)
        && (Entry(e, a).Some? ==> after[k] == Storing(c, k, Entry(e, a).value))
    ensures KeyAgrees(c, e, after, k) <==> SettledAt(c, e, entries, k)
  {
    hide Entry, LastSync, Storing, Touches;
    if LastSync(entries, k).None? {
      forall a: Address | Indexed(a.scope) && a.key == k ensures Entry(d, a) == Entry(e, a) {
        assert !Touches(entries, a);
      }
    } else if Entry(e, LastSync(entries, k).value).Some? {
      assert Holds(e, LastSync(entries, k).value);
    }
  }

  /** When every indexed address involved is the one home of its key, all is settled. */
  lemma {:induction false} HomedSettles(c: Catalog, plain: Name -> bool, d: Document, entries: seq<Mutation>)
    requires OneHome(c.registry, plain) && ContentValid(c.registry, d) && PlainTargets(d, plain)
    requires forall i :: 0 <= i < |entries| && Indexed(entries[i].address.scope) ==> Homed(c.registry, plain, entries[i].address)
    ensures Settled(c, d, entries)
  {
    hide ContentValid, Entry, OneHome, Homed, PlainTargets, LastSync;
    forall b | Holds(d, b) && LastSync(entries, b.key).Some? ensures LastSync(entries, b.key).value == b {
      LastSyncIs(entries, b.key);
      var a := LastSync(entries, b.key).value;
      var i :| 0 <= i < |entries| && entries[i].address == a;
      HoldersHomed(c.registry, plain, d, b);
      HomeUnique(c.registry, plain, a, b);
    }
  }

  // ------------------------------------------------------------------ confirmed requests

  /** The Gateway's only store and index: the directory, the document its revision replaced,
      the history the store remembers, and the managed layer. */
  datatype Service = Service(disk: Disk, before: Document, memory: seq<Mutation>, managed: Managed)

  /** The requests whose effects are synchronised value by value. */
  predicate ByValue(request: Request) { request.Set? || request.Reset? || request.Batch? || request.Undo? }

  /** What the store remembers after a request: it reloads under the lock, which only requests
      refused at once do not reach. */
  function Remembering(r: Registry, s: Service, step: Step): seq<Mutation> {
    var outcome := Outcome(r, s.disk, step);
    if Refusal(r, step.request).Some? then s.memory
    else if outcome.Failure? then History(s.disk)
    else LastN(History(s.disk) + outcome.value, MAX_AUDIT_ENTRIES)
  }

  /** The entries that are synchronised after a commit: those of the request, or those
      remembered about the undone revision when the undo entry only names the batch. */
  function Affected(r: Registry, s: Service, step: Step, committed: seq<Mutation>): seq<Mutation> {
    if |committed| == 1 && committed[0].operation == UndoChange && committed[0].address.key == r.batchKey
    then Latest(s.memory, step.expected)
    else committed
  }

  /** The Gateway after one request. */
  function Served(c: Catalog, s: Service, step: Step): Service {
    var next, outcome := Next(c.registry, s.disk, step), Outcome(c.registry, s.disk, step);
    Service(next, Before(s.disk, s.before, next), Remembering(c.registry, s, step),
            if outcome.Failure? then s.managed
            else SyncedAll(c, s.managed, next.document, Affected(c.registry, s, step, outcome.value)))
  }

  /** The store remembers the entries of the current revision. */
  ghost predicate MemoryTells(s: Service) {
    Latest(s.memory, s.disk.document.revision) == LatestOf(s.disk)
  }

  lemma {:induction false} MemoryKeeps(c: Catalog, s: Service, step: Step)
    requires c.registry.Proper() && Inv(c.registry, s.disk, s.before) && MemoryTells(s)
    ensures MemoryTells(Served(c, s, step))
  {
    var r := c.registry;
    TransactKeeps(r, s.disk, s.before, step.expected, step.request, step.stamp, step.faults);
    TransactOutcome(r, s.disk, step.expected, step.request, step.stamp, step.faults);
    HistoryIsAudit(r, s.disk);
    var next, outcome := Next(r, s.disk, step), Outcome(r, s.disk, step);
    InvBounded(r, s.disk, s.before);
    InvBounded(r, next, Before(s.disk, s.before, next));
    hide Transact, Inv, Refusal, SyncedAll, Filter, History, LastN;
    if outcome.Success? {
      FilterMember(next.audit, (m: Mutation) => m.revision == next.document.revision);
      NewestRemembered(s.disk.audit, outcome.value, next.document.revision);
    } else if next.document != s.disk.document {
      assert next.document.revision == s.disk.document.revision + 1;
      assert Remembering(r, s, step) == next.audit;
    }
  }

  lemma {:induction false} InvBounded(r: Registry, disk: Disk, before: Document)
    requires Inv(r, disk, before)
    ensures forall m :: m in disk.audit ==> m.revision <= disk.document.revision
    ensures |LatestOf(disk)| <= MAX_AUDIT_ENTRIES
  {
  }

  /** Remembering the newest entries remembers all of the newest revision. */
  lemma {:induction false} NewestRemembered(audit: seq<Mutation>, newest: seq<Mutation>, revision: nat)
    requires |newest| <= MAX_AUDIT_ENTRIES
    requires forall m :: m in audit ==> m.revision < revision
    requires forall m :: m in newest ==> m.revision == revision
    ensures Latest(LastN(audit + newest, MAX_AUDIT_ENTRIES), revision) == newest
  {
    var p := (m: Mutation) => m.revision == revision;
    var older := LastN(audit, MAX_AUDIT_ENTRIES - |newest|);
    assert LastN(audit + newest, MAX_AUDIT_ENTRIES) == older + newest;
    assert forall m :: m in older ==> m in audit;
    hide LastN, Filter;
    FilterAppend(older, newest, p);
    FilterNone(older, p);
    FilterAll(newest, p);
  }

  /** What the affected entries are: the whole difference, between entries that hold a value
      on one of the two sides. */
  ghost predicate Spans(entries: seq<Mutation>, d: Document, e: Document) {
    && Covers(entries, d, e)
    && forall i :: 0 <= i < |entries| ==> Entry(d, entries[i].address).Some? || Entry(e, entries[i].address).Some?
  }

  lemma {:induction false} DescribesSpans(r: Registry, entries: seq<Mutation>, d: Document, e: Document)
    requires Describes(r, entries, d, e)
    ensures Spans(entries, d, e)
  {
    hide Entry, Placing;
    forall i | 0 <= i < |entries| ensures Entry(d, entries[i].address).Some? || Entry(e, entries[i].address).Some? {
      assert EntryTells(r, entries[i], d, e);
    }
  }

  /** A set, reset or batch that leaves a new document, committed or not: its entries span the
      change and name its targets. */
  lemma {:induction false} ChangesSpan(r: Registry, s: Service, step: Step)
    requires Outcome(r, s.disk, step).Success? || Next(r, s.disk, step).document != s.disk.document
    requires step.request.Set? || step.request.Reset? || step.request.Batch?
    ensures var (d, next) := (s.disk.document, Next(r, s.disk, step));
      var p := Changed(r, d, Requested(step.request), step.stamp);
      && p.Success? && Spans(p.value.mutations, d, next.document)
      && (forall i :: 0 <= i < |p.value.mutations| ==>
            p.value.mutations[i].address == Requested(step.request)[i].address && p.value.mutations[i].operation != UndoChange)
      && (Outcome(r, s.disk, step).Success? ==>
            Outcome(r, s.disk, step).value == p.value.mutations
            && Affected(r, s, step, p.value.mutations) == p.value.mutations)
  {
    var disk := s.disk;
    var d, changes := disk.document, Requested(step.request);
    hide Transact, Changed, FirstError, Describes, SameContent, Affected;
    ChangesCommit(r, disk, step);
    var p := Changed(r, d, changes, step.stamp).value;
    ChangesNamed(r, d, changes, step.stamp);
    ChangesPlanTells(r, d, changes, step.stamp);
    RevisionKeepsContent(d, d.revision);
    RevisionKeepsContent(p.document, d.revision + 1);
    DescribesSame(r, p.mutations, d, p.document, d, p.document.(revision := d.revision + 1));
    AffectedByChanges(r, s, step, p.mutations);
    DescribesSpans(r, p.mutations, d, p.document.(revision := d.revision + 1));
  }

  lemma {:induction false} AffectedByChanges(r: Registry, s: Service, step: Step, entries: seq<Mutation>)
    requires forall i :: 0 <= i < |entries| ==> entries[i].operation != UndoChange
    ensures Affected(r, s, step, entries) == entries
  {
  }

  /** The same addresses, in the same order. */
  ghost predicate SameAddresses(entries: seq<Mutation>, others: seq<Mutation>) {
    |entries| == |others| && forall i :: 0 <= i < |entries| ==> entries[i].address == others[i].address
  }

  /** A committed undo takes back the entries remembered about the current revision, and it is
      their addresses that are synchronised. */
  lemma {:induction false} UndoAffects(r: Registry, s: Service, step: Step)
    requires r.Proper() && Inv(r, s.disk, s.before) && MemoryTells(s) && Outcome(r, s.disk, step).Success? && step.request.Undo?
    ensures var (next, committed) := (Next(r, s.disk, step), Outcome(r, s.disk, step).value);
      var latest := Latest(s.memory, step.expected);
      && Describes(r, latest, s.before, s.disk.document) && SameContent(next.document, s.before)
      && SameAddresses(latest, Affected(r, s, step, committed))
  {
    var disk, before := s.disk, s.before;
    UndoOutcome(r, disk, step.expected, step.stamp, step.faults);
    HistoryIsAudit(r, disk);
    var latest := LatestOf(disk);
    var committed := Outcome(r, disk, step).value;
    hide Transact, DocumentValid, Latest, Describes, SameContent, UndoDocument;
    if OnlyNames(r, latest) {
      NamedNotUndone(r, disk);
      assert false;
    } else {
      UndoDocumentInverts(r, disk, before);
      assert latest[0].address.key != r.batchKey by {
        LatestKnown(r, latest, before, disk.document);
      }
      if |latest| == 1 {
        assert Affected(r, s, step, committed) == committed;
      }
    }
  }

  /** So the affected entries span the difference it makes. */
  lemma {:induction false} UndoSpans(r: Registry, s: Service, step: Step)
    requires r.Proper() && Inv(r, s.disk, s.before) && MemoryTells(s) && Outcome(r, s.disk, step).Success? && step.request.Undo?
    ensures var (next, committed) := (Next(r, s.disk, step), Outcome(r, s.disk, step).value);
      Spans(Affected(r, s, step, committed), s.disk.document, next.document)
  {
    UndoAffects(r, s, step);
    var next, committed := Next(r, s.disk, step), Outcome(r, s.disk, step).value;
    var latest := Latest(s.memory, step.expected);
    hide Next, Outcome, Inv, MemoryTells, Affected, Latest, SameContent, Describes, Spans, SameAddresses;
    SpansBack(r, latest, s.before, s.disk.document, next.document);
    SpansSame(latest, Affected(r, s, step, committed), s.disk.document, next.document);
  }

  lemma {:induction false} LatestKnown(r: Registry, entries: seq<Mutation>, before: Document, d: Document)
    requires r.Proper() && entries != [] && Describes(r, entries, before, d)
    ensures entries[0].address.key != r.batchKey
  {
    assert EntryTells(r, entries[0], before, d);
  }

  /** What describes a change also spans its inverse. */
  lemma {:induction false} SpansBack(r: Registry, entries: seq<Mutation>, before: Document, d: Document, e: Document)
    requires Describes(r, entries, before, d) && SameContent(e, before)
    ensures Spans(entries, d, e)
  {
    DescribesSpans(r, entries, before, d);
    hide Describes, Entry;
  }

  lemma {:induction false} SpansSame(entries: seq<Mutation>, others: seq<Mutation>, d: Document, e: Document)
    requires Spans(entries, d, e) && SameAddresses(entries, others)
    ensures Spans(others, d, e)
  {
    hide Entry;
    forall a | Touches(entries, a) ensures Touches(others, a) {
      var i :| 0 <= i < |entries| && entries[i].address == a;
      assert others[i].address == a;
    }
    forall i | 0 <= i < |others| ensures Entry(d, others[i].address).Some? || Entry(e, others[i].address).Some? {
      assert entries[i].address == others[i].address;
    }
  }

  /** A committed request that is synchronised value by value. */
  lemma {:induction false} CommitSpans(r: Registry, s: Service, step: Step)
    requires r.Proper() && Inv(r, s.disk, s.before) && MemoryTells(s) && Outcome(r, s.disk, step).Success? && ByValue(step.request)
    ensures var (next, committed) := (Next(r, s.disk, step), Outcome(r, s.disk, step).value);
      Spans(Affected(r, s, step, committed), s.disk.document, next.document)
  {
    hide Transact, Inv, MemoryTells, Affected, Spans;
    if step.request.Undo? {
      UndoSpans(r, s, step);
    } else {
      ChangesSpan(r, s, step);
    }
  }

  /** Exactly when one confirmed set, reset, batch or undo keeps the managed layer equal to the
      stored values, for any targets: when no holder of an affected key is left with a value
      other than the one the last synchronised address stores, or with any value when that
      address is empty. A request that fails keeps it whenever the document is restored. */
  lemma {:induction false} ServedAgreesIff(c: Catalog, s: Service, step: Step)
    requires c.registry.Proper() && Inv(c.registry, s.disk, s.before) && MemoryTells(s) && Agrees(c, s.disk.document, s.managed)
    requires ByValue(step.request)
    ensures var outcome := Outcome(c.registry, s.disk, step);
      var next := Served(c, s, step);
      && (outcome.Success? ==>
            (Agrees(c, next.disk.document, next.managed) <==>
             Settled(c, next.disk.document, Affected(c.registry, s, step, outcome.value))))
      && (outcome.Failure? && !step.faults.restore ==> Agrees(c, next.disk.document, next.managed))
  {
    var r := c.registry;
    TransactOutcome(r, s.disk, step.expected, step.request, step.stamp, step.faults);
    var next, outcome := Next(r, s.disk, step), Outcome(r, s.disk, step);
    hide Transact, Agrees, SyncedAll, Affected, Settled, Inv, MemoryTells, Remembering;
    if outcome.Success? {
      CommitSpans(r, s, step);
      CoveredAgreesIff(c, s.disk.document, next.document, s.managed, Affected(r, s, step, outcome.value));
    } else if !step.faults.restore {
      assert next.document == s.disk.document;
    }
  }

  // ------------------------------------------------- the condition on the document before

  /** What a request asks for: its changes, or for an undo the values that the remembered
      entries about the expected revision replaced. */
  function Asked(s: Service, step: Step): seq<Change>
    requires ByValue(step.request)
  {
    if step.request.Undo? then PutBack(Latest(s.memory, step.expected)) else Requested(step.request)
  }

  function PutBack(entries: seq<Mutation>): seq<Change> {
    seq(|entries|, i requires 0 <= i < |entries| => Change(entries[i].address, entries[i].previous))
  }

  /** The last change asked for at an indexed address with this key. */
  function LastAsked(changes: seq<Change>, k: Key): Option<Change> {
    if changes == [] then None
    else
      var last := changes[|changes| - 1];
      if Indexed(last.address.scope) && last.address.key == k then Some(last) else LastAsked(changes[..|changes| - 1], k)
  }

  /** What an address holds once the changes are made. */
  function Expected(d: Document, changes: seq<Change>, a: Address): Option<Value> {
    if changes == [] then Entry(d, a)
    else if changes[|changes| - 1].address == a then changes[|changes| - 1].value
    else Expected(d, changes[..|changes| - 1], a)
  }

  /** Once the changes are made, every section that holds a key they ask about holds the value
      that the last of them asks for; in particular none does when that one is a reset. */
  ghost predicate Unambiguous(c: Catalog, d: Document, changes: seq<Change>) {
    forall b: Address :: Indexed(b.scope) && Expected(d, changes, b).Some? && LastAsked(changes, b.key).Some? ==>
      var last := LastAsked(changes, b.key).value;
      last.value.Some? && Storing(c, b.key, last.value.value) == Storing(c, b.key, Expected(d, changes, b).value)
  }

  lemma {:induction false} ExpectedCases(d: Document, changes: seq<Change>, a: Address)
    ensures (exists i :: 0 <= i < |changes| && changes[i].address == a && Expected(d, changes, a) == changes[i].value)
      || ((forall i :: 0 <= i < |changes| ==> changes[i].address != a) && Expected(d, changes, a) == Entry(d, a))
  {
    hide Entry;
    if changes != [] && changes[|changes| - 1].address != a {
      var init := changes[..|changes| - 1];
      ExpectedCases(d, init, a);
      if i :| 0 <= i < |init| && init[i].address == a && Expected(d, init, a) == init[i].value {
        assert changes[i] == init[i];
      }
    }
  }

  lemma {:induction false} ExpectedOfLast(d: Document, changes: seq<Change>, k: Key)
    ensures LastAsked(changes, k).Some? ==>
      var last := LastAsked(changes, k).value;
      Indexed(last.address.scope) && last.address.key == k && Expected(d, changes, last.address) == last.value
  {
    hide Entry;
    if changes != [] {
      ExpectedOfLast(d, changes[..|changes| - 1], k);
    }
  }

  lemma {:induction false} LastAskedIs(changes: seq<Change>, entries: seq<Mutation>, k: Key)
    requires |changes| == |entries| && forall i :: 0 <= i < |changes| ==> changes[i].address == entries[i].address
    ensures LastAsked(changes, k).Some? <==> LastSync(entries, k).Some?
    ensures LastAsked(changes, k).Some? ==> LastAsked(changes, k).value.address == LastSync(entries, k).value
  {
    if changes != [] {
      LastAskedIs(changes[..|changes| - 1], entries[..|entries| - 1], k);
    }
  }

  /** A document that holds what is expected is settled exactly when the changes are
      unambiguous. */
  lemma {:induction false} SettledExpected(c: Catalog, d: Document, e: Document, entries: seq<Mutation>, changes: seq<Change>)
    requires |changes| == |entries| && forall i :: 0 <= i < |changes| ==> changes[i].address == entries[i].address
    requires forall a :: Entry(e, a) == Expected(d, changes, a)
    ensures Settled(c, e, entries) <==> Unambiguous(c, d, changes)
  {
    hide Entry, Expected, LastSync, LastAsked, Storing;
    forall k
      ensures LastAsked(changes, k).Some? <==> LastSync(entries, k).Some?
      ensures LastAsked(changes, k).Some? ==> Entry(e, LastSync(entries, k).value) == LastAsked(changes, k).value.value
    {
      LastAskedIs(changes, entries, k);
      ExpectedOfLast(d, changes, k);
    }
  }

  /** A committed request leaves what it asks for, and nothing else changes. */
  lemma {:induction false} AskedIsMade(r: Registry, s: Service, step: Step)
    requires r.Proper() && Inv(r, s.disk, s.before) && MemoryTells(s) && Outcome(r, s.disk, step).Success? && ByValue(step.request)
    ensures var (next, affected) := (Next(r, s.disk, step), Affected(r, s, step, Outcome(r, s.disk, step).value));
      var asked := Asked(s, step);
      && |asked| == |affected| && (forall i :: 0 <= i < |asked| ==> asked[i].address == affected[i].address)
      && forall a :: Entry(next.document, a) == Expected(s.disk.document, asked, a)
  {
    var next, asked := Next(r, s.disk, step), Asked(s, step);
    hide Transact, MemoryTells, Affected, Expected, Changed, Latest;
    if step.request.Undo? {
      UndoAffects(r, s, step);
      hide Next, Outcome, Inv;
      PutBackReads(r, Latest(s.memory, step.expected), s.before, s.disk.document, next.document);
    } else {
      ChangesSpan(r, s, step);
      ChangesReadBack(r, s.disk, step);
    }
    hide Next, Outcome, Inv;
    forall a ensures Entry(next.document, a) == Expected(s.disk.document, asked, a) {
      ExpectedCases(s.disk.document, asked, a);
    }
  }

  lemma {:induction false} PutBackReads(r: Registry, entries: seq<Mutation>, before: Document, d: Document, e: Document)
    requires Describes(r, entries, before, d) && SameContent(e, before)
    ensures var changes := PutBack(entries);
      && (forall i :: 0 <= i < |changes| ==> Entry(e, changes[i].address) == changes[i].value)
      && (forall a :: (forall i :: 0 <= i < |changes| ==> changes[i].address != a) ==> Entry(e, a) == Entry(d, a))
  {
    hide Entry, Placing;
    var changes := PutBack(entries);
    forall i | 0 <= i < |changes| ensures Entry(e, changes[i].address) == changes[i].value {
      assert EntryTells(r, entries[i], before, d);
    }
    assert forall i :: 0 <= i < |entries| ==> entries[i].address == changes[i].address;
  }

  /** Exactly when a committed set, reset, batch or undo keeps the agreement, on the document
      before it and what it asks for: when the changes are unambiguous there. */
  lemma {:induction false} RequestAgreesIff(c: Catalog, s: Service, step: Step)
    requires c.registry.Proper() && Inv(c.registry, s.disk, s.before) && MemoryTells(s) && Agrees(c, s.disk.document, s.managed)
    requires ByValue(step.request)
    ensures Outcome(c.registry, s.disk, step).Success? ==>
      var next := Served(c, s, step);
      Agrees(c, next.disk.document, next.managed) <==> Unambiguous(c, s.disk.document, Asked(s, step))
  {
    var r := c.registry;
    ServedAgreesIff(c, s, step);
    var next, outcome := Next(r, s.disk, step), Outcome(r, s.disk, step);
    hide Next, Outcome, Agrees, SyncedAll, Affected, Settled, Inv, MemoryTells, Remembering, Asked, Unambiguous, Expected;
    if outcome.Success? {
      AskedIsMade(r, s, step);
      SettledExpected(c, s.disk.document, next.document, Affected(r, s, step, outcome.value), Asked(s, step));
    }
  }

  /** For one set or reset: no other section holds the key, or every one of them the very value
      that is set. */
  lemma {:induction false} OneChangeAgreesIff(c: Catalog, s: Service, step: Step)
    requires c.registry.Proper() && Inv(c.registry, s.disk, s.before) && MemoryTells(s) && Agrees(c, s.disk.document, s.managed)
    requires (step.request.Set? || step.request.Reset?) && Indexed(step.request.address.scope)
    ensures Outcome(c.registry, s.disk, step).Success? ==>
      var a, next := step.request.address, Served(c, s, step);
      Agrees(c, next.disk.document, next.managed) <==>
        forall b :: Holds(s.disk.document, b) && b.key == a.key && b != a ==>
          step.request.Set? && Storing(c, a.key, step.request.value) == Storing(c, a.key, Entry(s.disk.document, b).value)
  {
    RequestAgreesIff(c, s, step);
    hide Outcome, Served, Agrees, Inv, MemoryTells;
    OneUnambiguous(c, s.disk.document, step.request.address, if step.request.Set? then Some(step.request.value) else None);
  }

  lemma {:induction false} OneUnambiguous(c: Catalog, d: Document, a: Address, value: Option<Value>)
    requires Indexed(a.scope)
    ensures Unambiguous(c, d, [Change(a, value)]) <==>
      forall b :: Holds(d, b) && b.key == a.key && b != a ==>
        value.Some? && Storing(c, a.key, value.value) == Storing(c, a.key, Entry(d, b).value)
  {
    hide Entry, Storing;
    var changes := [Change(a, value)];
    assert changes[..0] == [];
    assert forall k :: LastAsked(changes, k) == if k == a.key then Some(changes[0]) else None;
    assert forall b :: Expected(d, changes, b) == if b == a then value else Entry(d, b);
    hide LastAsked, Expected;
  }

  // ----------------------------------------------------------------- one home per key

  /** Requests whose indexed targets are all plain. */
  predicate Confirmed(request: Request, plain: Name -> bool) {
    match request
    case Set(a, _) => Indexed(a.scope) && a.target.Some? ==> plain(a.target.value)
    case Reset(a) => Indexed(a.scope) && a.target.Some? ==> plain(a.target.value)
    case Batch(changes) => forall c :: c in changes && Indexed(c.address.scope) && c.address.target.Some? ==> plain(c.address.target.value)
    case Undo => true
    case _ => false
  }

  /** Keys of non-UI sections that a failed request has changed on disk without being able to
      put the old document back, and that have not been synchronised since. */
  ghost function Stale(c: Catalog, s: Service, stale: iset<Key>, step: Step): iset<Key> {
    var next, outcome := Next(c.registry, s.disk, step), Outcome(c.registry, s.disk, step);
    if outcome.Success? then iset k | k in stale && LastSync(Affected(c.registry, s, step, outcome.value), k).None?
    else stale + Differing(s.disk.document, next.document)
  }

  ghost function Differing(d: Document, e: Document): iset<Key> {
    iset a: Address | Indexed(a.scope) && Entry(d, a) != Entry(e, a) :: a.key
  }

  ghost predicate IndexInv(c: Catalog, plain: Name -> bool, s: Service, stale: iset<Key>) {
    && Inv(c.registry, s.disk, s.before) && MemoryTells(s)
    && PlainTargets(s.disk.document, plain) && PlainTargets(s.before, plain)
    && forall k :: k !in stale ==> KeyAgrees(c, s.disk.document, s.managed, k)
  }

  lemma {:induction false} PlainSame(d: Document, e: Document, plain: Name -> bool)
    requires SameContent(e, d) && PlainTargets(d, plain)
    ensures PlainTargets(e, plain)
  {
    hide Entry;
    forall a | Holds(e, a) && a.target.Some? ensures plain(a.target.value) {
      assert Entry(e, a) == Entry(d, a);
    }
  }

  lemma {:induction false} PlainAfterChanges(d: Document, e: Document, entries: seq<Mutation>, plain: Name -> bool)
    requires Covers(entries, d, e) && PlainTargets(d, plain)
    requires forall i :: 0 <= i < |entries| ==>
      var a := entries[i].address; Indexed(a.scope) && a.target.Some? ==> plain(a.target.value)
    ensures PlainTargets(e, plain)
  {
    hide Entry;
    forall a | Holds(e, a) && a.target.Some? ensures plain(a.target.value) {
      if !Touches(entries, a) {
        assert Holds(d, a);
      }
    }
  }

  lemma {:induction false} ConfirmedPlain(request: Request, plain: Name -> bool, i: nat)
    requires request.Set? || request.Reset? || request.Batch?
    requires Confirmed(request, plain) && i < |Requested(request)|
    ensures var a := Requested(request)[i].address; Indexed(a.scope) && a.target.Some? ==> plain(a.target.value)
  {
    assert Requested(request)[i] in Requested(request);
  }

  lemma {:induction false} SpansHomed(r: Registry, plain: Name -> bool, entries: seq<Mutation>, d: Document, e: Document)
    requires Spans(entries, d, e) && ContentValid(r, d) && ContentValid(r, e) && PlainTargets(d, plain) && PlainTargets(e, plain)
    ensures forall i :: 0 <= i < |entries| && Indexed(entries[i].address.scope) ==> Homed(r, plain, entries[i].address)
  {
    hide ContentValid, Entry, Homed, PlainTargets;
    forall i | 0 <= i < |entries| && Indexed(entries[i].address.scope) ensures Homed(r, plain, entries[i].address) {
      if Entry(d, entries[i].address).Some? {
        HoldersHomed(r, plain, d, entries[i].address);
      } else {
        HoldersHomed(r, plain, e, entries[i].address);
      }
    }
  }

  /** With plain targets, after any confirmed set, reset, batch or undo (including the undo of a
      batch, whose own entry names none of the keys) the managed layer holds exactly the stored
      values of every key that is not stale. */
  lemma {:induction false} IndexKeeps(c: Catalog, plain: Name -> bool, s: Service, stale: iset<Key>, step: Step)
    requires c.registry.Proper() && OneHome(c.registry, plain)
    requires IndexInv(c, plain, s, stale) && Confirmed(step.request, plain)
    ensures IndexInv(c, plain, Served(c, s, step), Stale(c, s, stale, step))
  {
    var r := c.registry;
    TransactKeeps(r, s.disk, s.before, step.expected, step.request, step.stamp, step.faults);
    TransactOutcome(r, s.disk, step.expected, step.request, step.stamp, step.faults);
    hide Transact, OneHome, PlainTargets, KeyAgrees, SyncedAll, Confirmed, Affected, MemoryTells, Remembering, Differing, LastSync, Inv;
    MemoryKeeps(c, s, step);
    TargetsStayPlain(c, plain, s, stale, step);
    KeysKeep(c, plain, s, stale, step);
  }

  lemma {:induction false} KeysKeep(c: Catalog, plain: Name -> bool, s: Service, stale: iset<Key>, step: Step)
    requires c.registry.Proper() && OneHome(c.registry, plain)
    requires IndexInv(c, plain, s, stale) && Confirmed(step.request, plain)
    requires var next := Next(c.registry, s.disk, step);
      PlainTargets(next.document, plain) && ContentValid(c.registry, next.document)
    ensures var after := Served(c, s, step);
      forall k :: k !in Stale(c, s, stale, step) ==> KeyAgrees(c, after.disk.document, after.managed, k)
  {
    var r := c.registry;
    ConfirmedKinds(step.request, plain);
    InvValid(r, s.disk, s.before);
    var d, e, outcome := s.disk.document, Next(r, s.disk, step).document, Outcome(r, s.disk, step);
    hide Transact, OneHome, PlainTargets, KeyAgrees, SyncedAll, Confirmed, Affected, MemoryTells, Remembering, Differing, LastSync, Inv,
         ContentValid, Settled, SettledAt;
    if outcome.Success? {
      var affected := Affected(r, s, step, outcome.value);
      CommitSpans(r, s, step);
      SpansHomed(r, plain, affected, d, e);
      HomedSettles(c, plain, e, affected);
      SettledByKey(c, e, affected);
      forall k | k !in Stale(c, s, stale, step) ensures KeyAgrees(c, e, SyncedAll(c, s.managed, e, affected), k) {
        KeyCovered(c, d, e, s.managed, affected, k);
      }
    } else {
      forall k | k !in stale + Differing(d, e) ensures KeyAgrees(c, e, s.managed, k) {
        SameKeyAgrees(c, d, e, s.managed, k);
      }
    }
  }

  lemma {:induction false} SameKeyAgrees(c: Catalog, d: Document, e: Document, managed: Managed, k: Key)
    requires KeyAgrees(c, d, managed, k) && k !in Differing(d, e)
    ensures KeyAgrees(c, e, managed, k)
  {
    hide Entry, Storing;
    forall a: Address | Indexed(a.scope) && a.key == k ensures Entry(d, a) == Entry(e, a) {}
  }

  lemma {:induction false} InvValid(r: Registry, disk: Disk, before: Document)
    requires Inv(r, disk, before)
    ensures ContentValid(r, disk.document)
  {
    hide ContentValid;
  }

  lemma {:induction false} TargetsStayPlain(c: Catalog, plain: Name -> bool, s: Service, stale: iset<Key>, step: Step)
    requires c.registry.Proper() && IndexInv(c, plain, s, stale) && Confirmed(step.request, plain)
    ensures PlainTargets(Next(c.registry, s.disk, step).document, plain)
  {
    hide Transact, Inv, PlainTargets, KeyAgrees, Affected, Confirmed, MemoryTells, Changed;
    var r := c.registry;
    var next := Next(r, s.disk, step);
    ConfirmedKinds(step.request, plain);
    if next.document != s.disk.document {
      if step.request.Undo? {
        UndoRestores(r, s.disk, s.before, step.expected, step.stamp, step.faults);
        PlainSame(s.before, next.document, plain);
      } else {
        ChangesSpan(r, s, step);
        var entries := Changed(r, s.disk.document, Requested(step.request), step.stamp).value.mutations;
        forall i | 0 <= i < |entries|
          ensures Indexed(entries[i].address.scope) && entries[i].address.target.Some? ==> plain(entries[i].address.target.value)
        {
          ConfirmedPlain(step.request, plain, i);
        }
        PlainAfterChanges(s.disk.document, next.document, entries, plain);
      }
    }
  }

  lemma {:induction false} ConfirmedKinds(request: Request, plain: Name -> bool)
    requires Confirmed(request, plain)
    ensures ByValue(request)
  {
  }

  /** The Gateway after the first `n` requests, and the stale keys then. */
  ghost function ServedAll(c: Catalog, s: Service, steps: seq<Step>, n: nat): (Service, iset<Key>)
    requires n <= |steps|
  {
    if n == 0 then (s, iset{})
    else
      var (s', stale) := ServedAll(c, s, steps, n - 1);
      (Served(c, s', steps[n - 1]), Stale(c, s', stale, steps[n - 1]))
  }

  /** Over whole runs of confirmed requests, with writes failing at any point, the managed layer
      holds exactly the stored values of every key that is not stale. */
  lemma {:induction false} IndexRuns(c: Catalog, plain: Name -> bool, s: Service, steps: seq<Step>, n: nat)
    requires c.registry.Proper() && OneHome(c.registry, plain) && n <= |steps|
    requires IndexInv(c, plain, s, iset{})
    requires forall i :: 0 <= i < n ==> Confirmed(steps[i].request, plain)
    ensures var (after, stale) := ServedAll(c, s, steps, n); IndexInv(c, plain, after, stale)
  {
    hide IndexInv, Served, Stale, Confirmed;
    if n > 0 {
      IndexRuns(c, plain, s, steps, n - 1);
      var (s', stale) := ServedAll(c, s, steps, n - 1);
      IndexKeeps(c, plain, s', stale, steps[n - 1]);
    }
  }

  /** While every restoring write succeeds nothing is stale, and the whole layer agrees. */
  lemma {:induction false} IndexAgreesAfterRun(c: Catalog, plain: Name -> bool, s: Service, steps: seq<Step>, n: nat)
    requires c.registry.Proper() && OneHome(c.registry, plain) && n <= |steps|
    requires IndexInv(c, plain, s, iset{})
    requires forall i :: 0 <= i < n ==> Confirmed(steps[i].request, plain)
    ensures (forall i :: 0 <= i < n ==> !steps[i].faults.restore) ==>
      var (after, stale) := ServedAll(c, s, steps, n);
      stale == iset{} && Agrees(c, after.disk.document, after.managed)
  {
    if forall i :: 0 <= i < n ==> !steps[i].faults.restore {
      IndexRuns(c, plain, s, steps, n);
      hide Served, Stale, KeyAgrees, Confirmed, MemoryTells, PlainTargets, Inv;
      NothingStale(c, s, steps, n);
    }
  }

  lemma {:induction false} NothingStale(c: Catalog, s: Service, steps: seq<Step>, n: nat)
    requires n <= |steps| && forall i :: 0 <= i < n ==> !steps[i].faults.restore
    ensures ServedAll(c, s, steps, n).1 == iset{}
  {
    hide Served, Stale;
    if n > 0 {
      NothingStale(c, s, steps, n - 1);
      NothingNewlyStale(c, ServedAll(c, s, steps, n - 1).0, steps[n - 1]);
    }
  }

  lemma {:induction false} NothingNewlyStale(c: Catalog, s: Service, step: Step)
    requires !step.faults.restore
    ensures Stale(c, s, iset{}, step) == iset{}
  {
    hide Next, Outcome, LastSync, Affected, Entry;
    StepOutcome(c.registry, s.disk, step);
  }

  // ---------------------------------------------------------------------- initial load

  function StoredPart(layer: map<Key, (Stored, Detail)>): Managed { map k | k in layer :: layer[k].0 }

  type Places = set<(Scope, Option<Name>)>

  ghost predicate HoldsAt(d: Document, places: Places, a: Address) { Holds(d, a) && (a.scope, a.target) in places }

  /** Agreement restricted to some sections. */
  ghost predicate AgreesOn(c: Catalog, d: Document, managed: Managed, places: Places) {
    && (forall a :: HoldsAt(d, places, a) ==> a.key in managed && managed[a.key] == Storing(c, a.key, Entry(d, a).value))
    && (forall k :: k in managed ==> exists a :: HoldsAt(d, places, a) && a.key == k)
  }

  function SectionPart(c: Catalog, section: Section): Managed { map k | k in section :: Storing(c, k, section[k]) }

  lemma {:induction false} OneMoreSection(c: Catalog, plain: Name -> bool, d: Document, managed: Managed, places: Places,
                                          scope: Scope, target: Option<Name>)
    requires OneHome(c.registry, plain) && ContentValid(c.registry, d) && PlainTargets(d, plain)
    requires Indexed(scope) && Shaped(scope, target) && AgreesOn(c, d, managed, places)
    ensures AgreesOn(c, d, managed + SectionPart(c, SectionAt(d, scope, target)), places + {(scope, target)})
  {
    var section := SectionAt(d, scope, target);
    var managed' := managed + SectionPart(c, section);
    var places' := places + {(scope, target)};
    hide ContentValid, OneHome, PlainTargets;
    forall k | k in section ensures Entry(d, Address(scope, target, k)) == Some(section[k]) {}
    hide SectionAt;
    forall a | HoldsAt(d, places', a)
      ensures a.key in managed' && managed'[a.key] == Storing(c, a.key, Entry(d, a).value)
    {
      if a.key in section {
        var b := Address(scope, target, a.key);
        HoldersHomed(c.registry, plain, d, a);
        HoldersHomed(c.registry, plain, d, b);
        HomeUnique(c.registry, plain, a, b);
      } else {
        assert HoldsAt(d, places, a);
      }
    }
    forall k | k in managed' ensures exists a :: HoldsAt(d, places', a) && a.key == k {
      if k in section {
        assert HoldsAt(d, places', Address(scope, target, k));
      } else {
        var a :| HoldsAt(d, places, a) && a.key == k;
        assert HoldsAt(d, places', a);
      }
    }
  }

  /** Record every entry of one section. */
  method LoadSection(index: Index, section: Section, revision: nat)
    requires index.Valid() && forall k :: k in section ==>
      index.catalog.registry.setting(k).Some? && index.catalog.registry.accepts(k, section[k])
    modifies index
    ensures index.Valid()
    ensures StoredPart(index.Layer(Provenance.Managed)) ==
      StoredPart(old(index.Layer(Provenance.Managed))) + SectionPart(index.catalog, section)
  {
    hide LayerOf, LayersValid, StoredPart;
    var left := section.Keys;
    ghost var done: set<Key> := {};
    ghost var first := StoredPart(index.Layer(Provenance.Managed));
    assert first + Part(index.catalog, section, {}) == first;
    while left != {}
      invariant index.Valid() && done + left == section.Keys
      invariant StoredPart(index.Layer(Provenance.Managed)) == first + Part(index.catalog, section, done)
      decreases |left|
    {
      var k :| k in left;
      PartStep(index.catalog, section, done, k, first);
      StoredStep(index.Layer(Provenance.Managed), k, (Storing(index.catalog, k, section[k]), AtRevision(revision)));
      left, done := left - {k}, done + {k};
      hide Part, Storing;
      var error := index.Record(k, section[k], Provenance.Managed, AtRevision(revision));
    }
    assert done == section.Keys;
    PartWhole(index.catalog, section);
  }

  /** The part of a section whose keys have been recorded. */
  ghost function Part(c: Catalog, section: Section, done: set<Key>): Managed
    requires done <= section.Keys
  {
    map k | k in done :: Storing(c, k, section[k])
  }

  lemma {:induction false} PartWhole(c: Catalog, section: Section)
    ensures Part(c, section, section.Keys) == SectionPart(c, section)
  {
  }

  lemma {:induction false} PartStep(c: Catalog, section: Section, done: set<Key>, k: Key, first: Managed)
    requires done <= section.Keys && k in section
    ensures first + Part(c, section, done + {k}) == (first + Part(c, section, done))[k := Storing(c, k, section[k])]
  {
  }

  lemma {:induction false} StoredStep(layer: map<Key, (Stored, Detail)>, k: Key, x: (Stored, Detail))
    ensures StoredPart(layer[k := x]) == StoredPart(layer)[k := x.0]
  {
  }

  /** Load the sections of every target of one scope. */
  method LoadTargets(index: Index, d: Document, scope: Scope, revision: nat, ghost plain: Name -> bool, ghost places: Places)
    returns (ghost places': Places)
    requires scope == World || scope == Plugin
    requires index.Valid() && OneHome(index.catalog.registry, plain) && ContentValid(index.catalog.registry, d) && PlainTargets(d, plain)
    requires AgreesOn(index.catalog, d, StoredPart(index.Layer(Provenance.Managed)), places)
    modifies index
    ensures index.Valid() && AgreesOn(index.catalog, d, StoredPart(index.Layer(Provenance.Managed)), places')
    ensures places <= places' && forall t :: t in Targeted(d, scope) ==> (scope, Some(t)) in places'
  {
    hide LayerOf, LayersValid, StoredPart, AgreesOn, OneHome, ContentValid, PlainTargets, SectionPart;
    var sections := Targeted(d, scope);
    var left := sections.Keys;
    places' := places;
    while left != {}
      invariant left <= sections.Keys && index.Valid()
      invariant AgreesOn(index.catalog, d, StoredPart(index.Layer(Provenance.Managed)), places')
      invariant places <= places' && forall t :: t in sections && t !in left ==> (scope, Some(t)) in places'
      decreases |left|
    {
      var t :| t in left;
      left := left - {t};
      SectionAccepted(index.catalog.registry, d, scope, Some(t));
      OneMoreSection(index.catalog, plain, d, StoredPart(index.Layer(Provenance.Managed)), places', scope, Some(t));
      LoadSection(index, sections[t], revision);
      places' := places' + {(scope, Some(t))};
    }
  }

  lemma {:induction false} SectionAccepted(r: Registry, d: Document, scope: Scope, target: Option<Name>)
    requires ContentValid(r, d) && Shaped(scope, target)
    ensures forall k :: k in SectionAt(d, scope, target) ==> r.setting(k).Some? && r.accepts(k, SectionAt(d, scope, target)[k])
  {
    ContentValidMeans(r, d);
    hide ContentValid, SectionAt;
    assert EntriesValid(r, d, scope);
    forall k | k in SectionAt(d, scope, target) ensures r.setting(k).Some? && r.accepts(k, SectionAt(d, scope, target)[k]) {
      assert Entry(d, Address(scope, target, k)) == Some(SectionAt(d, scope, target)[k]);
    }
  }

  /** The load at start: every non-UI section, into an index without managed values. */
  method LoadManaged(index: Index, d: Document, ghost plain: Name -> bool)
    requires index.Valid() && index.Layer(Provenance.Managed) == map[]
    requires OneHome(index.catalog.registry, plain) && ContentValid(index.catalog.registry, d) && PlainTargets(d, plain)
    modifies index
    ensures index.Valid() && Agrees(index.catalog, d, StoredPart(index.Layer(Provenance.Managed)))
  {
    ghost var places: Places := {};
    assert AgreesOn(index.catalog, d, StoredPart(index.Layer(Provenance.Managed)), places);
    hide LayerOf, LayersValid, StoredPart, AgreesOn, OneHome, ContentValid, PlainTargets, SectionPart;
    places := LoadSingle(index, d, Shared, plain, places);
    places := LoadSingle(index, d, Gateway, plain, places);
    places := LoadSingle(index, d, Secret, plain, places);
    places := LoadTargets(index, d, World, d.revision, plain, places);
    places := LoadTargets(index, d, Plugin, d.revision, plain, places);
    AllPlaces(index.catalog, d, StoredPart(index.Layer(Provenance.Managed)), places);
  }

  method LoadSingle(index: Index, d: Document, scope: Scope, ghost plain: Name -> bool, ghost places: Places)
    returns (ghost places': Places)
    requires SingleSection(scope)
    requires index.Valid() && OneHome(index.catalog.registry, plain) && ContentValid(index.catalog.registry, d) && PlainTargets(d, plain)
    requires AgreesOn(index.catalog, d, StoredPart(index.Layer(Provenance.Managed)), places)
    modifies index
    ensures index.Valid() && AgreesOn(index.catalog, d, StoredPart(index.Layer(Provenance.Managed)), places')
    ensures places' == places + {(scope, None)}
  {
    hide LayerOf, LayersValid, StoredPart, AgreesOn, OneHome, ContentValid, PlainTargets, SectionPart;
    SectionAccepted(index.catalog.registry, d, scope, None);
    OneMoreSection(index.catalog, plain, d, StoredPart(index.Layer(Provenance.Managed)), places, scope, None);
    LoadSection(index, Single(d, scope), d.revision);
    places' := places + {(scope, None)};
  }

  lemma {:induction false} AllPlaces(c: Catalog, d: Document, managed: Managed, places: Places)
    requires AgreesOn(c, d, managed, places)
    requires {(Shared, None), (Gateway, None), (Secret, None)} <= places
    requires forall t :: t in Targeted(d, World) ==> (World, Some(t)) in places
    requires forall t :: t in Targeted(d, Plugin) ==> (Plugin, Some(t)) in places
    ensures Agrees(c, d, managed)
  {
    hide Entry;
    forall a | Holds(d, a) ensures HoldsAt(d, places, a) {
      HolderPlaced(d, a);
    }
    hide Holds;
  }

  /** Where an indexed value can be. */
  lemma {:induction false} HolderPlaced(d: Document, a: Address)
    requires Holds(d, a)
    ensures a.target.None? ==> a.scope in {Shared, Gateway, Secret}
    ensures a.target.Some? ==> a.scope in {World, Plugin} && a.target.value in Targeted(d, a.scope)
  {
  }

  // ------------------------------------------------------------- when agreement is possible

  /** Two non-UI sections hold different stored values under one key. */
  ghost predicate Clash(c: Catalog, d: Document) {
    exists a, b :: Holds(d, a) && Holds(d, b) && a.key == b.key && Storing(c, a.key, Entry(d, a).value) != Storing(c, b.key, Entry(d, b).value)
  }

  /** The keys of the non-UI sections. */
  function HeldKeys(d: Document): set<Key> {
    d.shared.Keys + d.gateway.Keys + d.secretReferences.Keys
    + (set t, k | t in d.worlds && k in d.worlds[t] :: k) + (set t, k | t in d.plugins && k in d.plugins[t] :: k)
  }

  lemma {:induction false} HeldKeysAreHeld(d: Document, k: Key)
    ensures k in HeldKeys(d) <==> exists a :: Holds(d, a) && a.key == k
  {
    if k in d.shared { assert Holds(d, Address(Shared, None, k)); }
    if k in d.gateway { assert Holds(d, Address(Gateway, None, k)); }
    if k in d.secretReferences { assert Holds(d, Address(Secret, None, k)); }
    if t :| t in d.worlds && k in d.worlds[t] { assert Holds(d, Address(World, Some(t), k)); }
    if t :| t in d.plugins && k in d.plugins[t] { assert Holds(d, Address(Plugin, Some(t), k)); }
  }

  /** Some section that holds the key. */
  ghost function Holder(d: Document, k: Key): (a: Address)
    requires exists a :: Holds(d, a) && a.key == k
    ensures Holds(d, a) && a.key == k
  {
    var a :| Holds(d, a) && a.key == k;
    a
  }

  /** Exactly when a document has a managed layer that agrees with it: when no two of its
      sections clash, as those of `a` and `a.tls` can under `worlds.a.tls.enabled`. */
  lemma {:induction false} AgreementPossible(c: Catalog, d: Document)
    ensures (exists managed: Managed :: Agrees(c, d, managed)) <==> !Clash(c, d)
  {
    if Clash(c, d) {
      forall managed: Managed ensures !Agrees(c, d, managed) { ClashNeverAgrees(c, d, managed); }
    } else {
      hide HeldKeys, Entry, Storing;
      forall k ensures k in HeldKeys(d) <==> exists a :: Holds(d, a) && a.key == k { HeldKeysAreHeld(d, k); }
      var managed: Managed := map k | k in HeldKeys(d) :: Storing(c, k, Entry(d, Holder(d, k)).value);
      forall k ensures KeyAgrees(c, d, managed, k) {
        forall a | Holds(d, a) && a.key == k ensures k in managed && managed[k] == Storing(c, k, Entry(d, a).value) {
          assert Holds(d, Holder(d, k)) && Holder(d, k).key == k;
        }
      }
      assert Agrees(c, d, managed);
    }
  }

  lemma {:induction false} ClashNeverAgrees(c: Catalog, d: Document, managed: Managed)
    requires Clash(c, d)
    ensures !Agrees(c, d, managed)
  {
    hide Entry;
    var a, b :| Holds(d, a) && Holds(d, b) && a.key == b.key && Storing(c, a.key, Entry(d, a).value) != Storing(c, b.key, Entry(d, b).value);
    assert KeyAgrees(c, d, managed, a.key) ==> false;
  }

  // ------------------------------------------------------------------ a key with two homes

  /** The settings of worlds, under keys and worlds that are known by their texts. */
  function WorldCatalog(text: Name -> string, keyText: Key -> string, blank: Name, documentKey: Key, batchKey: Key): Catalog {
    Catalog(SampleRegistry((k: Key) => if WorldKey(keyText(k)) then Some(WorldSetting) else None,
                           (n: Name, k: Key) => Below("worlds", text(n), keyText(k)), blank, documentKey, batchKey),
            (k: Key) => false, (k: Key) => None)
  }

  /** Two worlds that hold the same value under one key, and the layer that agrees with them. */
  function TwoWorlds(t: Name, u: Name, k: Key, v: Value): Service {
    Service(Disk(None, EMPTY_DOCUMENT.(worlds := map[t := map[k := v], u := map[k := v]]), []), EMPTY_DOCUMENT, [], map[k := Kept(v)])
  }

  function ResetIn(t: Name, k: Key, stamp: Stamp): Step {
    Step(0, Reset(Address(World, Some(t), k)), stamp, Faults(false, false, false, false))
  }

  /** Without any clash the agreement can still be lost: when the worlds `a` and `a.tls` both
      hold `worlds.a.tls.enabled` with one value, resetting it under `a` clears the key although
      `a.tls` still holds it. So for every world and every grouped setting. */
  lemma {:induction false} ResetWithTwoHomes(text: Name -> string, keyText: Key -> string, world: string, group: string, field: string,
                                             t: Name, u: Name, blank: Name, k: Key, documentKey: Key, batchKey: Key, v: Value, stamp: Stamp)
    requires DotFree(world) && world != "" && (group, field) in WORLD_GROUP_FIELDS
    requires text(t) == world && text(u) == world + "." + group && text(blank) == ""
    requires keyText(k) == GroupedKey(world, group, field)
    requires documentKey != batchKey && !WorldKey(keyText(documentKey)) && !WorldKey(keyText(batchKey))
    ensures var c := WorldCatalog(text, keyText, blank, documentKey, batchKey);
      var (s, step) := (TwoWorlds(t, u, k, v), ResetIn(t, k, stamp));
      var after := Served(c, s, step);
      && c.registry.Proper() && Inv(c.registry, s.disk, s.before) && MemoryTells(s)
      && Agrees(c, s.disk.document, s.managed) && Outcome(c.registry, s.disk, step).Success?
      && !Clash(c, s.disk.document) && !Clash(c, after.disk.document)
      && !Agrees(c, after.disk.document, after.managed)
  {
    hide WorldKey, Below, GroupedKey, Transact, Inv, MemoryTells, Agrees, SyncedAll, Remembering, Affected, Clash, DotFree,
         WORLD_GROUP_FIELDS, DocumentValid, Entry, Put;
    var c := WorldCatalog(text, keyText, blank, documentKey, batchKey);
    var r, s, step := c.registry, TwoWorlds(t, u, k, v), ResetIn(t, k, stamp);
    GroupedKeyHasTwo(world, group, field);
    assert |text(u)| > |text(t)|;
    TwoWorldsStart(c, t, u, k, v);
    ResetStart(c, t, u, k, v);
    assert ChangeError(r, Change(step.request.address, None)).None?;
    OneChangeCommits(r, s.disk, step, Change(step.request.address, None));
    OneChangeAgreesIff(c, s, step);
  }

  /** Only the two worlds hold the key, with the same value. */
  lemma {:induction false} TwoWorldsHold(t: Name, u: Name, k: Key, v: Value)
    ensures var d := TwoWorlds(t, u, k, v).disk.document;
      && Holds(d, Address(World, Some(t), k)) && Holds(d, Address(World, Some(u), k))
      && forall a :: Entry(d, a).Some? ==> a.scope == World && a.target in {Some(t), Some(u)} && a.key == k && Entry(d, a) == Some(v)
  {
  }

  lemma {:induction false} TwoWorldsStart(c: Catalog, t: Name, u: Name, k: Key, v: Value)
    requires c.registry.setting(k) == Some(WorldSetting) && !c.sensitive(k) && c.registry.accepts(k, v)
    requires c.registry.worldKey(t, k) && c.registry.worldKey(u, k)
    requires (forall d :: c.registry.documentSize(d) == 0)
    ensures var s := TwoWorlds(t, u, k, v);
      && Inv(c.registry, s.disk, s.before) && MemoryTells(s)
      && Agrees(c, s.disk.document, s.managed) && !Clash(c, s.disk.document)
  {
    var d := TwoWorlds(t, u, k, v).disk.document;
    assert Latest([], 0) == [];
    TwoWorldsHold(t, u, k, v);
    hide Entry, ContentValid;
    ContentValidMeans(c.registry, d);
    ContentValidMeans(c.registry, EMPTY_DOCUMENT);
    NothingInEmpty();
  }

  lemma {:induction false} NothingInEmpty()
    ensures forall a :: Entry(EMPTY_DOCUMENT, a).None?
  {
  }

  /** Without its entry in `t` only `u` holds the key. */
  lemma {:induction false} OneWorldHolds(t: Name, u: Name, k: Key, v: Value)
    requires t != u
    ensures var e := Put(TwoWorlds(t, u, k, v).disk.document, Address(World, Some(t), k), None).(revision := 1);
      forall a :: Entry(e, a).Some? ==> a == Address(World, Some(u), k) && Entry(e, a) == Some(v)
  {
    hide Entry, Put;
    var d, a := TwoWorlds(t, u, k, v).disk.document, Address(World, Some(t), k);
    TwoWorldsHold(t, u, k, v);
    PutReadsBack(d, a, None);
    RevisionKeepsContent(Put(d, a, None), 1);
  }

  lemma {:induction false} ResetStart(c: Catalog, t: Name, u: Name, k: Key, v: Value)
    requires c.registry.setting(k) == Some(WorldSetting) && c.registry.accepts(k, v)
    requires c.registry.worldKey(t, k) && c.registry.worldKey(u, k) && t != u
    requires forall d :: c.registry.documentSize(d) == 0
    ensures var (d, a) := (TwoWorlds(t, u, k, v).disk.document, Address(World, Some(t), k));
      && Entry(d, a) == Some(v) && Shaped(World, Some(t)) && Holds(d, Address(World, Some(u), k))
      && DocumentValid(c.registry, Put(d, a, None).(revision := 1)) && !Clash(c, Put(d, a, None).(revision := 1))
  {
    hide Entry, ContentValid, Put;
    var d, a := TwoWorlds(t, u, k, v).disk.document, Address(World, Some(t), k);
    var e := Put(d, a, None).(revision := 1);
    TwoWorldsHold(t, u, k, v);
    OneWorldHolds(t, u, k, v);
    ContentValidMeans(c.registry, e);
  }
}
