/** The migration store: submitted proposals, the preview over them, and the application and
    rollback of what was accepted (`GatewayMigrationStore` in `src/tfr/gateway_migration.py`). */
module MigrationStore {
  import opened Wrappers
  import opened Sequences
  import opened Configuration
  import opened ConfigurationPlan
  import opened ConfigurationStore
  import opened Migration

  datatype MigrationError =
    | TooManySettings | FutureRevision | TooManyProposals | NotRegistered | NoDestination
    | Unresolved | Changed | Invalid | NothingApplied | Refused(error: Error)

  /** A UI's resubmission takes the place of its earlier proposal. */
  function Submitted(proposals: seq<Proposal>, p: Proposal): seq<Proposal> {
    if proposals == [] then [p]
    else if proposals[0].ui == p.ui then [p] + proposals[1..]
    else [proposals[0]] + Submitted(proposals[1..], p)
  }

  predicate Known(proposals: seq<Proposal>, ui: UiId) { exists p :: p in proposals && p.ui == ui }

  lemma {:induction false} SubmittedKeeps(proposals: seq<Proposal>, p: Proposal)
    requires OnePerUi(proposals)
    ensures OnePerUi(Submitted(proposals, p))
    ensures |Submitted(proposals, p)| == |proposals| + if Known(proposals, p.ui) then 0 else 1
    ensures forall q :: q in Submitted(proposals, p) <==> q == p || (q in proposals && q.ui != p.ui)
  {
    if proposals != [] {
      var first, rest := proposals[0], proposals[1..];
      assert proposals == [first] + rest;
      OnePerUiCons(first, rest);
      OnePerUiCons(p, rest);
      SubmittedKeeps(rest, p);
      OnePerUiCons(first, Submitted(rest, p));
      hide OnePerUi;
    }
  }

  /** A resubmission takes the place of the earlier proposal; a first one comes last. */
  lemma {:induction false} SubmittedInPlace(proposals: seq<Proposal>, p: Proposal)
    requires OnePerUi(proposals)
    ensures (forall q :: q in proposals ==> q.ui != p.ui) ==> Submitted(proposals, p) == proposals + [p]
    ensures (exists q :: q in proposals && q.ui == p.ui) ==>
      && |Submitted(proposals, p)| == |proposals|
      && forall i :: 0 <= i < |proposals| ==> Submitted(proposals, p)[i] == if proposals[i].ui == p.ui then p else proposals[i]
  {
    if proposals != [] {
      var first, rest := proposals[0], proposals[1..];
      assert proposals == [first] + rest;
      OnePerUiCons(first, rest);
      SubmittedInPlace(rest, p);
      hide OnePerUi;
    }
  }

  lemma {:induction false} OnePerUiCons(p: Proposal, proposals: seq<Proposal>)
    ensures OnePerUi([p] + proposals) <==> OnePerUi(proposals) && forall q :: q in proposals ==> q.ui != p.ui
  {
    if OnePerUi([p] + proposals) {
      OnePerUiRest(p, proposals);
    }
    if OnePerUi(proposals) && forall q :: q in proposals ==> q.ui != p.ui {
      OneMoreUi(p, proposals);
    }
  }

  lemma {:induction false} OnePerUiRest(p: Proposal, proposals: seq<Proposal>)
    requires OnePerUi([p] + proposals)
    ensures OnePerUi(proposals) && forall q :: q in proposals ==> q.ui != p.ui
  {
    var all := [p] + proposals;
    forall i | 0 <= i < |proposals| ensures proposals[i].ui != p.ui {
      assert all[0] == p && all[i + 1] == proposals[i];
    }
    forall i, j | 0 <= i < j < |proposals| ensures proposals[i].ui != proposals[j].ui {
      assert all[i + 1] == proposals[i] && all[j + 1] == proposals[j];
    }
  }

  lemma {:induction false} OneMoreUi(p: Proposal, proposals: seq<Proposal>)
    requires OnePerUi(proposals) && forall q :: q in proposals ==> q.ui != p.ui
    ensures OnePerUi([p] + proposals)
  {
    var all := [p] + proposals;
    forall i, j | 0 <= i < j < |all| ensures all[i].ui != all[j].ui {
      assert all[j] == proposals[j - 1];
      assert i > 0 ==> all[i] == proposals[i - 1];
    }
  }

  /** A store only ever holds proposals as they are collected. */
  lemma {:induction false} SubmissionsKeep(r: Rules, proposals: seq<Proposal>, p: Proposal)
    requires Submissions(r, proposals) && OwnSlots(r, p.ui, p.settings)
    ensures Submissions(r, Submitted(proposals, p))
  {
    hide Submitted, OnePerUi, OwnSlots;
    SubmittedKeeps(proposals, p);
  }

  /** The slot that sorts first. */
  method LeastSlot(r: Rules, left: set<Slot>) returns (first: Slot)
    requires left != {} && r.Proper()
    ensures first in left && forall s :: s in left && s != first ==> r.position(first) < r.position(s)
  {
    first := Least(left, r.position);
  }

  ghost predicate Sorted(r: Rules, slots: seq<Slot>) {
    forall i, j :: 0 <= i < j < |slots| ==> r.position(slots[i]) < r.position(slots[j])
  }

  ghost predicate Grouping(offers: seq<(Slot, Candidate)>, groups: map<Slot, seq<Candidate>>) {
    forall s :: (s in groups <==> Group(offers, s) != []) && (s in groups ==> groups[s] == Group(offers, s))
  }

  lemma {:induction false} OneMoreOffer(offers: seq<(Slot, Candidate)>, groups: map<Slot, seq<Candidate>>, offer: (Slot, Candidate))
    requires Grouping(offers, groups)
    ensures Grouping(offers + [offer], groups[offer.0 := (if offer.0 in groups then groups[offer.0] else []) + [offer.1]])
  {
    forall s ensures Group(offers + [offer], s) == if offer.0 == s then Group(offers, s) + [offer.1] else Group(offers, s) {
      assert (offers + [offer])[..|offers|] == offers;
    }
    hide Group;
  }

  /** Every slot is decided and every accepted value has a place to go. */
  ghost predicate Resolved(r: Rules, d: Document, proposals: seq<Proposal>, choices: map<Key, Choice>) {
    forall s :: Settled(r, s, DecisionAt(r, d, proposals, s, choices))
  }

  predicate Settled(r: Rules, s: Slot, decision: Option<Decision>) {
    && decision !in {Some(Unregistered), Some(Misplaced), Some(Conflict)}
    && (decision.Some? && decision.value.Accept? ==>
          s.home.Stored? && Placing(r.registry, Address(s.home.scope, decision.value.target, decision.value.key)).None?)
  }

  predicate Raises(d: Decision) { d.Unregistered? || d.Misplaced? }

  class GatewayMigrationStore {
    const configuration: GatewayConfigurationStore
    const rules: Rules
    var proposals: seq<Proposal>
    var preMigration: Option<Document>
    var appliedRevision: Option<nat>

    constructor (configuration: GatewayConfigurationStore, rules: Rules)
      ensures this.configuration == configuration && this.rules == rules && OnePerUi(proposals)
      ensures proposals == [] && preMigration.None? && appliedRevision.None?
    {
      this.configuration, this.rules := configuration, rules;
      proposals, preMigration, appliedRevision := [], None, None;
    }

    method Submit(p: Proposal) returns (error: Option<MigrationError>)
      requires OnePerUi(proposals)
      modifies this`proposals
      ensures OnePerUi(proposals)
      ensures error.None? <==>
        |p.settings| <= 2_000 && p.baseRevision <= configuration.document.revision
        && ((exists q :: q in old(proposals) && q.ui == p.ui) || |old(proposals)| < 64)
      ensures proposals == if error.None? then Submitted(old(proposals), p) else old(proposals)
      ensures |old(proposals)| <= 64 ==> |proposals| <= 64
    {
      if |p.settings| > MAX_MIGRATION_SETTINGS {
        return Some(TooManySettings);
      }
      if p.baseRevision > configuration.document.revision {
        return Some(FutureRevision);
      }
      if !Known(proposals, p.ui) && |proposals| >= MAX_MIGRATION_PROPOSALS {
        return Some(TooManyProposals);
      }
      SubmittedKeeps(proposals, p);
      proposals := Submitted(proposals, p);
      return None;
    }

    method Grouped() returns (groups: map<Slot, seq<Candidate>>)
      ensures Grouping(AllOffers(proposals), groups)
    {
      hide Grouping, Group;
      groups := map[];
      NoOffers();
      ghost var offers: seq<(Slot, Candidate)> := [];
      for i := 0 to |proposals|
        invariant offers == AllOffers(proposals[..i]) && Grouping(offers, groups)
      {
        var p := proposals[i];
        ghost var before := offers;
        assert proposals[..i + 1][..i] == proposals[..i];
        for j := 0 to |p.settings|
          invariant offers == before + Offers(p)[..j] && Grouping(offers, groups)
        {
          var setting := p.settings[j];
          var candidate := Candidate(p.ui, p.name, setting.value, setting.sensitive);
          assert Offers(p)[..j + 1] == Offers(p)[..j] + [(setting.slot, candidate)];
          OneMoreOffer(offers, groups, (setting.slot, candidate));
          groups := groups[setting.slot := (if setting.slot in groups then groups[setting.slot] else []) + [candidate]];
          offers := offers + [(setting.slot, candidate)];
        }
        assert Offers(p)[..|p.settings|] == Offers(p);
      }
      assert proposals[..|proposals|] == proposals;
    }

    /** The decision for every slot, unless some slot cannot be previewed at all. */
    method Preview(choices: map<Key, Choice>) returns (r: Result<map<Slot, Decision>, MigrationError>)
      ensures r.Success? ==> forall s ::
        DecisionAt(rules, configuration.document, proposals, s, choices) == if s in r.value then Some(r.value[s]) else None
      ensures r.Success? ==> forall s :: s in r.value ==> !Raises(r.value[s])
      ensures r.Failure? <==> exists s ::
        DecisionAt(rules, configuration.document, proposals, s, choices) in {Some(Unregistered), Some(Misplaced)}
      ensures r.Failure? ==> r.error == NotRegistered || r.error == NoDestination
    {
      hide Decide, Group, AllOffers;
      var groups := Grouped();
      var decisions: map<Slot, Decision> := map[];
      var left := groups.Keys;
      while left != {}
        invariant left <= groups.Keys && decisions.Keys == groups.Keys - left
        invariant forall s :: s in decisions ==>
          DecisionAt(rules, configuration.document, proposals, s, choices) == Some(decisions[s]) && !Raises(decisions[s])
        decreases |left|
      {
        var s :| s in left;
        left := left - {s};
        var decision := Decide(rules, configuration.document, s, groups[s], if s.key in choices then Some(choices[s.key]) else None);
        assert DecisionAt(rules, configuration.document, proposals, s, choices) == Some(decision);
        if decision.Unregistered? {
          return Failure(NotRegistered);
        }
        if decision.Misplaced? {
          return Failure(NoDestination);
        }
        decisions := decisions[s := decision];
      }
      return Success(decisions);
    }

    /** Write every accepted item in the order of its slots; the other results say which items,
        and which slots they came from. */
    method WriteAccepted(decisions: map<Slot, Decision>, choices: map<Key, Choice>)
      returns (r: Result<Document, MigrationError>, slots: seq<Slot>, items: seq<Item>)
      requires rules.Proper()
      requires forall s ::
        DecisionAt(rules, configuration.document, proposals, s, choices) == (if s in decisions then Some(decisions[s]) else None)
      ensures FromDecisions(rules, configuration.document, proposals, choices, slots, items) && Sorted(rules, slots)
      ensures r.Success? ==> Applied(rules.registry, configuration.document, items) == Success(r.value)
      ensures r.Success? ==> forall s :: s in slots <==> s in decisions && decisions[s].Accept?
      ensures r.Success? <==> forall s :: s in decisions && decisions[s].Accept? ==> Settled(rules, s, Some(decisions[s]))
      ensures r.Failure? ==> r.error == NoDestination
    {
      hide DecisionAt, Put, Placing, Rules.Proper, FromDecisions, Applied, Sorted;
      var document := configuration.document;
      slots, items := [], [];
      NothingAccepted(rules, configuration.document, proposals, choices);
      var left := decisions.Keys;
      while left != {}
        invariant left <= decisions.Keys
        invariant FromDecisions(rules, configuration.document, proposals, choices, slots, items) && Sorted(rules, slots)
        invariant forall s, t :: s in slots && t in left ==> rules.position(s) < rules.position(t)
        invariant Applied(rules.registry, configuration.document, items) == Success(document)
        invariant forall s :: s in slots <==> s in decisions && s !in left && decisions[s].Accept?
        invariant forall s :: s in decisions && s !in left && decisions[s].Accept? ==> Settled(rules, s, Some(decisions[s]))
        decreases |left|
      {
        var s := LeastSlot(rules, left);
        left := left - {s};
        var decision := decisions[s];
        if decision.Accept? {
          AcceptedKinds(rules, configuration.document, proposals, choices, s);
          var item := ItemOf(s, decision);
          if Placing(rules.registry, item.address).Some? {
            return Failure(NoDestination), slots, items;
          }
          PlacingShapes(rules.registry, item.address);
          OneMoreItem(rules, configuration.document, proposals, choices, slots, items, s, document);
          slots, items := slots + [s], items + [item];
          document := Put(document, item.address, Some(item.value));
        }
      }
      return Success(document), slots, items;
    }

    /** Preview and write: a failed preview or a conflict leaves nothing accepted. */
    method AcceptAll(choices: map<Key, Choice>)
      returns (r: Result<Document, MigrationError>, slots: seq<Slot>, items: seq<Item>)
      requires rules.Proper()
      ensures FromDecisions(rules, configuration.document, proposals, choices, slots, items) && Sorted(rules, slots)
      ensures r.Success? <==> Resolved(rules, configuration.document, proposals, choices)
      ensures r.Success? ==> Applied(rules.registry, configuration.document, items) == Success(r.value)
      ensures r.Success? ==> forall s :: s in slots <==>
        DecisionAt(rules, configuration.document, proposals, s, choices).Some?
        && DecisionAt(rules, configuration.document, proposals, s, choices).value.Accept?
    {
      hide DecisionAt, FromDecisions, Applied, Sorted, Rules.Proper;
      NothingAccepted(rules, configuration.document, proposals, choices);
      var preview := Preview(choices);
      if preview.Failure? {
        return Failure(preview.error), [], [];
      }
      if exists s :: s in preview.value && preview.value[s].Conflict? {
        return Failure(Unresolved), [], [];
      }
      r, slots, items := WriteAccepted(preview.value, choices);
    }

    /** `apply`: one audited whole-document revision, remembering the document before it. */
    method Apply(expected: int, choices: map<Key, Choice>, secrets: map<Key, Value>, valid: Document -> bool,
                 stamp: Stamp, faults: Faults)
      returns (r: Result<nat, MigrationError>, slots: seq<Slot>, items: seq<Item>)
      requires rules.registry == configuration.registry && rules.Proper()
      modifies this`preMigration, this`appliedRevision, configuration, configuration.directory
      ensures FromDecisions(rules, old(configuration.document), proposals, choices, slots, items) && Sorted(rules, slots)
      ensures expected == old(configuration.document).revision && Resolved(rules, old(configuration.document), proposals, choices) ==>
        && Applied(rules.registry, old(configuration.document), items).Success?
        && forall s :: s in slots <==>
             DecisionAt(rules, old(configuration.document), proposals, s, choices).Some?
             && DecisionAt(rules, old(configuration.document), proposals, s, choices).value.Accept?
      ensures r.Success? <==>
        && expected == old(configuration.document).revision && Resolved(rules, old(configuration.document), proposals, choices)
        && var written := Applied(rules.registry, old(configuration.document), items).value;
           var proposed := written.(secretReferences := written.secretReferences + secrets);
           valid(proposed) &&
           Transact(configuration.registry, old(configuration.directory.Holds()), expected, Replace(proposed, ClientReload), stamp, faults).1.Success?
      ensures r.Success? ==>
        && Applied(rules.registry, old(configuration.document), items).Success?
        && (forall a: Address :: Entry(configuration.directory.document, a) ==
              if a.scope == Secret && a.target.None? && a.key in secrets then Some(secrets[a.key])
              else Entry(Applied(rules.registry, old(configuration.document), items).value, a))
        && configuration.directory.document.revision == expected + 1 == r.value
        && preMigration == Some(old(configuration.document)) && appliedRevision == Some(r.value)
      ensures r.Failure? ==> preMigration == old(preMigration) && appliedRevision == old(appliedRevision)
      ensures r.Failure? && !faults.restore ==> configuration.directory.document == old(configuration.directory.document)
    {
      hide DecisionAt, Entry, Transact, FromDecisions, Applied, Sorted, Rules.Proper;
      slots, items := [], [];
      NothingAccepted(rules, configuration.document, proposals, choices);
      if expected != configuration.document.revision {
        return Failure(Changed), slots, items;
      }
      var written;
      written, slots, items := AcceptAll(choices);
      if written.Failure? {
        return Failure(written.error), slots, items;
      }
      var proposed := written.value.(secretReferences := written.value.secretReferences + secrets);
      if !valid(proposed) {
        return Failure(Invalid), slots, items;
      }
      var before, revision := preMigration, appliedRevision;
      preMigration, appliedRevision := Some(configuration.document), Some(configuration.document.revision + 1);
      var mutation := configuration.ReplaceDocument(proposed, ClientReload, expected, stamp, faults);
      ReplaceOutcome(configuration.registry, old(configuration.directory.Holds()), expected, proposed, ClientReload, stamp, faults);
      if mutation.Failure? {
        preMigration, appliedRevision := before, revision;
        return Failure(Refused(mutation.error)), slots, items;
      }
      SecretsAdded(written.value, secrets, expected + 1);
      return Success(expected + 1), slots, items;
    }

    /** `rollback`: only the expected revision is compared, not the applied one. */
    method Rollback(expected: int, stamp: Stamp, faults: Faults) returns (r: Result<nat, MigrationError>)
      modifies this`appliedRevision, configuration, configuration.directory
      ensures r.Success? ==>
        && old(preMigration).Some? && old(appliedRevision).Some? && expected == old(configuration.directory.document).revision
        && configuration.directory.document == old(preMigration).value.(revision := expected + 1)
        && appliedRevision.None? && preMigration == old(preMigration) && r.value == expected + 1
      ensures r.Failure? ==> appliedRevision == old(appliedRevision)
      ensures r.Failure? && !faults.restore ==> configuration.directory.document == old(configuration.directory.document)
      ensures r.Success? <==>
        && old(preMigration).Some? && old(appliedRevision).Some? && expected == old(configuration.document).revision
        && Transact(configuration.registry, old(configuration.directory.Holds()), expected,
                    Replace(old(preMigration).value, ClientReload), stamp, faults).1.Success?
    {
      hide Transact;
      if preMigration.None? || appliedRevision.None? {
        return Failure(NothingApplied);
      }
      if expected != configuration.document.revision {
        return Failure(Changed);
      }
      var mutation := configuration.ReplaceDocument(preMigration.value, ClientReload, expected, stamp, faults);
      ReplaceOutcome(configuration.registry, old(configuration.directory.Holds()), expected, preMigration.value, ClientReload, stamp, faults);
      if mutation.Failure? {
        return Failure(Refused(mutation.error));
      }
      appliedRevision := None;
      return Success(expected + 1);
    }
  }

  lemma {:induction false} NothingAccepted(r: Rules, d: Document, proposals: seq<Proposal>, choices: map<Key, Choice>)
    ensures FromDecisions(r, d, proposals, choices, [], []) && Sorted(r, []) && Applied(r.registry, d, []) == Success(d)
  {
  }

  /** Accepting one more slot, after all those before it. */
  lemma {:induction false} OneMoreItem(r: Rules, d: Document, proposals: seq<Proposal>, choices: map<Key, Choice>,
                                       slots: seq<Slot>, items: seq<Item>, s: Slot, document: Document)
    requires FromDecisions(r, d, proposals, choices, slots, items) && Sorted(r, slots)
    requires forall t :: t in slots ==> r.position(t) < r.position(s)
    requires Applied(r.registry, d, items) == Success(document)
    requires s.home.Stored? && DecisionAt(r, d, proposals, s, choices).Some? && DecisionAt(r, d, proposals, s, choices).value.Accept?
    requires Placing(r.registry, ItemOf(s, DecisionAt(r, d, proposals, s, choices).value).address).None?
    ensures var item := ItemOf(s, DecisionAt(r, d, proposals, s, choices).value);
      && FromDecisions(r, d, proposals, choices, slots + [s], items + [item]) && Sorted(r, slots + [s])
      && Shaped(item.address.scope, item.address.target)
      && Applied(r.registry, d, items + [item]) == Success(Put(document, item.address, Some(item.value)))
  {
    var item := ItemOf(s, DecisionAt(r, d, proposals, s, choices).value);
    PlacingShapes(r.registry, item.address);
    hide DecisionAt, Put, Placing;
    assert (items + [item])[..|items|] == items;
    assert forall i :: 0 <= i < |slots| ==> slots[i] in slots;
  }

  lemma {:induction false} ReplaceOutcome(r: Registry, disk: Disk, expected: int, replacement: Document, restart: Restart,
                                          stamp: Stamp, faults: Faults)
    ensures var (next, outcome) := Transact(r, disk, expected, Replace(replacement, restart), stamp, faults);
      && (outcome.Success? ==> expected == disk.document.revision && next.document == replacement.(revision := disk.document.revision + 1))
      && (outcome.Failure? && !faults.restore ==> next.document == disk.document)
  {
    hide DocumentValid, Appended;
  }

  /** Adding secret references, at any revision, changes those entries only. */
  lemma {:induction false} SecretsAdded(d: Document, secrets: map<Key, Value>, revision: nat)
    ensures var e := d.(secretReferences := d.secretReferences + secrets, revision := revision);
      forall a: Address :: Entry(e, a) ==
        if a.scope == Secret && a.target.None? && a.key in secrets then Some(secrets[a.key]) else Entry(d, a)
  {
    var e := d.(secretReferences := d.secretReferences + secrets, revision := revision);
    forall a: Address | Shaped(a.scope, a.target)
      ensures a.scope != Secret ==> SectionAt(e, a.scope, a.target) == SectionAt(d, a.scope, a.target)
      ensures a.scope == Secret ==> SectionAt(e, a.scope, a.target) == SectionAt(d, a.scope, a.target) + secrets
    {}
    hide SectionAt;
  }

  lemma {:induction false} NoOffers()
    ensures Grouping(AllOffers([]), map[]) && AllOffers([]) == []
  {
  }
}
