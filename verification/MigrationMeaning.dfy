/** What the migration preview decides, spelled out (`src/tfr/gateway_migration.py`). */
module MigrationMeaning {
  import opened Wrappers
  import opened Sequences
  import opened Configuration
  import SpeakerRules
  import opened Migration

  // ---------------------------------------------------------------------- collecting

  /** Where each registered setting goes: a UI's own for both kinds of UI settings, but the
      Gateway's legacy settings for UI types go to the terminal. */
  lemma {:induction false} SlotsAre(r: Rules, origin: Origin, ui: UiId, key: Key)
    ensures var slot := SlotFor(r, origin, ui, key);
      match r.registry.setting(key)
      case None => slot.None?
      case Some(scope) =>
        && slot.Some? && slot.value.key == key
        && (slot.value.home == Bootstrap <==> scope.BootstrapSetting?)
        && (slot.value.home == Stored(Secret) <==> scope.SecretSetting?)
        && (slot.value.home == Stored(Shared) <==> scope.SharedSetting?)
        && (slot.value.home == Stored(Scope.Gateway) <==> scope.GatewaySetting?)
        && (slot.value.home == Stored(World) <==> scope.WorldSetting?)
        && (slot.value.home == Stored(Plugin) <==> scope.PluginSetting?)
        && (slot.value.home == Stored(UiType) <==> scope.UiTypeSetting? && origin.FromGateway?)
        && (slot.value.home == Stored(Ui) <==> scope.UiSetting? || (scope.UiTypeSetting? && origin.FromUi?))
        && slot.value.target == match slot.value.home
           case Stored(Ui) => Some(r.uiTarget(ui))
           case Stored(UiType) => Some(r.registry.terminal)
           case Stored(World) => r.worldOf(key)
           case Stored(Plugin) => r.pluginOf(key)
           case _ => None
  {
  }

  /** What is proposed: one setting for each item with a registered key, in order; the value of
      a sensitive one is never sent. */
  lemma {:induction false} CollectedAre(r: Rules, origin: Origin, ui: UiId, values: seq<(Key, Value)>, key: Key, value: Value)
    ensures Collected(r, origin, ui, []) == []
    ensures var slot := SlotFor(r, origin, ui, key);
      Collected(r, origin, ui, values + [(key, value)]) ==
        if slot.None? then Collected(r, origin, ui, values)
        else
          var setting := if r.sensitive(key) then Setting(slot.value, r.absent, true) else Setting(slot.value, value, false);
          Collected(r, origin, ui, values) + [setting]
  {
    assert (values + [(key, value)])[..|values|] == values;
  }

  // ----------------------------------------------------------------------- grouping

  /** Some UI proposed this value for the slot. */
  ghost predicate Proposed(proposals: seq<Proposal>, slot: Slot, c: Candidate) {
    exists p :: p in proposals && c.ui == p.ui && c.name == p.name && Setting(slot, c.value, c.sensitive) in p.settings
  }

  /** The candidates for a slot are what the UIs proposed for it. */
  lemma {:induction false} GroupIs(proposals: seq<Proposal>, slot: Slot, c: Candidate)
    ensures c in Group(AllOffers(proposals), slot) <==> Proposed(proposals, slot, c)
  {
    GroupMember(AllOffers(proposals), slot, c);
    AllOffersMember(proposals, (slot, c));
    hide Group, AllOffers;
    forall p ensures (slot, c) in Offers(p) <==> c.ui == p.ui && c.name == p.name && Setting(slot, c.value, c.sensitive) in p.settings {
      OffersIs(p, slot, c);
    }
    hide Offers;
  }

  lemma {:induction false} OffersIs(p: Proposal, slot: Slot, c: Candidate)
    ensures (slot, c) in Offers(p) <==> c.ui == p.ui && c.name == p.name && Setting(slot, c.value, c.sensitive) in p.settings
  {
    if (slot, c) in Offers(p) {
      var i :| 0 <= i < |p.settings| && Offers(p)[i] == (slot, c);
      assert p.settings[i] == Setting(slot, c.value, c.sensitive);
    }
    if c.ui == p.ui && c.name == p.name && Setting(slot, c.value, c.sensitive) in p.settings {
      var i :| 0 <= i < |p.settings| && p.settings[i] == Setting(slot, c.value, c.sensitive);
      assert Offers(p)[i] == (slot, c);
    }
  }

  // ----------------------------------------------------------------------- deciding

  /** A slot that no section can hold: a shared one with a target, or a targeted one without. */
  predicate Homeless(r: Rules, slot: Slot)
    requires slot.home.Stored?
  {
    if slot.home.scope in {Shared, Scope.Gateway, Secret} then slot.target.Some?
    else slot.target.None? || slot.target.value == r.registry.blank
  }

  /** What is decided before any values are compared. */
  lemma {:induction false} UndisputedIs(r: Rules, d: Document, slot: Slot, s: seq<Candidate>, choice: Option<Choice>)
    requires s != []
    ensures var decision := Decide(r, d, slot, s, choice);
      if r.registry.setting(slot.key).None? then decision == Unregistered
      else if slot.home == Bootstrap then decision == Ignored
      else if Homeless(r, slot) then decision == Misplaced
      else
        var managed := Entry(d, Address(slot.home.scope, slot.target, slot.key));
        if managed.Some? then
          var merged := r.fromRules(SpeakerRules.Merged(r.fold, r.asRules(managed.value), RuleValues(r, s)));
          decision == if slot.key == r.speakerKey && merged != managed.value then Accept(slot.target, slot.key, merged) else AlreadyManaged
        else if slot.home.scope == Secret || exists c :: c in s && c.sensitive then decision == Insecure
        else if slot.home.scope == Ui || forall c, e :: c in s && e in s ==> c.value == e.value
        then decision == Accept(slot.target, slot.key, s[0].value)
        else decision.Skipped? || decision.Conflict? || decision.Accept?
  {
    hide Entry, Filter;
  }

  /** The candidate that a choice names, by the UI's identifier or its name: the first one. */
  ghost predicate Chosen(r: Rules, s: seq<Candidate>, who: UiText, i: nat) {
    && i < |s| && (r.idText(s[i].ui) == who || s[i].name == who)
    && forall j :: 0 <= j < i ==> r.idText(s[j].ui) != who && s[j].name != who
  }

  lemma {:induction false} FirstMatchIs(r: Rules, s: seq<Candidate>, who: UiText)
    ensures FirstMatch(r, s, who).Some? ==> exists i: nat :: Chosen(r, s, who, i) && FirstMatch(r, s, who).value == s[i]
    ensures forall i: nat :: Chosen(r, s, who, i) ==> FirstMatch(r, s, who) == Some(s[i])
  {
    if s != [] {
      var rest := s[1..];
      FirstMatchIs(r, rest, who);
      assert s == [s[0]] + rest;
      if r.idText(s[0].ui) == who || s[0].name == who {
        assert Chosen(r, s, who, 0);
      } else {
        forall i: nat | 0 < i ensures Chosen(r, s, who, i) <==> Chosen(r, rest, who, i - 1) {
          ChosenInRest(r, s, who, i);
        }
        if FirstMatch(r, s, who).Some? {
          var i: nat :| Chosen(r, rest, who, i) && FirstMatch(r, rest, who).value == rest[i];
          assert Chosen(r, s, who, i + 1) && s[i + 1] == rest[i];
        }
      }
    }
  }

  lemma {:induction false} ChosenInRest(r: Rules, s: seq<Candidate>, who: UiText, i: nat)
    requires s != [] && r.idText(s[0].ui) != who && s[0].name != who && 0 < i
    ensures Chosen(r, s, who, i) <==> Chosen(r, s[1..], who, i - 1)
  {
    assert forall j :: 0 < j < |s| ==> s[j] == s[1..][j - 1];
    if Chosen(r, s[1..], who, i - 1) {
      forall j | 0 <= j < i ensures r.idText(s[j].ui) != who && s[j].name != who {
        assert j > 0 ==> s[j] == s[1..][j - 1];
      }
    }
  }

  /** Several values, and a choice: skipping skips; naming a UI takes the first candidate of
      that identifier or name; a rename sends it to another target, under the key of that world
      if it is a world's; without a candidate of that name the conflict stays. */
  lemma {:induction false} ChoiceDecides(r: Rules, d: Document, slot: Slot, s: seq<Candidate>, choice: Choice)
    requires Disputed(r, d, slot, s)
    ensures var decision := Decide(r, d, slot, s, Some(choice));
      match choice
      case Skip => decision == Skipped
      case Pick(who) =>
        && ((forall i: nat :: !Chosen(r, s, who, i)) ==> decision == Conflict)
        && forall i: nat :: Chosen(r, s, who, i) ==> decision == Accept(slot.target, slot.key, s[i].value)
      case Rename(who, target) =>
        && ((forall i: nat :: !Chosen(r, s, who, i)) ==> decision == Conflict)
        && (forall i: nat :: Chosen(r, s, who, i) ==> (
              decision ==
              if target == r.registry.blank then Accept(slot.target, slot.key, s[i].value)
              else if slot.home == Stored(World) && slot.target.Some? && slot.target.value != r.registry.blank
              then Accept(Some(target), r.renamed(slot.key, slot.target.value, target), s[i].value)
              else Accept(Some(target), slot.key, s[i].value)))
      case NotARename => decision == Decide(r, d, slot, s, None)
  {
    hide Entry, Placing, Filter, Uniform;
    if choice.Pick? || choice.Rename? {
      FirstMatchIs(r, s, choice.who);
    }
    hide FirstMatch, Chosen, NonDefault;
  }

  /** What makes a slot disputed. */
  lemma {:induction false} DisputedIs(r: Rules, d: Document, slot: Slot, s: seq<Candidate>)
    ensures Disputed(r, d, slot, s) <==>
      && s != [] && r.registry.setting(slot.key).Some?
      && slot.home.Stored? && slot.home.scope !in {Secret, Ui} && !Homeless(r, slot)
      && Entry(d, Address(slot.home.scope, slot.target, slot.key)).None?
      && (forall c :: c in s ==> !c.sensitive) && exists c, e :: c in s && e in s && c.value != e.value
  {
    hide Entry;
  }
}
