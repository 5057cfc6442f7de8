/** Migrating legacy UI configurations into the managed document
    (`GatewayMigrationStore` in `src/tfr/gateway_migration.py`). */
module Migration {
  import opened Wrappers
  import opened Sequences
  import opened Configuration
  import SpeakerRules

  // Grouping the proposals, deciding each setting, and applying what was accepted. Values stand
  // for their canonical JSON, so equal values are equal texts.

  const MAX_MIGRATION_SETTINGS: nat := 2_000
  const MAX_MIGRATION_PROPOSALS: nat := 64

  type UiId(==, !new)
  type UiText(==, !new)

  /** Where a legacy setting belongs; bootstrap settings are never stored. */
  datatype Home = Bootstrap | Stored(scope: Scope)

  datatype Slot = Slot(home: Home, target: Option<Name>, key: Key)

  datatype Setting = Setting(slot: Slot, value: Value, sensitive: bool)

  datatype Proposal = Proposal(ui: UiId, name: UiText, baseRevision: int, settings: seq<Setting>)

  /** One UI's value for a slot. */
  datatype Candidate = Candidate(ui: UiId, name: UiText, value: Value, sensitive: bool)

  /** What the owner may choose for a contested key. `NotARename` is a rename without both parts. */
  datatype Choice = Skip | Pick(who: UiText) | Rename(who: UiText, target: Name) | NotARename

  /** What the decisions depend on besides the proposals. */
  datatype Rules = Rules(
    registry: Registry,
    default: Key -> Option<Value>,
    speakerKey: Key,
    fold: SpeakerRules.Folding,
    asRules: Value -> SpeakerRules.RuleValue,
    fromRules: seq<SpeakerRules.Rule> -> Value,
    idText: UiId -> UiText,
    skipWord: UiText,
    renamed: (Key, Name, Name) -> Key,
    sensitive: Key -> bool,
    absent: Value,
    worldOf: Key -> Option<Name>,
    pluginOf: Key -> Option<Name>,
    uiTarget: UiId -> Name,
    position: Slot -> real)
  {
    /** Identifiers of UIs are written differently, and slots have one sorted order. */
    ghost predicate Proper() {
      && (forall u, v :: uiTarget(u) == uiTarget(v) ==> u == v)
      && (forall s, t :: position(s) == position(t) ==> s == t)
    }

    predicate Matches(c: Candidate, who: UiText) { idText(c.ui) == who || c.name == who }
  }

  // ----------------------------------------------------------------------- submissions

  /** Whose settings are collected: a UI's own, or the Gateway's legacy files. */
  datatype Origin = FromUi | FromGateway

  /** Where `collect_migration_settings` sends a key; unknown settings are left out. */
  function SlotFor(r: Rules, origin: Origin, ui: UiId, key: Key): Option<Slot> {
    match r.registry.setting(key)
    case None => None
    case Some(UiTypeSetting) =>
      Some(if origin.FromGateway? then Slot(Stored(UiType), Some(r.registry.terminal), key)
           else Slot(Stored(Ui), Some(r.uiTarget(ui)), key))
    case Some(UiSetting) => Some(Slot(Stored(Ui), Some(r.uiTarget(ui)), key))
    case Some(WorldSetting) => Some(Slot(Stored(World), r.worldOf(key), key))
    case Some(PluginSetting) => Some(Slot(Stored(Plugin), r.pluginOf(key), key))
    case Some(BootstrapSetting) => Some(Slot(Bootstrap, None, key))
    case Some(SecretSetting) => Some(Slot(Stored(Secret), None, key))
    case Some(SharedSetting) => Some(Slot(Stored(Shared), None, key))
    case Some(GatewaySetting) => Some(Slot(Stored(Gateway), None, key))
  }

  /** The settings proposed for some keys and values, without the values of sensitive ones. */
  function Collected(r: Rules, origin: Origin, ui: UiId, values: seq<(Key, Value)>): seq<Setting> {
    if values == [] then []
    else
      var before := Collected(r, origin, ui, values[..|values| - 1]);
      var (key, value) := values[|values| - 1];
      var slot := SlotFor(r, origin, ui, key);
      if slot.None? then before
      else before + [Setting(slot.value, if r.sensitive(key) then r.absent else value, r.sensitive(key))]
  }

  /** The loop of `collect_migration_settings` over the sorted items. */
  method CollectSettings(r: Rules, origin: Origin, ui: UiId, values: seq<(Key, Value)>) returns (output: seq<Setting>)
    ensures output == Collected(r, origin, ui, values)
  {
    output := [];
    for i := 0 to |values|
      invariant output == Collected(r, origin, ui, values[..i])
    {
      assert values[..i + 1][..i] == values[..i];
      var (key, value) := values[i];
      var slot := SlotFor(r, origin, ui, key);
      if slot.Some? {
        output := output + [Setting(slot.value, if r.sensitive(key) then r.absent else value, r.sensitive(key))];
      }
    }
    assert values[..|values|] == values;
  }

  ghost predicate DistinctKeys(values: seq<(Key, Value)>) {
    forall i, j :: 0 <= i < j < |values| ==> values[i].0 != values[j].0
  }

  /** A UI-scoped setting targets its own UI, and no slot is proposed twice. */
  ghost predicate OwnSlots(r: Rules, ui: UiId, settings: seq<Setting>) {
    && (forall i :: 0 <= i < |settings| && settings[i].slot.home == Stored(Ui) ==> settings[i].slot.target == Some(r.uiTarget(ui)))
    && (forall i, j :: 0 <= i < j < |settings| ==> settings[i].slot != settings[j].slot)
  }

  /** What is collected from the items of a dictionary has this shape. */
  lemma {:induction false} CollectedOwnSlots(r: Rules, origin: Origin, ui: UiId, values: seq<(Key, Value)>)
    requires DistinctKeys(values)
    ensures OwnSlots(r, ui, Collected(r, origin, ui, values))
    ensures forall s :: s in Collected(r, origin, ui, values) ==> exists i :: 0 <= i < |values| && values[i].0 == s.slot.key
  {
    if values != [] {
      var init := values[..|values| - 1];
      CollectedOwnSlots(r, origin, ui, init);
      var before := Collected(r, origin, ui, init);
      assert forall i :: 0 <= i < |before| ==> before[i] in before;
    }
  }

  ghost predicate OnePerUi(proposals: seq<Proposal>) {
    forall i, j :: 0 <= i < j < |proposals| ==> proposals[i].ui != proposals[j].ui
  }

  /** The proposals a store can hold: one per UI, each collected as above. */
  ghost predicate Submissions(r: Rules, proposals: seq<Proposal>) {
    OnePerUi(proposals) && forall p :: p in proposals ==> OwnSlots(r, p.ui, p.settings)
  }

  // ------------------------------------------------------------------------- grouping

  function Offers(p: Proposal): seq<(Slot, Candidate)> {
    seq(|p.settings|, i requires 0 <= i < |p.settings| =>
      (p.settings[i].slot, Candidate(p.ui, p.name, p.settings[i].value, p.settings[i].sensitive)))
  }

  function AllOffers(proposals: seq<Proposal>): seq<(Slot, Candidate)> {
    if proposals == [] then [] else AllOffers(proposals[..|proposals| - 1]) + Offers(proposals[|proposals| - 1])
  }

  /** The candidates for one slot, in submission order. */
  function Group(offers: seq<(Slot, Candidate)>, slot: Slot): seq<Candidate> {
    if offers == [] then []
    else
      var before := Group(offers[..|offers| - 1], slot);
      var offer := offers[|offers| - 1];
      if offer.0 == slot then before + [offer.1] else before
  }

  lemma {:induction false} AllOffersMember(proposals: seq<Proposal>, offer: (Slot, Candidate))
    ensures offer in AllOffers(proposals) <==> exists p :: p in proposals && offer in Offers(p)
  {
    hide Offers;
    if proposals != [] {
      AllOffersMember(proposals[..|proposals| - 1], offer);
      assert proposals == proposals[..|proposals| - 1] + [proposals[|proposals| - 1]];
    }
  }

  lemma {:induction false} GroupMember(offers: seq<(Slot, Candidate)>, slot: Slot, c: Candidate)
    ensures c in Group(offers, slot) <==> (slot, c) in offers
  {
    if offers != [] {
      GroupMember(offers[..|offers| - 1], slot, c);
      assert offers == offers[..|offers| - 1] + [offers[|offers| - 1]];
    }
  }

  // ------------------------------------------------------------------------- deciding

  datatype Decision =
    | Unregistered | Misplaced                          // the whole preview raises
    | Ignored | AlreadyManaged | Insecure | Skipped
    | Conflict
    | Accept(target: Option<Name>, key: Key, value: Value)

  predicate Uniform(s: seq<Candidate>) { forall x, y :: x in s && y in s ==> x.value == y.value }

  function Differing(default: Value): Candidate -> bool { (c: Candidate) => c.value != default }

  /** The candidates that changed the built-in default. */
  function NonDefault(r: Rules, key: Key, s: seq<Candidate>): seq<Candidate> {
    if r.default(key).None? then [] else Filter(s, Differing(r.default(key).value))
  }

  function FirstMatch(r: Rules, s: seq<Candidate>, who: UiText): Option<Candidate> {
    if s == [] then None else if r.Matches(s[0], who) then Some(s[0]) else FirstMatch(r, s[1..], who)
  }

  /** The candidate an owner's choice selects, or the only changed value. */
  function Selected(r: Rules, key: Key, s: seq<Candidate>, choice: Option<Choice>): Option<Candidate> {
    var changed := NonDefault(r, key, s);
    var only := if changed != [] && Uniform(changed) then Some(changed[0]) else None;
    match choice
    case None => only
    case Some(Skip) => FirstMatch(r, s, r.skipWord)
    case Some(Pick(who)) => FirstMatch(r, s, who)
    case Some(Rename(who, _)) => FirstMatch(r, s, who)
    case Some(NotARename) => only
  }

  /** A world's key names its world. */
  function RenamedKey(r: Rules, slot: Slot, target: Name): Key {
    if slot.home == Stored(World) && slot.target.Some? && slot.target.value != r.registry.blank
    then r.renamed(slot.key, slot.target.value, target) else slot.key
  }

  /** Several different values for one slot that is not a UI's own. */
  function Contested(r: Rules, slot: Slot, s: seq<Candidate>, choice: Option<Choice>): Decision {
    var selected := Selected(r, slot.key, s, choice);
    if choice == Some(Skip) then Skipped
    else if selected.None? then Conflict
    else if choice.Some? && choice.value.Rename? && choice.value.target != r.registry.blank then
      Accept(Some(choice.value.target), RenamedKey(r, slot, choice.value.target), selected.value.value)
    else Accept(slot.target, slot.key, selected.value.value)
  }

  function Values(s: seq<Candidate>): seq<Value> { seq(|s|, i requires 0 <= i < |s| => s[i].value) }

  function RuleValues(r: Rules, s: seq<Candidate>): seq<SpeakerRules.RuleValue> {
    seq(|s|, i requires 0 <= i < |s| => r.asRules(s[i].value))
  }

  function MergedRules(r: Rules, managed: Value, s: seq<Candidate>): Value {
    r.fromRules(SpeakerRules.Merged(r.fold, r.asRules(managed), RuleValues(r, s)))
  }

  function AddressOf(slot: Slot): Address
    requires slot.home.Stored?
  {
    Address(slot.home.scope, slot.target, slot.key)
  }

  /** What the preview does with one group. */
  function Decide(r: Rules, d: Document, slot: Slot, s: seq<Candidate>, choice: Option<Choice>): Decision
    requires s != []
  {
    if r.registry.setting(slot.key).None? then Unregistered
    else if slot.home.Bootstrap? then Ignored
    else
      var a := AddressOf(slot);
      var managed := Entry(d, a);
      if Placing(r.registry, a).Some? then Misplaced
      else if managed.Some? then
        if slot.key == r.speakerKey && MergedRules(r, managed.value, s) != managed.value
        then Accept(slot.target, slot.key, MergedRules(r, managed.value, s))
        else AlreadyManaged
      else if slot.home.scope == Secret || (exists c :: c in s && c.sensitive) then Insecure
      else if Uniform(s) || slot.home.scope == Ui then Accept(slot.target, slot.key, s[0].value)
      else Contested(r, slot, s, choice)
  }

  /** The decision about a slot somebody proposed a value for. */
  function DecisionAt(r: Rules, d: Document, proposals: seq<Proposal>, slot: Slot, choices: map<Key, Choice>): Option<Decision> {
    var s := Group(AllOffers(proposals), slot);
    if s == [] then None else Some(Decide(r, d, slot, s, if slot.key in choices then Some(choices[slot.key]) else None))
  }

  /** `v` is the one value that candidates changed the default to. */
  ghost predicate OnlyChange(r: Rules, key: Key, s: seq<Candidate>, v: Value) {
    && r.default(key).Some?
    && (exists c :: c in s && c.value == v) && v != r.default(key).value
    && forall c :: c in s ==> c.value in {v, r.default(key).value}
  }

  /** Several values for a slot that is not a UI's own, and no choice: accepted exactly when
      all who changed the built-in default agree, with their value; otherwise a conflict. */
  lemma {:induction false} ContestedMeans(r: Rules, d: Document, slot: Slot, s: seq<Candidate>)
    requires s != [] && r.registry.setting(slot.key).Some? && slot.home.Stored? && slot.home.scope !in {Secret, Ui}
    requires Placing(r.registry, AddressOf(slot)).None? && Entry(d, AddressOf(slot)).None?
    requires !Uniform(s) && forall c :: c in s ==> !c.sensitive
    ensures var decision := Decide(r, d, slot, s, None);
      && (decision.Conflict? || decision.Accept?)
      && (forall v :: decision == Accept(slot.target, slot.key, v) <==> OnlyChange(r, slot.key, s, v))
  {
    hide Entry, Placing, Filter;
    var changed := NonDefault(r, slot.key, s);
    if r.default(slot.key).Some? {
      FilterMember(s, Differing(r.default(slot.key).value));
    }
    if changed != [] {
      assert changed[0] in changed;
    }
    forall v | OnlyChange(r, slot.key, s, v) ensures Decide(r, d, slot, s, None) == Accept(slot.target, slot.key, v) {
      var c :| c in s && c.value == v;
      assert c in changed;
    }
  }

  // ------------------------------------------------- order of submission does not matter

  ghost predicate SameMembers<T(!new)>(a: seq<T>, b: seq<T>) { forall x :: x in a <==> x in b }

  /** A UI's own slot with several values: the first submitted wins. */
  ghost predicate UiContested(d: Document, slot: Slot, s: seq<Candidate>) {
    && slot.home == Stored(Ui) && Entry(d, AddressOf(slot)).None?
    && (forall c :: c in s ==> !c.sensitive) && !Uniform(s)
  }

  /** A managed list of speaker rules, merged in submission order. */
  ghost predicate SpeakerMerge(r: Rules, d: Document, slot: Slot) {
    slot.home.Stored? && slot.key == r.speakerKey && Entry(d, AddressOf(slot)).Some?
  }

  lemma {:induction false} UniformSame(a: seq<Candidate>, b: seq<Candidate>)
    requires SameMembers(a, b) && a != [] && b != []
    ensures Uniform(a) <==> Uniform(b)
    ensures Uniform(a) ==> a[0].value == b[0].value
  {
    assert a[0] in a && b[0] in b;
  }

  lemma {:induction false} NonDefaultSame(r: Rules, key: Key, a: seq<Candidate>, b: seq<Candidate>)
    requires SameMembers(a, b)
    ensures var (x, y) := (NonDefault(r, key, a), NonDefault(r, key, b));
      SameMembers(x, y) && (x == [] <==> y == [])
  {
    var x, y := NonDefault(r, key, a), NonDefault(r, key, b);
    if r.default(key).Some? {
      FilterMember(a, Differing(r.default(key).value));
      FilterMember(b, Differing(r.default(key).value));
      hide Filter;
      if x != [] { assert x[0] in x; assert x[0] in y; }
      if y != [] { assert y[0] in y; assert y[0] in x; }
    }
  }

  /** Without choices a decision depends only on which candidates there are. */
  lemma {:induction false} DecideSame(r: Rules, d: Document, slot: Slot, a: seq<Candidate>, b: seq<Candidate>)
    requires SameMembers(a, b) && a != [] && b != []
    requires !UiContested(d, slot, a) && !SpeakerMerge(r, d, slot)
    ensures Decide(r, d, slot, a, None) == Decide(r, d, slot, b, None)
  {
    hide Entry, Placing, Filter;
    UniformSame(a, b);
    NonDefaultSame(r, slot.key, a, b);
    var x, y := NonDefault(r, slot.key, a), NonDefault(r, slot.key, b);
    hide NonDefault;
    if x != [] {
      UniformSame(x, y);
    }
    hide Uniform;
  }

  lemma {:induction false} OffersSame(p: seq<Proposal>, q: seq<Proposal>)
    requires multiset(p) == multiset(q)
    ensures SameMembers(AllOffers(p), AllOffers(q))
  {
    hide Offers, AllOffers;
    forall x: Proposal ensures x in p <==> x in q {
      assert x in p <==> x in multiset(p);
      assert x in q <==> x in multiset(q);
    }
    forall offer ensures offer in AllOffers(p) <==> offer in AllOffers(q) {
      AllOffersMember(p, offer);
      AllOffersMember(q, offer);
    }
  }

  lemma {:induction false} GroupSame(p: seq<(Slot, Candidate)>, q: seq<(Slot, Candidate)>, slot: Slot)
    requires SameMembers(p, q)
    ensures SameMembers(Group(p, slot), Group(q, slot)) && (Group(p, slot) == [] <==> Group(q, slot) == [])
  {
    var a, b := Group(p, slot), Group(q, slot);
    hide Group;
    forall c ensures c in a <==> c in b {
      GroupMember(p, slot, c);
      GroupMember(q, slot, c);
    }
    if a != [] { assert a[0] in b; }
    if b != [] { assert b[0] in a; }
  }

  /** One UI's own slot has a single candidate: the submissions of two UIs never meet there. */
  lemma {:induction false} UiSlotsUncontested(r: Rules, d: Document, proposals: seq<Proposal>, slot: Slot)
    requires r.Proper() && Submissions(r, proposals)
    ensures !UiContested(d, slot, Group(AllOffers(proposals), slot))
  {
    var s := Group(AllOffers(proposals), slot);
    if slot.home == Stored(Ui) {
      forall x, y | x in s && y in s ensures x == y {
        OfferedOnce(r, proposals, slot, x, y);
      }
    }
    hide Group, AllOffers, Entry;
  }

  lemma {:induction false} OfferedOnce(r: Rules, proposals: seq<Proposal>, slot: Slot, x: Candidate, y: Candidate)
    requires r.Proper() && Submissions(r, proposals) && slot.home == Stored(Ui)
    requires x in Group(AllOffers(proposals), slot) && y in Group(AllOffers(proposals), slot)
    ensures x == y
  {
    GroupMember(AllOffers(proposals), slot, x);
    GroupMember(AllOffers(proposals), slot, y);
    AllOffersMember(proposals, (slot, x));
    AllOffersMember(proposals, (slot, y));
    hide Group, AllOffers;
    var p :| p in proposals && (slot, x) in Offers(p);
    var q :| q in proposals && (slot, y) in Offers(q);
    var i :| 0 <= i < |p.settings| && Offers(p)[i] == (slot, x);
    var j :| 0 <= j < |q.settings| && Offers(q)[j] == (slot, y);
    assert p.settings[i].slot == slot == q.settings[j].slot;
    assert r.uiTarget(p.ui) == r.uiTarget(q.ui);
  }

  /** The preview with empty choices gives the same decision for every slot whatever the
      order of submission, merged speaker rules aside. */
  lemma {:induction false} OrderInsensitive(r: Rules, d: Document, p: seq<Proposal>, q: seq<Proposal>, slot: Slot)
    requires r.Proper() && Submissions(r, p) && multiset(p) == multiset(q)
    requires !SpeakerMerge(r, d, slot)
    ensures DecisionAt(r, d, p, slot, map[]) == DecisionAt(r, d, q, slot, map[])
  {
    OffersSame(p, q);
    UiSlotsUncontested(r, d, p, slot);
    hide AllOffers;
    GroupSame(AllOffers(p), AllOffers(q), slot);
    hide Group, Decide, UiContested;
    var a, b := Group(AllOffers(p), slot), Group(AllOffers(q), slot);
    if a != [] {
      DecideSame(r, d, slot, a, b);
    }
  }

  // -------------------------------------------------------------------------- applying

  /** One accepted item: where its value goes. */
  datatype Item = Item(address: Address, value: Value)

  function ItemOf(slot: Slot, decision: Decision): Item
    requires slot.home.Stored? && decision.Accept?
  {
    Item(Address(slot.home.scope, decision.target, decision.key), decision.value)
  }

  function Applied(r: Registry, d: Document, items: seq<Item>): Result<Document, Error> {
    if items == [] then Success(d)
    else
      var before := Applied(r, d, items[..|items| - 1]);
      var item := items[|items| - 1];
      if before.Failure? then before
      else if Placing(r, item.address).Some? then Failure(Placing(r, item.address).value)
      else Success(Put(before.value, item.address, Some(item.value)))
  }

  /** The last item for a destination. */
  function LastFor(items: seq<Item>, a: Address): Option<Value> {
    if items == [] then None
    else if items[|items| - 1].address == a then Some(items[|items| - 1].value)
    else LastFor(items[..|items| - 1], a)
  }

  /** Applying writes each destination with the last item for it, and nothing else. */
  lemma {:induction false} AppliedWrites(r: Registry, d: Document, items: seq<Item>, a: Address)
    requires Applied(r, d, items).Success?
    ensures Entry(Applied(r, d, items).value, a) == if LastFor(items, a).Some? then LastFor(items, a) else Entry(d, a)
  {
    if items != [] {
      var init, item := items[..|items| - 1], items[|items| - 1];
      AppliedWrites(r, d, init, a);
      PlacingShapes(r, item.address);
      PutReadsBack(Applied(r, d, init).value, item.address, Some(item.value));
      hide Put, Placing, Entry;
    }
  }

  /** No later item has the same destination. */
  ghost predicate Final(items: seq<Item>, i: nat) {
    i < |items| && forall j :: i < j < |items| ==> items[j].address != items[i].address
  }

  lemma {:induction false} LastIsFinal(items: seq<Item>, a: Address)
    ensures LastFor(items, a).Some? ==>
      exists i: nat :: Final(items, i) && items[i].address == a && LastFor(items, a) == Some(items[i].value)
    ensures forall i: nat :: Final(items, i) && items[i].address == a ==> LastFor(items, a) == Some(items[i].value)
  {
    if items != [] {
      var init, last := items[..|items| - 1], |items| - 1;
      LastIsFinal(init, a);
      if items[last].address == a {
        assert Final(items, last);
      } else {
        forall i: nat | i < last && items[i].address == a ensures Final(items, i) <==> Final(init, i) {}
        if LastFor(items, a).Some? {
          var i: nat :| Final(init, i) && init[i].address == a && LastFor(init, a) == Some(init[i].value);
          assert items[i] == init[i] && Final(items, i);
        }
      }
    }
  }

  /** The items are the accepted decisions of some slots. */
  ghost predicate FromDecisions(r: Rules, d: Document, proposals: seq<Proposal>, choices: map<Key, Choice>, slots: seq<Slot>, items: seq<Item>) {
    |slots| == |items| && forall i :: 0 <= i < |items| ==>
      && slots[i].home.Stored?
      && var decision := DecisionAt(r, d, proposals, slots[i], choices);
         decision.Some? && decision.value.Accept? && items[i] == ItemOf(slots[i], decision.value)
  }

  ghost predicate NoRenames(choices: map<Key, Choice>) { forall k :: k in choices ==> !choices[k].Rename? }

  /** The values for a slot differ and only a choice or the defaults can decide it. */
  predicate Disputed(r: Rules, d: Document, slot: Slot, s: seq<Candidate>) {
    && s != [] && r.registry.setting(slot.key).Some? && slot.home.Stored? && slot.home.scope !in {Secret, Ui}
    && Placing(r.registry, AddressOf(slot)).None? && Entry(d, AddressOf(slot)).None?
    && !(exists c :: c in s && c.sensitive) && !Uniform(s)
  }

  /** Where a rename choice sends a disputed slot, and with which UI's value. */
  function Renaming(r: Rules, d: Document, proposals: seq<Proposal>, choices: map<Key, Choice>, slot: Slot): Option<Item> {
    var s := Group(AllOffers(proposals), slot);
    if slot.key in choices && choices[slot.key].Rename? && choices[slot.key].target != r.registry.blank && Disputed(r, d, slot, s) then
      var selected := FirstMatch(r, s, choices[slot.key].who);
      if selected.None? then None
      else Some(Item(Address(slot.home.scope, Some(choices[slot.key].target), RenamedKey(r, slot, choices[slot.key].target)),
                     selected.value.value))
    else None
  }

  /** Every accepted item is a rename, a merge of speaker rules, or fills its own slot, which
      was not managed. */
  lemma {:induction false} AcceptedKinds(r: Rules, d: Document, proposals: seq<Proposal>, choices: map<Key, Choice>, slot: Slot)
    requires var decision := DecisionAt(r, d, proposals, slot, choices); decision.Some? && decision.value.Accept?
    ensures slot.home.Stored?
    ensures var item := ItemOf(slot, DecisionAt(r, d, proposals, slot, choices).value);
      var renaming := Renaming(r, d, proposals, choices, slot);
      if renaming.Some? then renaming.value == item
      else item.address == AddressOf(slot) && (slot.key == r.speakerKey || Entry(d, AddressOf(slot)).None?)
  {
    hide Entry, Placing, Group, AllOffers, NonDefault, MergedRules, Uniform, FirstMatch;
  }

  /** What an owner cares about: managed values other than the speaker rules. */
  ghost predicate KeepsManaged(d: Document, e: Document, speakerKey: Key) {
    forall a: Address :: Entry(d, a).Some? && a.key != speakerKey ==> Entry(e, a) == Entry(d, a)
  }

  /** A rename that sends its slot to a managed address with another value. */
  ghost predicate Overwrites(r: Rules, d: Document, proposals: seq<Proposal>, choices: map<Key, Choice>, slot: Slot) {
    var x := Renaming(r, d, proposals, choices, slot);
    x.Some? && x.value.address.key != r.speakerKey && Entry(d, x.value.address) !in {None, Some(x.value.value)}
  }

  /** Exactly when `apply` keeps every managed value but the speaker rules: when no rename
      choice sends a slot to a managed address with another value, unless a later slot is
      sent to the same address. */
  lemma {:induction false} ApplyKeepsManagedIff(r: Rules, d: Document, proposals: seq<Proposal>, choices: map<Key, Choice>,
                                                slots: seq<Slot>, items: seq<Item>)
    requires FromDecisions(r, d, proposals, choices, slots, items)
    requires Applied(r.registry, d, items).Success?
    ensures KeepsManaged(d, Applied(r.registry, d, items).value, r.speakerKey) <==>
      forall i: nat :: Final(items, i) ==> !Overwrites(r, d, proposals, choices, slots[i])
  {
    var e := Applied(r.registry, d, items).value;
    forall a ensures Entry(e, a) == if LastFor(items, a).Some? then LastFor(items, a) else Entry(d, a) {
      AppliedWrites(r.registry, d, items, a);
    }
    forall a ensures LastFor(items, a).Some? ==>
        exists i: nat :: Final(items, i) && items[i].address == a && LastFor(items, a) == Some(items[i].value)
      ensures forall i: nat :: Final(items, i) && items[i].address == a ==> LastFor(items, a) == Some(items[i].value)
    {
      LastIsFinal(items, a);
    }
    forall i | 0 <= i < |items| ensures
        var renaming := Renaming(r, d, proposals, choices, slots[i]);
        if renaming.Some? then renaming.value == items[i]
        else items[i].address.key == r.speakerKey || Entry(d, items[i].address).None?
    {
      AcceptedKinds(r, d, proposals, choices, slots[i]);
    }
    hide Entry, Applied, Renaming, FromDecisions, LastFor;
    if forall i: nat :: Final(items, i) ==> !Overwrites(r, d, proposals, choices, slots[i]) {
      forall a: Address | Entry(d, a).Some? && a.key != r.speakerKey ensures Entry(e, a) == Entry(d, a) {
        if LastFor(items, a).Some? {
          var i: nat :| Final(items, i) && items[i].address == a && LastFor(items, a) == Some(items[i].value);
          assert !Overwrites(r, d, proposals, choices, slots[i]);
        }
      }
    }
    if KeepsManaged(d, e, r.speakerKey) {
      forall i: nat | Final(items, i) ensures !Overwrites(r, d, proposals, choices, slots[i]) {
        assert LastFor(items, items[i].address) == Some(items[i].value);
        assert Entry(e, items[i].address) == Some(items[i].value);
      }
    }
  }

  /** Without rename choices, `apply` changes no managed value except the speaker rules. */
  lemma {:induction false} ApplyKeepsManaged(r: Rules, d: Document, proposals: seq<Proposal>, choices: map<Key, Choice>,
                                             slots: seq<Slot>, items: seq<Item>)
    requires FromDecisions(r, d, proposals, choices, slots, items) && NoRenames(choices)
    requires Applied(r.registry, d, items).Success?
    ensures KeepsManaged(d, Applied(r.registry, d, items).value, r.speakerKey)
  {
    ApplyKeepsManagedIff(r, d, proposals, choices, slots, items);
    hide Entry, Applied, FromDecisions, Disputed, KeepsManaged;
  }

  // ------------------------------------------------------------ a managed value that is lost

  /** Names for a concrete case: two UIs that disagree about one key of world `x`, and a
      managed value for the same key of world `y`. */
  datatype Example = Example(ui: UiId, other: UiId, who: UiText, otherText: UiText, x: Name, y: Name, blank: Name,
                             xKey: Key, yKey: Key, documentKey: Key, batchKey: Key, speakerKey: Key,
                             managed: Value, first: Value, second: Value, absent: Value)
  {
    ghost predicate Distinct() {
      && ui != other && who != otherText && x != y && blank !in {x, y}
      && xKey != yKey && speakerKey !in {xKey, yKey} && managed !in {first, second} && first != second
    }

    function KnownKeys(): Registry {
      SampleRegistry((k: Key) => if k in {xKey, yKey} then Some(WorldSetting) else None,
                     (n: Name, k: Key) => (n == x && k == xKey) || (n == y && k == yKey), blank, documentKey, batchKey)
    }

    function Sample(fold: SpeakerRules.Folding, asRules: Value -> SpeakerRules.RuleValue,
                   fromRules: seq<SpeakerRules.Rule> -> Value, uiTarget: UiId -> Name, position: Slot -> real): Rules
    {
      Rules(KnownKeys(), (k: Key) => None, speakerKey, fold, asRules, fromRules,
        (u: UiId) => if u == ui then who else otherText, otherText,
        (k: Key, from: Name, to: Name) => if k == xKey && from == x && to == y then yKey else k,
        (k: Key) => false, absent, (k: Key) => if k == xKey then Some(x) else Some(y), (k: Key) => None, uiTarget, position)
    }

    function Managed(): Document { EMPTY_DOCUMENT.(worlds := map[y := map[yKey := managed]]) }

    function Contended(): Slot { Slot(Stored(World), Some(x), xKey) }

    function Proposals(): seq<Proposal> {
      [Proposal(ui, who, 0, [Setting(Contended(), first, false)]), Proposal(other, otherText, 0, [Setting(Contended(), second, false)])]
    }

    function Choices(): map<Key, Choice> { map[xKey := Rename(who, y)] }

    function Lands(): Item { Item(Address(World, Some(y), yKey), first) }
  }

  /** In that case the owner's choice to rename `x` to `y` replaces the managed value. */
  lemma {:induction false} RenameLosesManaged(e: Example, r: Rules)
    requires e.Distinct()
    requires r == e.Sample(r.fold, r.asRules, r.fromRules, r.uiTarget, r.position)
    ensures FromDecisions(r, e.Managed(), e.Proposals(), e.Choices(), [e.Contended()], [e.Lands()])
    ensures Applied(r.registry, e.Managed(), [e.Lands()]).Success?
    ensures Entry(e.Managed(), e.Lands().address) == Some(e.managed)
    ensures Entry(Applied(r.registry, e.Managed(), [e.Lands()]).value, e.Lands().address) == Some(e.first)
  {
    hide Group, AllOffers;
    var d, slot := e.Managed(), e.Contended();
    var s := [Candidate(e.ui, e.who, e.first, false), Candidate(e.other, e.otherText, e.second, false)];
    ExampleGroup(e);
    assert r.Matches(s[0], e.who);
    assert Decide(r, d, slot, s, Some(Rename(e.who, e.y))) == Accept(Some(e.y), e.yKey, e.first) by {
      assert s[0] in s && s[1] in s && s[0].value != s[1].value;
    }
    hide Decide;
    OneItem(r.registry, d, e.Lands());
  }

  lemma {:induction false} ExampleGroup(e: Example)
    ensures Group(AllOffers(e.Proposals()), e.Contended()) ==
      [Candidate(e.ui, e.who, e.first, false), Candidate(e.other, e.otherText, e.second, false)]
  {
    var p, slot := e.Proposals(), e.Contended();
    var a, b := (slot, Candidate(e.ui, e.who, e.first, false)), (slot, Candidate(e.other, e.otherText, e.second, false));
    assert Offers(p[0]) == [a] && Offers(p[1]) == [b];
    assert p[..1] == [p[0]] && [p[0]][..0] == [];
    assert AllOffers([p[0]]) == AllOffers([]) + [a];
    assert AllOffers([]) == [];
    assert AllOffers(p) == [a] + [b];
    var none: seq<(Slot, Candidate)> := [];
    assert ([a] + [b])[..1] == [a] && [a][..0] == none;
    assert Group(none, slot) == [] && Group([a], slot) == [a.1];
  }

  lemma {:induction false} OneItem(r: Registry, d: Document, item: Item)
    ensures Placing(r, item.address).None? ==>
      Applied(r, d, [item]).Success? && Entry(Applied(r, d, [item]).value, item.address) == Some(item.value)
  {
    hide Entry, Placing, Put;
    assert [item][..0] == [] && Applied(r, d, []) == Success(d);
    PlacingShapes(r, item.address);
    if Placing(r, item.address).None? {
      AppliedWrites(r, d, [item], item.address);
    }
  }
}
