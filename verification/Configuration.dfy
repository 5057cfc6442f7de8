/** Managed configuration: the document, the registry it is checked against, and what one
    requested change does to it (`src/tfr/gateway_configuration.py`). */
module Configuration {
  import opened Wrappers

  /** Dotted setting keys, target names, JSON values and audit stamps, compared for equality. */
  type Key(==, !new)
  type Name(==, !new)
  type Json(==, !new)
  type Stamp(==, !new)

  const MAX_CONFIGURATION_BYTES: nat := 1024 * 1024
  const MAX_AUDIT_ENTRIES: nat := 500
  const MAX_BATCH_CHANGES: nat := 64

  datatype Scope = Shared | Gateway | UiType | Ui | World | Plugin | Secret

  /** The scope a setting is registered with. */
  datatype SettingScope =
    | SharedSetting | GatewaySetting | UiTypeSetting | UiSetting
    | WorldSetting | PluginSetting | SecretSetting | BootstrapSetting

  /** A stored value, or one of the notes that stand for a value in audit entries. */
  datatype Value = Given(json: Json) | RevisionNote(revision: nat) | BatchNote(revision: nat, changes: nat) | SettingsNote(settings: nat)

  datatype Restart = Live | ClientReload | ClientRestart | GatewayRestart {
    function Rank(): nat {
      match this
      case Live => 0
      case ClientReload => 1
      case ClientRestart => 2
      case GatewayRestart => 3
    }
  }

  type Section = map<Key, Value>

  datatype Document = Document(
    revision: nat, shared: Section, gateway: Section, uiTypes: map<Name, Section>, uis: map<Name, Section>,
    worlds: map<Name, Section>, plugins: map<Name, Section>, secretReferences: Section)

  const EMPTY_DOCUMENT := Document(0, map[], map[], map[], map[], map[], map[], map[])

  /** One place in the flattened content of a document. */
  datatype Address = Address(scope: Scope, target: Option<Name>, key: Key)

  datatype Operation = SetValue | ResetValue | UndoChange | ReplaceDocument | RemoveProfile

  /** An audit entry. An absent value is `None`. */
  datatype Mutation = Mutation(
    revision: nat, operation: Operation, address: Address,
    previous: Option<Value>, value: Option<Value>, stamp: Stamp, restart: Restart)

  /** One set (`Some`) or reset (`None`). */
  datatype Change = Change(address: Address, value: Option<Value>)

  datatype Error =
    | UnknownKey | ScopeNotAllowed | TargetMismatch | InvalidValue | TargetRefused | TargetRequired
    | InvalidDocument | NoEffect | DuplicateChange | BatchSize | NothingToUndo | WholeDocument
    | ProfileInvalid | ProfileMissing | RevisionConflict | AuditTooLarge | WriteFailed

  /** What the store is told about settings, names and encodings. `blank` is the empty name;
      `documentKey` and `batchKey` are the two words that stand for a key in audit entries. */
  datatype Registry = Registry(
    setting: Key -> Option<SettingScope>,
    accepts: (Key, Value) -> bool,
    isReference: Value -> bool,
    restart: Key -> Restart,
    worldKey: (Name, Key) -> bool,
    pluginKey: (Name, Key) -> bool,
    blank: Name, terminal: Name, pwa: Name,
    documentKey: Key, batchKey: Key,
    documentSize: Document -> nat,
    lineSize: Mutation -> nat)
  {
    /** The two audit words are not settings. */
    ghost predicate Proper() {
      documentKey != batchKey && setting(documentKey).None? && setting(batchKey).None?
    }
  }

  // ---------------------------------------------------------------- sections and entries

  /** Scopes that hold one section each, and scopes that hold one per target. */
  predicate SingleSection(scope: Scope) { scope in {Shared, Gateway, Secret} }

  function Single(d: Document, scope: Scope): Section
    requires SingleSection(scope)
  {
    if scope == Shared then d.shared else if scope == Gateway then d.gateway else d.secretReferences
  }

  function Targeted(d: Document, scope: Scope): map<Name, Section>
    requires !SingleSection(scope)
  {
    if scope == UiType then d.uiTypes else if scope == Ui then d.uis else if scope == World then d.worlds else d.plugins
  }

  /** Whether a target belongs to the scope at all. */
  predicate Shaped(scope: Scope, target: Option<Name>) { SingleSection(scope) <==> target.None? }

  /** The section of an existing or a missing target. */
  function SectionAt(d: Document, scope: Scope, target: Option<Name>): Section
    requires Shaped(scope, target)
  {
    if SingleSection(scope) then Single(d, scope)
    else if target.value in Targeted(d, scope) then Targeted(d, scope)[target.value]
    else map[]
  }

  function Entry(d: Document, a: Address): Option<Value> {
    if Shaped(a.scope, a.target) && a.key in SectionAt(d, a.scope, a.target)
    then Some(SectionAt(d, a.scope, a.target)[a.key])
    else None
  }

  /** Two documents with the same (scope, target, key) content. They may still differ in
      revision and in empty sections. */
  ghost predicate SameContent(d: Document, e: Document) {
    forall a :: Entry(d, a) == Entry(e, a)
  }

  /** The condition under which a section can be addressed at all. */
  function Placing(r: Registry, a: Address): Option<Error> {
    if SingleSection(a.scope) then
      if a.target.Some? then Some(TargetRefused) else None
    else
      if a.target.None? || a.target.value == r.blank then Some(TargetRequired) else None
  }

  lemma {:induction false} PlacingShapes(r: Registry, a: Address)
    ensures Placing(r, a).None? ==> Shaped(a.scope, a.target)
  {
  }

  /** `d` with one section replaced, or created. */
  function WithSection(d: Document, scope: Scope, target: Option<Name>, section: Section): Document
    requires Shaped(scope, target)
  {
    match scope
    case Shared => d.(shared := section)
    case Gateway => d.(gateway := section)
    case Secret => d.(secretReferences := section)
    case UiType => d.(uiTypes := d.uiTypes[target.value := section])
    case Ui => d.(uis := d.uis[target.value := section])
    case World => d.(worlds := d.worlds[target.value := section])
    case Plugin => d.(plugins := d.plugins[target.value := section])
  }

  /** Set or remove one entry. The section is created even when the entry is only removed. */
  function Put(d: Document, a: Address, value: Option<Value>): Document
    requires Shaped(a.scope, a.target)
  {
    var section := SectionAt(d, a.scope, a.target);
    WithSection(d, a.scope, a.target, if value.Some? then section[a.key := value.value] else section - {a.key})
  }

  lemma {:induction false} WithSectionReadsBack(d: Document, scope: Scope, target: Option<Name>, section: Section,
                                                scope': Scope, target': Option<Name>)
    requires Shaped(scope, target) && Shaped(scope', target')
    ensures SectionAt(WithSection(d, scope, target, section), scope', target') ==
      if (scope', target') == (scope, target) then section else SectionAt(d, scope', target')
  {
  }

  /** A written entry reads back; every other entry is left alone. */
  lemma {:induction false} PutReadsBack(d: Document, a: Address, value: Option<Value>)
    requires Shaped(a.scope, a.target)
    ensures Entry(Put(d, a, value), a) == value
    ensures forall b :: b != a ==> Entry(Put(d, a, value), b) == Entry(d, b)
  {
    hide WithSection, SectionAt, Shaped;
    var section := SectionAt(d, a.scope, a.target);
    var section' := if value.Some? then section[a.key := value.value] else section - {a.key};
    forall scope, target | Shaped(scope, target)
      ensures SectionAt(Put(d, a, value), scope, target) ==
        if (scope, target) == (a.scope, a.target) then section' else SectionAt(d, scope, target)
    {
      WithSectionReadsBack(d, a.scope, a.target, section', scope, target);
    }
  }

  // ------------------------------------------------------------------------- validation

  /** `_descriptor`: the setting exists and may be changed in this scope. */
  function DescriptorError(r: Registry, key: Key, scope: Scope): Option<Error> {
    var setting := r.setting(key);
    if setting.None? then Some(UnknownKey)
    else
      var allowed :=
        match setting.value
        case SharedSetting => {Shared}
        case GatewaySetting => {Gateway}
        case UiTypeSetting => {UiType, Ui}
        case UiSetting => {Ui}
        case WorldSetting => {World}
        case PluginSetting => {Plugin}
        case SecretSetting => {Secret}
        case BootstrapSetting => {};
      if scope in allowed then None else Some(ScopeNotAllowed)
  }

  /** `_validate_target_key`. */
  predicate TargetFits(r: Registry, a: Address) {
    match a.scope
    case World => a.target.None? || r.worldKey(a.target.value, a.key)
    case Plugin => a.target.None? || r.pluginKey(a.target.value, a.key)
    case UiType => a.target.Some? && a.target.value in {r.terminal, r.pwa}
    case _ => true
  }

  predicate EntryValid(r: Registry, a: Address, value: Value) {
    && DescriptorError(r, a.key, a.scope).None?
    && TargetFits(r, a)
    && (a.scope == Secret ==> r.isReference(value))
    && r.accepts(a.key, value)
  }

  predicate SectionValid(r: Registry, scope: Scope, target: Option<Name>, section: Section) {
    forall k :: k in section ==> EntryValid(r, Address(scope, target, k), section[k])
  }

  predicate SectionsValid(r: Registry, scope: Scope, sections: map<Name, Section>) {
    forall t :: t in sections ==> SectionValid(r, scope, Some(t), sections[t])
  }

  predicate ContentValid(r: Registry, d: Document) {
    && SectionValid(r, Shared, None, d.shared)
    && SectionValid(r, Gateway, None, d.gateway)
    && SectionValid(r, Secret, None, d.secretReferences)
    && SectionsValid(r, UiType, d.uiTypes)
    && SectionsValid(r, Ui, d.uis)
    && SectionsValid(r, World, d.worlds)
    && SectionsValid(r, Plugin, d.plugins)
  }

  /** `_validate_document`. */
  predicate DocumentValid(r: Registry, d: Document) {
    ContentValid(r, d) && r.documentSize(d) <= MAX_CONFIGURATION_BYTES
  }

  predicate ScopeValid(r: Registry, d: Document, scope: Scope) {
    if SingleSection(scope) then SectionValid(r, scope, None, Single(d, scope))
    else SectionsValid(r, scope, Targeted(d, scope))
  }

  ghost predicate EntriesValid(r: Registry, d: Document, scope: Scope) {
    forall a: Address :: a.scope == scope && Entry(d, a).Some? ==> EntryValid(r, a, Entry(d, a).value)
  }

  lemma {:induction false} ScopeValidMeans(r: Registry, d: Document, scope: Scope)
    ensures ScopeValid(r, d, scope) <==> EntriesValid(r, d, scope)
  {
    hide EntryValid, Targeted, Single;
    if SingleSection(scope) {
      if EntriesValid(r, d, scope) {
        forall k | k in Single(d, scope) ensures EntryValid(r, Address(scope, None, k), Single(d, scope)[k]) {
          assert Entry(d, Address(scope, None, k)) == Some(Single(d, scope)[k]);
        }
      }
    } else if EntriesValid(r, d, scope) {
      forall t, k | t in Targeted(d, scope) && k in Targeted(d, scope)[t]
        ensures EntryValid(r, Address(scope, Some(t), k), Targeted(d, scope)[t][k])
      {
        assert Entry(d, Address(scope, Some(t), k)) == Some(Targeted(d, scope)[t][k]);
      }
    }
  }

  /** Validity of a document is validity of every entry, so it only depends on content. */
  lemma {:induction false} ContentValidMeans(r: Registry, d: Document)
    ensures ContentValid(r, d) <==> forall scope :: EntriesValid(r, d, scope)
  {
    ScopesValid(r, d);
    hide ContentValid, ScopeValid, EntriesValid;
    forall scope ensures ScopeValid(r, d, scope) <==> EntriesValid(r, d, scope) {
      ScopeValidMeans(r, d, scope);
    }
  }

  lemma {:induction false} ScopesValid(r: Registry, d: Document)
    ensures ContentValid(r, d) <==> forall scope :: ScopeValid(r, d, scope)
  {
    hide SectionValid, SectionsValid;
    assert ContentValid(r, d) <==>
      (ScopeValid(r, d, Shared) && ScopeValid(r, d, Gateway) && ScopeValid(r, d, Secret) && ScopeValid(r, d, UiType)
       && ScopeValid(r, d, Ui) && ScopeValid(r, d, World) && ScopeValid(r, d, Plugin));
    hide ScopeValid, ContentValid;
    if ScopeValid(r, d, Shared) && ScopeValid(r, d, Gateway) && ScopeValid(r, d, Secret) && ScopeValid(r, d, UiType)
       && ScopeValid(r, d, Ui) && ScopeValid(r, d, World) && ScopeValid(r, d, Plugin) {
      forall scope ensures ScopeValid(r, d, scope) {
        match scope { case _ => }
      }
    }
  }

  lemma {:induction false} SameContentValid(r: Registry, d: Document, e: Document)
    requires SameContent(d, e) && ContentValid(r, d)
    ensures ContentValid(r, e)
  {
    hide ContentValid, Entry;
    ContentValidMeans(r, d);
    ContentValidMeans(r, e);
    forall scope ensures EntriesValid(r, e, scope) {
      assert EntriesValid(r, d, scope);
    }
  }

  /** A registry that takes every value, reads no size and knows the settings it is given, for
      concrete examples. */
  function SampleRegistry(setting: Key -> Option<SettingScope>, worldKey: (Name, Key) -> bool, blank: Name,
                          documentKey: Key, batchKey: Key): Registry
  {
    Registry(setting, (k: Key, v: Value) => true, (v: Value) => true, (k: Key) => Live, worldKey, (n: Name, k: Key) => true,
             blank, blank, blank, documentKey, batchKey, (d: Document) => 0, (m: Mutation) => 0)
  }

  /** The checks made on one change before the document is locked. */
  function ChangeError(r: Registry, c: Change): Option<Error> {
    var descriptor := DescriptorError(r, c.address.key, c.address.scope);
    if descriptor.Some? then descriptor
    else if !TargetFits(r, c.address) then Some(TargetMismatch)
    else if c.value.Some? && !r.accepts(c.address.key, c.value.value) then Some(InvalidValue)
    else None
  }

  /** The first error among the changes, in order. */
  function FirstError(r: Registry, changes: seq<Change>): Option<Error> {
    if changes == [] then None
    else
      var first := ChangeError(r, changes[0]);
      if first.Some? then first else FirstError(r, changes[1..])
  }

  /** `max` over the restarts, `Live` when there are none. */
  function MaximumRestart(s: seq<Restart>): (r: Restart)
    ensures forall x :: x in s ==> x.Rank() <= r.Rank()
    ensures s != [] ==> r in s
  {
    if s == [] then Live
    else
      var m := MaximumRestart(s[1..]);
      if |s| == 1 || s[0].Rank() >= m.Rank() then s[0] else m
  }
}
