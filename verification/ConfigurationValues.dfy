/** The layered index of effective values (`src/tfr/configuration_values.py`). */
module ConfigurationValues {
  import opened Wrappers
  import opened Configuration

  datatype Provenance = Default | Jsonc | Managed | Runtime {
    function Precedence(): nat {
      match this
      case Default => 0
      case Jsonc => 1
      case Managed => 2
      case Runtime => 3
    }
  }

  /** Where a recorded value came from. */
  datatype Detail = AtRevision(revision: nat) | Elsewhere

  /** Sensitive values are never kept. */
  datatype Stored = Redacted | Kept(value: Value)

  datatype Catalog = Catalog(registry: Registry, sensitive: Key -> bool, default: Key -> Option<Value>)

  function Storing(c: Catalog, k: Key, v: Value): Stored { if c.sensitive(k) then Redacted else Kept(v) }

  datatype Effective = Effective(value: Option<Value>, provenance: Provenance, detail: Option<Detail>)

  datatype IndexError = UnknownSetting | DefaultProvenance | BadValue

  type Layers = map<Provenance, (Stored, Detail)>

  ghost function LayerOf(layers: map<Key, Layers>, p: Provenance): map<Key, (Stored, Detail)> {
    map k | k in layers && p in layers[k] :: layers[k][p]
  }

  function Recording(layers: map<Key, Layers>, key: Key, p: Provenance, x: (Stored, Detail)): map<Key, Layers> {
    layers[key := (if key in layers then layers[key] else map[])[p := x]]
  }

  lemma {:induction false} RecordingChangesOneLayer(layers: map<Key, Layers>, key: Key, p: Provenance, x: (Stored, Detail), q: Provenance)
    ensures LayerOf(Recording(layers, key, p, x), q) == if q == p then LayerOf(layers, p)[key := x] else LayerOf(layers, q)
  {
  }

  /** Empty entries are dropped, so a key without layers is absent. */
  function Clearing(layers: map<Key, Layers>, key: Key, p: Provenance): map<Key, Layers> {
    if key !in layers then layers
    else if (layers[key] - {p}).Keys == {} then layers - {key}
    else layers[key := layers[key] - {p}]
  }

  lemma {:induction false} ClearingChangesOneLayer(layers: map<Key, Layers>, key: Key, p: Provenance, q: Provenance)
    ensures LayerOf(Clearing(layers, key, p), q) == if q == p then LayerOf(layers, p) - {key} else LayerOf(layers, q)
  {
    if key in layers && q in layers[key] && q != p {
      assert q in (layers[key] - {p}).Keys;
    }
  }

  /** The recorded provenance of highest precedence. */
  method Best(recorded: Layers) returns (best: Provenance)
    requires recorded.Keys != {}
    ensures best in recorded && forall q :: q in recorded ==> q.Precedence() <= best.Precedence()
  {
    best :| best in recorded;
    var left := recorded.Keys;
    ghost var seen: set<Provenance> := {};
    while left != {}
      invariant best in recorded && seen + left == recorded.Keys
      invariant forall q :: q in seen ==> q.Precedence() <= best.Precedence()
      decreases |left|
    {
      var q :| q in left;
      left, seen := left - {q}, seen + {q};
      if q.Precedence() > best.Precedence() {
        best := q;
      }
    }
    assert seen == recorded.Keys;
  }

  ghost predicate LayersValid(layers: map<Key, Layers>) {
    forall k :: k in layers ==> layers[k].Keys != {} && Default !in layers[k]
  }

  class Index {
    const catalog: Catalog
    var layers: map<Key, Layers>

    ghost predicate Valid()
      reads this
    {
      LayersValid(layers)
    }

    /** What one provenance has recorded. */
    ghost function Layer(p: Provenance): map<Key, (Stored, Detail)>
      reads this
    {
      LayerOf(layers, p)
    }

    constructor (catalog: Catalog)
      ensures this.catalog == catalog && Valid() && forall p :: Layer(p) == map[]
    {
      this.catalog, layers := catalog, map[];
    }

    method Record(key: Key, value: Value, provenance: Provenance, detail: Detail) returns (error: Option<IndexError>)
      requires Valid()
      modifies this
      ensures Valid()
      ensures error.None? <==>
        catalog.registry.setting(key).Some? && !provenance.Default? && (catalog.sensitive(key) || catalog.registry.accepts(key, value))
      ensures Layer(provenance) ==
        if error.None? then old(Layer(provenance))[key := (if catalog.sensitive(key) then Redacted else Kept(value), detail)]
        else old(Layer(provenance))
      ensures forall p :: p != provenance ==> Layer(p) == old(Layer(p))
    {
      if catalog.registry.setting(key).None? {
        return Some(UnknownSetting);
      }
      if provenance.Default? {
        return Some(DefaultProvenance);
      }
      if !catalog.sensitive(key) && !catalog.registry.accepts(key, value) {
        return Some(BadValue);
      }
      var x := (Storing(catalog, key, value), detail);
      forall q ensures LayerOf(Recording(layers, key, provenance, x), q) ==
          if q == provenance then LayerOf(layers, provenance)[key := x] else LayerOf(layers, q)
      {
        RecordingChangesOneLayer(layers, key, provenance, x, q);
      }
      RecordingValid(layers, key, provenance, x);
      hide LayerOf, LayersValid, Recording;
      layers := Recording(layers, key, provenance, x);
      return None;
    }

    method Clear(key: Key, provenance: Provenance) returns (error: Option<IndexError>)
      requires Valid()
      modifies this
      ensures Valid()
      ensures error.None? <==> !provenance.Default?
      ensures Layer(provenance) == if error.None? then old(Layer(provenance)) - {key} else old(Layer(provenance))
      ensures forall p :: p != provenance ==> Layer(p) == old(Layer(p))
    {
      if provenance.Default? {
        return Some(DefaultProvenance);
      }
      forall q ensures LayerOf(Clearing(layers, key, provenance), q) ==
          if q == provenance then LayerOf(layers, provenance) - {key} else LayerOf(layers, q)
      {
        ClearingChangesOneLayer(layers, key, provenance, q);
      }
      hide LayerOf, Clearing;
      ClearingValid(layers, key, provenance);
      layers := Clearing(layers, key, provenance);
      return None;
    }

    /** The recorded value of highest precedence, or the built-in default. */
    method Resolve(key: Key) returns (r: Result<Option<Effective>, IndexError>)
      requires Valid()
      ensures r.Failure? <==> catalog.registry.setting(key).None?
      ensures r.Success? && r.value.Some? && !r.value.value.provenance.Default? ==>
        var p := r.value.value.provenance;
        && key in Layer(p)
        && p == (if key in Layer(Runtime) then Runtime else if key in Layer(Managed) then Managed else Jsonc)
        && r.value.value.value == (if Layer(p)[key].0.Redacted? then None else Some(Layer(p)[key].0.value))
        && r.value.value.detail == Some(Layer(p)[key].1)
      ensures r.Success? && (r.value.None? || r.value.value.provenance.Default?) ==>
        && (forall q :: key !in Layer(q))
        && (r.value.None? <==> catalog.default(key).None?)
        && (r.value.Some? ==> r.value.value.value == catalog.default(key))
    {
      if catalog.registry.setting(key).None? {
        return Failure(UnknownSetting);
      }
      if key in layers {
        var recorded := layers[key];
        assert forall q :: q in recorded <==> key in Layer(q);
        var best := Best(recorded);
        assert Layer(best)[key] == recorded[best];
        hide LayerOf;
        var (stored, detail) := recorded[best];
        return Success(Some(Effective(if stored.Redacted? then None else Some(stored.value), best, Some(detail))));
      }
      if catalog.default(key).None? {
        return Success(None);
      }
      return Success(Some(Effective(catalog.default(key), Default, None)));
    }
  }

  lemma {:induction false} RecordingValid(layers: map<Key, Layers>, key: Key, p: Provenance, x: (Stored, Detail))
    requires LayersValid(layers) && !p.Default?
    ensures LayersValid(Recording(layers, key, p, x))
  {
    assert p in Recording(layers, key, p, x)[key];
  }

  lemma {:induction false} ClearingValid(layers: map<Key, Layers>, key: Key, p: Provenance)
    requires LayersValid(layers)
    ensures LayersValid(Clearing(layers, key, p))
  {
  }
}
