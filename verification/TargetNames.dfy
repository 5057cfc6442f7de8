/** The naming rule of `_validate_target_key` on text, and which targets it leaves a key
    (`src/tfr/gateway_configuration.py`; the settings of worlds in `src/tfr/core_settings.py`). */
module TargetNames {
  /** `key.startswith(f"{prefix}.{target}.")`. */
  predicate Below(prefix: string, target: string, key: string) { prefix + "." + target + "." <= key }

  /** The plugin rule also accepts the key of the plugin itself. */
  predicate AtOrBelow(prefix: string, target: string, key: string) {
    key == prefix + "." + target || Below(prefix, target, key)
  }

  predicate DotFree(s: string) { '.' !in s }

  // -------------------------------------------------------------------------- segments

  /** `s.split(".")`. */
  function Segments(s: string): (r: seq<string>)
    ensures r != []
  {
    if s == "" then [""]
    else
      var rest := Segments(s[1..]);
      if s[0] == '.' then [""] + rest else [[s[0]] + rest[0]] + rest[1..]
  }

  /** `".".join(segments)`. */
  function Joined(segments: seq<string>): string
    requires segments != []
  {
    if |segments| == 1 then segments[0] else segments[0] + "." + Joined(segments[1..])
  }

  lemma {:induction false} SegmentsDotFree(s: string)
    ensures forall i :: 0 <= i < |Segments(s)| ==> DotFree(Segments(s)[i])
  {
    if s != "" {
      SegmentsDotFree(s[1..]);
    }
  }

  /** Splitting and joining are inverse. */
  lemma {:induction false} SegmentsJoined(s: string)
    ensures Joined(Segments(s)) == s
  {
    if s != "" {
      SegmentsJoined(s[1..]);
      var rest := Segments(s[1..]);
      assert s == [s[0]] + s[1..];
      if s[0] == '.' {
        assert ([""] + rest)[1..] == rest;
      } else {
        assert ([[s[0]] + rest[0]] + rest[1..])[1..] == rest[1..];
      }
    }
  }

  lemma {:induction false} DotFreeSegments(s: string)
    requires DotFree(s)
    ensures Segments(s) == [s]
  {
    if s != "" {
      DotFreeSegments(s[1..]);
      assert [s[0]] + s[1..] == s;
    }
  }

  lemma {:induction false} SegmentsOfMore(s: string)
    requires s != ""
    ensures var rest := Segments(s[1..]);
      Segments(s) == if s[0] == '.' then [""] + rest else [[s[0]] + rest[0]] + rest[1..]
  {
  }

  lemma {:induction false} SegmentsConcat(a: string, b: string)
    ensures Segments(a + "." + b) == Segments(a) + Segments(b)
  {
    var s := a + "." + b;
    SegmentsOfMore(s);
    if a == "" {
      assert s[1..] == b && Segments(a) == [""];
    } else {
      SegmentsConcat(a[1..], b);
      SegmentsOfMore(a);
      hide Segments;
      assert s[1..] == a[1..] + "." + b && s[0] == a[0];
      ConsConcat(a[0], Segments(a[1..]), Segments(b));
    }
  }

  lemma {:induction false} ConsConcat(c: char, a: seq<string>, b: seq<string>)
    requires a != []
    ensures [""] + (a + b) == ([""] + a) + b
    ensures [[c] + (a + b)[0]] + (a + b)[1..] == ([[c] + a[0]] + a[1..]) + b
  {
  }

  lemma {:induction false} JoinedConcat(a: seq<string>, b: seq<string>)
    requires a != [] && b != []
    ensures Joined(a + b) == Joined(a) + "." + Joined(b)
  {
    if |a| == 1 {
      assert (a + b)[1..] == b;
    } else {
      JoinedConcat(a[1..], b);
      assert (a + b)[1..] == a[1..] + b;
    }
  }

  /** A text begins with another and a dot exactly when its segments properly begin with the
      other's. */
  lemma {:induction false} ProperPrefix(a: string, s: string)
    ensures a + "." <= s <==> Segments(a) < Segments(s)
  {
    if a + "." <= s {
      var rest := s[|a| + 1..];
      assert s == a + "." + rest;
      SegmentsConcat(a, rest);
    }
    if Segments(a) < Segments(s) {
      var rest := Segments(s)[|Segments(a)|..];
      assert Segments(s) == Segments(a) + rest;
      JoinedConcat(Segments(a), rest);
      SegmentsJoined(a);
      SegmentsJoined(s);
    }
  }

  lemma {:induction false} SameSegments(s: string, t: string)
    ensures s == t <==> Segments(s) == Segments(t)
  {
    SegmentsJoined(s);
    SegmentsJoined(t);
  }

  // ----------------------------------------------------------------------- homes of a key

  /** What the two rules accept, for any name: the key's segments begin with those of the
      prefix and the name. */
  lemma {:induction false} HomesAre(prefix: string, t: string, key: string)
    ensures Below(prefix, t, key) <==> Segments(prefix) + Segments(t) < Segments(key)
    ensures AtOrBelow(prefix, t, key) <==> Segments(prefix) + Segments(t) <= Segments(key)
  {
    SegmentsConcat(prefix, t);
    ProperPrefix(prefix + "." + t, key);
    SameSegments(prefix + "." + t, key);
  }

  lemma {:induction false} DotFreeHasOneHome(prefix: string, t: string, u: string, key: string)
    requires DotFree(t) && DotFree(u) && Below(prefix, t, key) && Below(prefix, u, key)
    ensures t == u
  {
    hide Below, DotFree, Segments;
    PluginHasOneHome(prefix, t, u, key);
  }

  lemma {:induction false} PluginHasOneHome(prefix: string, t: string, u: string, key: string)
    requires DotFree(t) && DotFree(u) && AtOrBelow(prefix, t, key) && AtOrBelow(prefix, u, key)
    ensures t == u
  {
    hide AtOrBelow, DotFree, Segments;
    HomesAre(prefix, t, key);
    HomesAre(prefix, u, key);
    DotFreeSegments(t);
    DotFreeSegments(u);
    var n := |Segments(prefix)|;
    assert (Segments(prefix) + [t])[n] == Segments(key)[n] == (Segments(prefix) + [u])[n];
  }

  // --------------------------------------------------------------- the settings of worlds

  /** `ConfigurationRegistry.get`: a pattern has as many segments as the key, and `*` stands
      for exactly one. */
  predicate Matches(pattern: seq<string>, segments: seq<string>) {
    |pattern| == |segments| && forall i :: 0 <= i < |pattern| ==> pattern[i] == "*" || pattern[i] == segments[i]
  }

  /** The settings of world scope, `worlds.*.<field>` and `worlds.*.<group>.<field>`. */
  const WORLD_FIELDS: set<string> := {
    "host", "port", "aliases", "server", "encoding", "reconnect", "scrollback_lines", "autoconnect", "startup_commands"}

  const WORLD_GROUP_FIELDS: set<(string, string)> := {
    ("tls", "enabled"), ("tls", "verify"), ("tls", "ca_file"), ("tls", "server_hostname"), ("login", "character"),
    ("provenance", "nospoof"), ("provenance", "show_prefix"), ("capabilities", "unicode"),
    ("idle", "after_seconds"), ("idle", "command"), ("gag", "patterns")}

  /** Shared settings whose own descriptors come before any pattern. */
  const WORLD_DEFAULTS: set<string> := {"encoding", "reconnect", "scrollback_lines"}

  /** The key is known as a setting of world scope. */
  predicate WorldKey(key: string) {
    var segments := Segments(key);
    && !(exists field :: field in WORLD_DEFAULTS && segments == ["worlds", "defaults", field])
    && ((exists field :: field in WORLD_FIELDS && Matches(["worlds", "*", field], segments))
        || exists field :: field in WORLD_GROUP_FIELDS && Matches(["worlds", "*", field.0, field.1], segments))
  }

  /** The homes of a world setting: the world it names, and for a grouped setting also that
      name followed by the group. */
  lemma {:induction false} WorldHomes(key: string, t: string)
    requires WorldKey(key)
    ensures var s := Segments(key);
      && 3 <= |s| <= 4
      && (Below("worlds", t, key) <==> t == s[1] || (|s| == 4 && t == s[1] + "." + s[2]))
  {
    hide Below, Segments, WorldKey;
    var s := Segments(key);
    WorldKeyShape(key);
    SegmentsDotFree(key);
    HomesAre("worlds", t, key);
    DotFreeSegments(s[0]);
    DotFreeSegments(s[1]);
    DotFreeSegments(s[2]);
    SegmentsConcat(s[1], s[2]);
    SameSegments(t, s[1]);
    SameSegments(t, s[1] + "." + s[2]);
    hide DotFree;
    PrefixAfter(s[0], Segments(t), s);
  }

  lemma {:induction false} WorldKeyShape(key: string)
    requires WorldKey(key)
    ensures 3 <= |Segments(key)| <= 4 && Segments(key)[0] == "worlds"
  {
    hide Segments, WORLD_FIELDS, WORLD_GROUP_FIELDS, WORLD_DEFAULTS;
  }

  lemma {:induction false} PrefixAfter(head: string, t: seq<string>, s: seq<string>)
    requires t != [] && 3 <= |s| <= 4 && s[0] == head
    ensures [head] + t < s <==> t == [s[1]] || (|s| == 4 && t == [s[1], s[2]])
  {
    if [head] + t < s {
      assert forall i :: 0 <= i < |t| ==> t[i] == ([head] + t)[i + 1] == s[i + 1];
    }
  }

  /** The key of a world's grouped setting, as in `worlds.a.tls.enabled`. */
  function GroupedKey(world: string, group: string, field: string): string { "worlds" + "." + world + "." + group + "." + field }

  /** Every grouped setting of every world has two homes, as `worlds.a.tls.enabled` has `a`
      and `a.tls`. */
  lemma {:induction false} GroupedKeyHasTwo(world: string, group: string, field: string)
    requires DotFree(world) && (group, field) in WORLD_GROUP_FIELDS
    ensures var key := GroupedKey(world, group, field);
      WorldKey(key) && Below("worlds", world, key) && Below("worlds", world + "." + group, key)
  {
    var key := GroupedKey(world, group, field);
    GroupsDotFree();
    FourSegments("worlds", world, group, field);
    hide Segments, Below, DotFree, GroupedKey;
    var both := (group, field);
    assert Matches(["worlds", "*", both.0, both.1], Segments(key));
    hide WORLD_GROUP_FIELDS;
    WorldHomes(key, world);
    WorldHomes(key, world + "." + group);
  }

  lemma {:induction false} GroupsDotFree()
    ensures forall both :: both in WORLD_GROUP_FIELDS ==> DotFree(both.0) && DotFree(both.1)
    ensures DotFree("worlds")
  {
  }

  /** So has every setting of every plugin, as `plugins.config.speaker_effects.rules` has
      `speaker_effects` and `speaker_effects.rules`. */
  lemma {:induction false} PluginKeyHasTwo(plugin: string, setting: string)
    ensures var key := "plugins.config" + "." + plugin + "." + setting;
      AtOrBelow("plugins.config", plugin, key) && AtOrBelow("plugins.config", plugin + "." + setting, key)
  {
    assert "plugins.config" + "." + (plugin + "." + setting) == "plugins.config" + "." + plugin + "." + setting;
  }

  lemma {:induction false} FourSegments(a: string, b: string, c: string, d: string)
    requires DotFree(a) && DotFree(b) && DotFree(c) && DotFree(d)
    ensures Segments(a + "." + b + "." + c + "." + d) == [a, b, c, d]
  {
    hide DotFree;
    SegmentsConcat(a + "." + b + "." + c, d);
    SegmentsConcat(a + "." + b, c);
    SegmentsConcat(a, b);
    DotFreeSegments(a);
    DotFreeSegments(b);
    DotFreeSegments(c);
    DotFreeSegments(d);
  }
}
