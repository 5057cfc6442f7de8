/** Merging speaker rules from legacy configurations (`_normalized_speaker_rules` and
    `_merge_speaker_rules` in `src/tfr/gateway_migration.py`). */
module SpeakerRules {
  import opened Wrappers
  import opened Sequences

  /** Speaker texts, their stripped and case-folded identities, and whatever else is JSON. */
  type Speaker(==, !new)
  type Identity(==, !new)
  type Other(==, !new)

  datatype KindWord = Say | Pose | Unsupported(word: Other)

  datatype Kinds = NoKinds | NotAList(value: Other) | Listed(words: seq<KindWord>)

  /** A rule object; `speaker` is absent unless it is a text. */
  datatype Rule = Rule(speaker: Option<Speaker>, kinds: Kinds, rest: Other)

  /** A configured value: a list whose items may not be objects, or something else. */
  datatype RuleValue = NoList | Rules(items: seq<Option<Rule>>)

  function Supported(): KindWord -> bool { (w: KindWord) => !w.Unsupported? }

  /** Only supported kinds stay; a list without any is dropped. */
  function Normal(rule: Rule): Rule {
    if !rule.kinds.Listed? then rule
    else
      var words := Filter(rule.kinds.words, Supported());
      rule.(kinds := if words == [] then NoKinds else Listed(words))
  }

  /** The normalized rule objects of a value, in order. */
  function Normalized(value: RuleValue): seq<Rule> {
    if value.NoList? then [] else NormalItems(value.items)
  }

  function NormalItems(items: seq<Option<Rule>>): seq<Rule> {
    if items == [] then []
    else
      var before := NormalItems(items[..|items| - 1]);
      var item := items[|items| - 1];
      if item.Some? then before + [Normal(item.value)] else before
  }

  /** How a speaker is compared: `None` for a blank text. */
  type Folding = Speaker -> Option<Identity>

  function IdentityOf(fold: Folding, rule: Rule): Option<Identity> {
    if rule.speaker.None? then None else fold(rule.speaker.value)
  }

  predicate Names(fold: Folding, rules: seq<Rule>, id: Identity) {
    exists i :: 0 <= i < |rules| && IdentityOf(fold, rules[i]) == Some(id)
  }

  /** All rules offered, the current ones first. */
  function Offered(values: seq<RuleValue>): seq<Rule> {
    if values == [] then [] else Offered(values[..|values| - 1]) + Normalized(values[|values| - 1])
  }

  /** The rules that are the first to name their speaker. */
  function Firsts(fold: Folding, rules: seq<Rule>): seq<Rule> {
    if rules == [] then []
    else
      var init, rule := rules[..|rules| - 1], rules[|rules| - 1];
      var id := IdentityOf(fold, rule);
      if id.Some? && !Names(fold, init, id.value) then Firsts(fold, init) + [rule] else Firsts(fold, init)
  }

  function Merged(fold: Folding, current: RuleValue, candidates: seq<RuleValue>): seq<Rule> {
    Firsts(fold, Offered([current] + candidates))
  }

  // ----------------------------------------------------------------- what merging means

  ghost predicate DistinctSpeakers(fold: Folding, rules: seq<Rule>) {
    && (forall i :: 0 <= i < |rules| ==> IdentityOf(fold, rules[i]).Some?)
    && (forall i, j :: 0 <= i < j < |rules| ==> IdentityOf(fold, rules[i]) != IdentityOf(fold, rules[j]))
  }

  /** `rules[i]` is the first to name its speaker. */
  ghost predicate IsFirst(fold: Folding, rules: seq<Rule>, i: nat) {
    i < |rules| && IdentityOf(fold, rules[i]).Some?
    && forall j :: 0 <= j < i ==> IdentityOf(fold, rules[j]) != IdentityOf(fold, rules[i])
  }

  /** `rule` is the first for its speaker. */
  ghost predicate FirstRule(fold: Folding, rules: seq<Rule>, rule: Rule) {
    exists i: nat :: IsFirst(fold, rules, i) && rules[i] == rule
  }

  /** The merge names the same speakers as the offer, each once, by the first rule for it. */
  lemma {:induction false} FirstsAre(fold: Folding, rules: seq<Rule>)
    ensures var kept := Firsts(fold, rules);
      && DistinctSpeakers(fold, kept)
      && (forall id :: Names(fold, kept, id) <==> Names(fold, rules, id))
      && (forall rule :: rule in kept <==> FirstRule(fold, rules, rule))
  {
    if rules != [] {
      var init, rule := rules[..|rules| - 1], rules[|rules| - 1];
      FirstsAre(fold, init);
      assert rules == init + [rule];
      NamesSnoc(fold, init, rule);
      NamesSnoc(fold, Firsts(fold, init), rule);
      FirstSnoc(fold, init, rule);
      hide Names, IsFirst, Firsts;
      var id := IdentityOf(fold, rule);
      var before := Firsts(fold, init);
      var kept := Firsts(fold, rules);
      assert kept == if id.Some? && !Names(fold, init, id.value) then before + [rule] else before by {
        FirstsStep(fold, init, rule);
      }
      if id.Some? && !Names(fold, init, id.value) {
        NotNamed(fold, before, id.value);
        assert IsFirst(fold, rules, |init|);
      }
      forall r | r in kept ensures exists i: nat :: IsFirst(fold, rules, i) && rules[i] == r {
        if r in before {
          var i: nat :| IsFirst(fold, init, i) && init[i] == r;
          assert IsFirst(fold, rules, i) && rules[i] == r;
        }
      }
    }
  }

  lemma {:induction false} FirstsStep(fold: Folding, init: seq<Rule>, rule: Rule)
    ensures var id := IdentityOf(fold, rule);
      Firsts(fold, init + [rule]) ==
        if id.Some? && !Names(fold, init, id.value) then Firsts(fold, init) + [rule] else Firsts(fold, init)
  {
    assert (init + [rule])[..|init|] == init;
  }

  lemma {:induction false} NamesSnoc(fold: Folding, rules: seq<Rule>, rule: Rule)
    ensures forall id :: Names(fold, rules + [rule], id) <==> Names(fold, rules, id) || IdentityOf(fold, rule) == Some(id)
  {
    forall id | Names(fold, rules, id) ensures Names(fold, rules + [rule], id) {
      var i :| 0 <= i < |rules| && IdentityOf(fold, rules[i]) == Some(id);
      assert (rules + [rule])[i] == rules[i];
    }
    forall id | IdentityOf(fold, rule) == Some(id) ensures Names(fold, rules + [rule], id) {
      assert (rules + [rule])[|rules|] == rule;
    }
  }

  lemma {:induction false} NotNamed(fold: Folding, rules: seq<Rule>, id: Identity)
    ensures Names(fold, rules, id) || forall i :: 0 <= i < |rules| ==> IdentityOf(fold, rules[i]) != Some(id)
  {
  }

  lemma {:induction false} FirstSnoc(fold: Folding, init: seq<Rule>, rule: Rule)
    ensures forall i: nat :: i < |init| ==> (IsFirst(fold, init + [rule], i) <==> IsFirst(fold, init, i))
    ensures var id := IdentityOf(fold, rule); IsFirst(fold, init + [rule], |init|) <==> id.Some? && !Names(fold, init, id.value)
    ensures forall i: nat :: IsFirst(fold, init + [rule], i) ==> i <= |init|
  {
    var rules := init + [rule];
    assert forall i :: 0 <= i < |init| ==> rules[i] == init[i];
  }

  /** Earlier offers come first, and later ones add only speakers not yet named. */
  lemma {:induction false} FirstsExtend(fold: Folding, a: seq<Rule>, b: seq<Rule>)
    ensures Firsts(fold, a) <= Firsts(fold, a + b)
    ensures (forall id :: Names(fold, b, id) ==> Names(fold, a, id)) ==> Firsts(fold, a + b) == Firsts(fold, a)
  {
    if b == [] {
      assert a + b == a;
    } else {
      var init, rule := b[..|b| - 1], b[|b| - 1];
      FirstsExtend(fold, a, init);
      assert (a + init) + [rule] == a + b && init + [rule] == b;
      FirstsStep(fold, a + init, rule);
      NamesSnoc(fold, init, rule);
      NamesAppend(fold, a, init);
      hide Names, Firsts;
    }
  }

  lemma {:induction false} NamesAppend(fold: Folding, a: seq<Rule>, b: seq<Rule>)
    ensures forall id :: Names(fold, a + b, id) <==> Names(fold, a, id) || Names(fold, b, id)
  {
    forall id | Names(fold, a, id) ensures Names(fold, a + b, id) {
      var i :| 0 <= i < |a| && IdentityOf(fold, a[i]) == Some(id);
      assert (a + b)[i] == a[i];
    }
    forall id | Names(fold, b, id) ensures Names(fold, a + b, id) {
      var i :| 0 <= i < |b| && IdentityOf(fold, b[i]) == Some(id);
      assert (a + b)[|a| + i] == b[i];
    }
  }

  /** Kept rules stand in the order of their first mention. */
  lemma {:induction false} FirstsInOrder(fold: Folding, rules: seq<Rule>, i: nat, j: nat)
    requires i < j && IsFirst(fold, rules, i) && IsFirst(fold, rules, j)
    ensures var kept := Firsts(fold, rules);
      exists p, q :: 0 <= p < q < |kept| && kept[p] == rules[i] && kept[q] == rules[j]
  {
    var before, rule := rules[..j], rules[j];
    assert rules == (before + [rule]) + rules[j + 1..];
    FirstsExtend(fold, before + [rule], rules[j + 1..]);
    FirstSnoc(fold, before, rule);
    FirstsStep(fold, before, rule);
    FirstsAre(fold, before);
    assert IsFirst(fold, before, i) && before[i] == rules[i];
    assert IsFirst(fold, before + [rule], |before|);
    hide Firsts, Names, IsFirst;
    var early := Firsts(fold, before);
    assert rules[i] in early;
    var p :| 0 <= p < |early| && early[p] == rules[i];
    assert Firsts(fold, before + [rule]) == early + [rule];
    var kept := Firsts(fold, rules);
    assert kept[p] == rules[i] && kept[|early|] == rules[j];
  }

  lemma {:induction false} DistinctKept(fold: Folding, rules: seq<Rule>)
    requires DistinctSpeakers(fold, rules)
    ensures Firsts(fold, rules) == rules
  {
    if rules != [] {
      var init, rule := rules[..|rules| - 1], rules[|rules| - 1];
      DistinctKept(fold, init);
      assert rules == init + [rule];
      assert !Names(fold, init, IdentityOf(fold, rule).value);
    }
  }

  // --------------------------------------------------------------------- merging again

  lemma {:induction false} NormalTwice(rule: Rule)
    ensures Normal(Normal(rule)) == Normal(rule)
  {
    if rule.kinds.Listed? {
      FilterTwice(rule.kinds.words, Supported(), Supported(), Supported());
    }
  }

  function AsValue(rules: seq<Rule>): RuleValue { Rules(Items(rules)) }

  function Items(rules: seq<Rule>): seq<Option<Rule>> {
    if rules == [] then [] else Items(rules[..|rules| - 1]) + [Some(rules[|rules| - 1])]
  }

  ghost predicate AllNormal(rules: seq<Rule>) { forall rule :: rule in rules ==> Normal(rule) == rule }

  lemma {:induction false} NormalItemsOf(rules: seq<Rule>)
    requires AllNormal(rules)
    ensures NormalItems(Items(rules)) == rules
  {
    hide Normal;
    if rules != [] {
      NormalItemsOf(rules[..|rules| - 1]);
      assert rules[|rules| - 1] in rules;
      var items := Items(rules);
      assert items[..|items| - 1] == Items(rules[..|rules| - 1]);
    }
  }

  lemma {:induction false} NormalizedNormal(items: seq<Option<Rule>>)
    ensures AllNormal(NormalItems(items))
  {
    if items != [] {
      NormalizedNormal(items[..|items| - 1]);
      var item := items[|items| - 1];
      if item.Some? {
        NormalTwice(item.value);
      }
      hide Normal;
    }
  }

  lemma {:induction false} OfferedNormal(values: seq<RuleValue>)
    ensures AllNormal(Offered(values))
  {
    hide Normal;
    if values != [] {
      OfferedNormal(values[..|values| - 1]);
      if values[|values| - 1].Rules? {
        NormalizedNormal(values[|values| - 1].items);
      }
    }
  }

  lemma {:induction false} OfferedCons(value: RuleValue, values: seq<RuleValue>)
    ensures Offered([value] + values) == Normalized(value) + Offered(values)
  {
    hide Normalized;
    if values == [] {
      assert [value] + values == [value] && [value][..0] == [];
      assert Offered([value]) == Offered([]) + Normalized(value);
    } else {
      var init, last := values[..|values| - 1], values[|values| - 1];
      OfferedCons(value, init);
      assert ([value] + values)[..|values|] == [value] + init;
    }
  }

  /** Merging is a first-wins union, and merging its result with the same candidates again
      changes nothing. */
  lemma {:induction false} MergeAgain(fold: Folding, current: RuleValue, candidates: seq<RuleValue>)
    ensures var merged := Merged(fold, current, candidates);
      Merged(fold, AsValue(merged), candidates) == merged
  {
    var merged := Merged(fold, current, candidates);
    var offered := Offered([current] + candidates);
    OfferedNormal([current] + candidates);
    FirstsAre(fold, offered);
    KeptOf(fold, offered);
    OfferedCons(current, candidates);
    OfferedCons(AsValue(merged), candidates);
    hide Normal, Firsts, Names, Offered, NormalItems;
    NormalItemsOf(merged);
    NamesAppend(fold, Normalized(current), Offered(candidates));
    DistinctKept(fold, merged);
    FirstsExtend(fold, merged, Offered(candidates));
  }

  lemma {:induction false} KeptOf(fold: Folding, rules: seq<Rule>)
    ensures forall rule :: rule in Firsts(fold, rules) ==> rule in rules
  {
    if rules != [] {
      KeptOf(fold, rules[..|rules| - 1]);
    }
  }

  /** The main statement about `_merge_speaker_rules`, over all inputs. */
  lemma {:induction false} MergeIsFirstWins(fold: Folding, current: RuleValue, candidates: seq<RuleValue>)
    ensures var offered := Offered([current] + candidates);
      var merged := Merged(fold, current, candidates);
      && DistinctSpeakers(fold, merged)
      && (forall id :: Names(fold, merged, id) <==> Names(fold, offered, id))
      && (forall rule :: rule in merged <==> FirstRule(fold, offered, rule))
  {
    hide Offered, Firsts, DistinctSpeakers, Names, FirstRule;
    FirstsAre(fold, Offered([current] + candidates));
  }

  /** The merge, spelled out: a rule stays when its speaker is a text that folds to something
      and no rule offered before it has a speaker that folds to the same. */
  lemma {:induction false} MergeKeeps(fold: Folding, current: RuleValue, candidates: seq<RuleValue>, rule: Rule)
    ensures var offered := Offered([current] + candidates);
      rule in Merged(fold, current, candidates) <==> exists i ::
        && 0 <= i < |offered| && offered[i] == rule && rule.speaker.Some? && fold(rule.speaker.value).Some?
        && forall j :: 0 <= j < i ==> offered[j].speaker.None? || fold(offered[j].speaker.value) != fold(rule.speaker.value)
  {
    var offered := Offered([current] + candidates);
    MergeIsFirstWins(fold, current, candidates);
    hide Offered, Firsts, DistinctSpeakers, Names;
    forall i: nat ensures IsFirst(fold, offered, i) <==>
      && i < |offered| && offered[i].speaker.Some? && fold(offered[i].speaker.value).Some?
      && forall j :: 0 <= j < i ==> offered[j].speaker.None? || fold(offered[j].speaker.value) != fold(offered[i].speaker.value)
    {
      FirstIs(fold, offered, i);
    }
    hide IsFirst;
  }

  lemma {:induction false} FirstIs(fold: Folding, rules: seq<Rule>, i: nat)
    ensures IsFirst(fold, rules, i) <==>
      && i < |rules| && rules[i].speaker.Some? && fold(rules[i].speaker.value).Some?
      && forall j :: 0 <= j < i ==> rules[j].speaker.None? || fold(rules[j].speaker.value) != fold(rules[i].speaker.value)
  {
    if IsFirst(fold, rules, i) {
      forall j | 0 <= j < i ensures rules[j].speaker.None? || fold(rules[j].speaker.value) != fold(rules[i].speaker.value) {
        assert IdentityOf(fold, rules[j]) != IdentityOf(fold, rules[i]);
      }
    }
  }

  /** What is offered, in order: the rule objects of each value, normalized; a value that is no
      list and an item that is no object offer nothing. */
  lemma {:induction false} OfferedAre(values: seq<RuleValue>, items: seq<Option<Rule>>, rule: Rule)
    ensures Offered([]) == []
    ensures Offered(values + [NoList]) == Offered(values)
    ensures Offered(values + [Rules([])]) == Offered(values)
    ensures Offered(values + [Rules(items + [None])]) == Offered(values + [Rules(items)])
    ensures Offered(values + [Rules(items + [Some(rule)])]) == Offered(values + [Rules(items)]) + [Normal(rule)]
  {
    hide Normal;
    assert (items + [None])[..|items|] == items && (items + [Some(rule)])[..|items|] == items;
    OfferedMore(values, NoList);
    OfferedMore(values, Rules([]));
    OfferedMore(values, Rules(items));
    OfferedMore(values, Rules(items + [None]));
    OfferedMore(values, Rules(items + [Some(rule)]));
    hide Offered;
  }

  lemma {:induction false} OfferedMore(values: seq<RuleValue>, value: RuleValue)
    ensures Offered(values + [value]) == Offered(values) + Normalized(value)
  {
    assert (values + [value])[..|values|] == values;
  }

  /** A normalized rule keeps everything but its unsupported kinds, and a list of kinds without a
      supported one is dropped. */
  lemma {:induction false} NormalIs(rule: Rule)
    ensures Normal(rule).speaker == rule.speaker && Normal(rule).rest == rule.rest
    ensures !rule.kinds.Listed? ==> Normal(rule) == rule
    ensures rule.kinds.Listed? ==>
      if Say !in rule.kinds.words && Pose !in rule.kinds.words then Normal(rule).kinds == NoKinds
      else Normal(rule).kinds.Listed? && forall w :: w in Normal(rule).kinds.words <==> w in rule.kinds.words && (w == Say || w == Pose)
    ensures forall words, w: KindWord ::
      Filter(words + [w], Supported()) == if w == Say || w == Pose then Filter(words, Supported()) + [w] else Filter(words, Supported())
  {
    if rule.kinds.Listed? {
      FilterMember(rule.kinds.words, Supported());
      var kept := Filter(rule.kinds.words, Supported());
      if kept != [] {
        assert kept[0] in kept;
      }
    }
    hide Filter;
    forall words, w: KindWord ensures
      Filter(words + [w], Supported()) == if w == Say || w == Pose then Filter(words, Supported()) + [w] else Filter(words, Supported())
    {
      FilterSnoc(words, w, Supported());
    }
  }

  // --------------------------------------------------------------------------- the loops

  method NormalizedSpeakerRules(value: RuleValue) returns (output: seq<Rule>)
    ensures output == Normalized(value)
  {
    output := [];
    if value.NoList? {
      return;
    }
    for i := 0 to |value.items|
      invariant output == NormalItems(value.items[..i])
    {
      assert value.items[..i + 1][..i] == value.items[..i];
      if value.items[i].Some? {
        output := output + [Normal(value.items[i].value)];
      }
    }
    assert value.items[..|value.items|] == value.items;
  }

  method MergeSpeakerRules(fold: Folding, current: RuleValue, candidates: seq<RuleValue>) returns (merged: seq<Rule>)
    ensures merged == Merged(fold, current, candidates)
  {
    hide Names, Firsts, Normalized;
    var values := [current] + candidates;
    merged := [];
    var speakers: set<Identity> := {};
    FirstsNothing(fold);
    for i := 0 to |values|
      invariant merged == Firsts(fold, Offered(values[..i]))
      invariant forall id :: id in speakers <==> Names(fold, Offered(values[..i]), id)
    {
      assert values[..i + 1][..i] == values[..i];
      var rules := NormalizedSpeakerRules(values[i]);
      ghost var before := Offered(values[..i]);
      assert before + rules[..0] == before;
      for j := 0 to |rules|
        invariant merged == Firsts(fold, before + rules[..j])
        invariant forall id :: id in speakers <==> Names(fold, before + rules[..j], id)
      {
        var rule := rules[j];
        assert before + rules[..j + 1] == (before + rules[..j]) + [rule];
        FirstsStep(fold, before + rules[..j], rule);
        NamesSnoc(fold, before + rules[..j], rule);
        var id := IdentityOf(fold, rule);
        if id.Some? && id.value !in speakers {
          speakers := speakers + {id.value};
          merged := merged + [rule];
        }
      }
      assert rules[..|rules|] == rules;
    }
    assert values[..|values|] == values;
  }

  lemma {:induction false} FirstsNothing(fold: Folding)
    ensures Firsts(fold, []) == [] && forall id :: !Names(fold, [], id)
  {
  }
}
