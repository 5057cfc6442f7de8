/** The gag policy: a bounded cache over fail-open pattern matching. */
module GagPolicy {
  import opened Wrappers
  import opened Sequences

  // `src/tfr/gag.py`, with timeouts and quarantine. Pattern searches are given as outcomes.

  const CACHE_SIZE: nat := 50_000
  const QUARANTINE_THRESHOLD: nat := 3
  const MAX_INPUT: nat := 16_384

  type EventId(==, !new)
  type World(==, !new)

  // ------------------------------------------------------------------ the decision cache

  /** Remembered decisions, the least recently queried first. */
  type Cache = seq<(EventId, bool)>

  function Ids(cache: Cache): (ids: seq<EventId>)
    ensures |ids| == |cache| && forall i :: 0 <= i < |cache| ==> ids[i] == cache[i].0
  {
    seq(|cache|, i requires 0 <= i < |cache| => cache[i].0)
  }

  /** `s` without `x`. */
  function Remove(s: seq<EventId>, x: EventId): seq<EventId> { Filter(s, (y: EventId) => y != x) }

  function Forget(cache: Cache, id: EventId): Cache { Filter(cache, (entry: (EventId, bool)) => entry.0 != id) }

  function Recall(cache: Cache, id: EventId): Option<bool> {
    if cache == [] then None
    else if cache[|cache| - 1].0 == id then Some(cache[|cache| - 1].1)
    else Recall(cache[..|cache| - 1], id)
  }

  /** One query, with what an evaluation would answer. */
  function Queried(cache: Cache, id: EventId, evaluated: bool, size: nat): (Cache, bool) {
    var cached := Recall(cache, id);
    if cached.Some? then (Forget(cache, id) + [(id, cached.value)], cached.value)
    else
      var grown := cache + [(id, evaluated)];
      (if |grown| > size then grown[1..] else grown, evaluated)
  }

  /** Queried identifiers, each at its latest query. */
  function ByRecency(queries: seq<EventId>): seq<EventId> {
    if queries == [] then []
    else Remove(ByRecency(queries[..|queries| - 1]), queries[|queries| - 1]) + [queries[|queries| - 1]]
  }

  ghost predicate NoRepeats(s: seq<EventId>) { forall i, j :: 0 <= i < j < |s| ==> s[i] != s[j] }

  lemma {:induction false} RemoveSplits(s: seq<EventId>, x: EventId)
    requires NoRepeats(s)
    ensures x !in s ==> Remove(s, x) == s
    ensures forall i :: 0 <= i < |s| && s[i] == x ==> Remove(s, x) == s[..i] + s[i + 1..]
  {
    var p := (y: EventId) => y != x;
    if x !in s {
      FilterAll(s, p);
    }
    forall i | 0 <= i < |s| && s[i] == x ensures Remove(s, x) == s[..i] + s[i + 1..] {
      assert s == (s[..i] + [x]) + s[i + 1..];
      FilterAppend(s[..i] + [x], s[i + 1..], p);
      FilterSnoc(s[..i], x, p);
      FilterAll(s[..i], p);
      FilterAll(s[i + 1..], p);
    }
  }

  lemma {:induction false} MovedDistinct(s: seq<EventId>, x: EventId)
    requires NoRepeats(s)
    ensures NoRepeats(Remove(s, x) + [x]) && forall y :: y in Remove(s, x) + [x] <==> y in s || y == x
  {
    FilterMember(s, (y: EventId) => y != x);
    RemoveSplits(s, x);
    assert forall y :: y in Remove(s, x) <==> y in s && y != x;
    hide Remove;
    var rest := Remove(s, x);
    forall a, b | 0 <= a < b < |rest| ensures rest[a] != rest[b] {
      if i :| 0 <= i < |s| && s[i] == x {
        assert rest == s[..i] + s[i + 1..];
        assert rest[a] == s[if a < i then a else a + 1] && rest[b] == s[if b < i then b else b + 1];
      } else {
        assert x !in s;
      }
    }
    forall a | 0 <= a < |rest| ensures rest[a] != x {
      assert rest[a] in rest;
    }
  }

  lemma {:induction false} RecencyDistinct(queries: seq<EventId>)
    ensures NoRepeats(ByRecency(queries)) && forall x :: x in ByRecency(queries) <==> x in queries
  {
    hide Remove, NoRepeats;
    if queries != [] {
      var init, x := queries[..|queries| - 1], queries[|queries| - 1];
      RecencyDistinct(init);
      MovedDistinct(ByRecency(init), x);
      assert queries == init + [x];
    } else {
      NothingRepeats();
    }
  }

  lemma {:induction false} NothingRepeats()
    ensures NoRepeats([])
  {
  }

  /** Cutting an element out and adding it at the end, seen from the newest `size`. */
  lemma {:induction false} MovedWithin(s: seq<EventId>, i: nat, x: EventId, size: nat)
    requires size >= 1 && i < |s|
    ensures var (kept, moved) := (LastN(s, size), s[..i] + s[i + 1..] + [x]);
      var cut := |s| - |kept|;
      LastN(moved, size) == if i >= cut then kept[..i - cut] + kept[i - cut + 1..] + [x] else kept[1..] + [x]
  {
    var kept, moved := LastN(s, size), s[..i] + s[i + 1..] + [x];
    var cut := |s| - |kept|;
    NewestFrom(s, size);
    NewestFrom(moved, size);
    hide LastN;
    if i >= cut {
      CutAfter(s, i, x, cut);
    } else {
      CutBefore(s, i, x, cut);
    }
  }

  lemma {:induction false} NewestFrom(s: seq<EventId>, size: nat)
    ensures LastN(s, size) == s[|s| - |LastN(s, size)|..]
  {
  }

  lemma {:induction false} CutAfter(s: seq<EventId>, i: nat, x: EventId, cut: nat)
    requires cut <= i < |s|
    ensures var kept := s[cut..];
      (s[..i] + s[i + 1..] + [x])[cut..] == kept[..i - cut] + kept[i - cut + 1..] + [x]
  {
    var a, b := s[..i], s[i + 1..] + [x];
    assert s[..i] + s[i + 1..] + [x] == a + b;
    assert (a + b)[cut..] == a[cut..] + b;
    assert a[cut..] == s[cut..][..i - cut] && s[i + 1..] == s[cut..][i - cut + 1..];
  }

  lemma {:induction false} CutBefore(s: seq<EventId>, i: nat, x: EventId, cut: nat)
    requires i < cut < |s|
    ensures (s[..i] + s[i + 1..] + [x])[cut..] == s[cut..][1..] + [x]
  {
    var a, b := s[..i], s[i + 1..];
    assert a + b + [x] == a + (b + [x]);
    assert (a + (b + [x]))[cut..] == (b + [x])[cut - i..];
    assert (b + [x])[cut - i..] == b[cut - i..] + [x];
    assert b[cut - i..] == s[cut..][1..];
  }

  lemma {:induction false} KeptHas(s: seq<EventId>, i: nat, x: EventId, size: nat)
    requires NoRepeats(s) && i < |s| && s[i] == x
    ensures var kept := LastN(s, size);
      var cut := |s| - |kept|;
      && NoRepeats(kept) && (x in kept <==> i >= cut) && (i >= cut ==> kept[i - cut] == x)
  {
    var kept := LastN(s, size);
    var cut := |s| - |kept|;
    assert forall j :: 0 <= j < |kept| ==> kept[j] == s[cut + j];
  }

  /** Moving an element to the end, seen from the newest `size`. */
  lemma {:induction false} NewestMoved(s: seq<EventId>, x: EventId, size: nat)
    requires size >= 1 && NoRepeats(s)
    ensures var kept := LastN(s, size);
      LastN(Remove(s, x) + [x], size) ==
        if x in kept then Remove(kept, x) + [x] else if |kept| < size then kept + [x] else kept[1..] + [x]
  {
    hide Remove, NoRepeats, LastN;
    RemoveSplits(s, x);
    if x in s {
      var i :| 0 <= i < |s| && s[i] == x;
      NewestFound(s, i, x, size);
    } else {
      NewestNew(s, x, size);
    }
  }

  lemma {:induction false} NewestNew(s: seq<EventId>, x: EventId, size: nat)
    requires size >= 1 && x !in s
    ensures var kept := LastN(s, size);
      x !in kept && LastN(s + [x], size) == if |kept| < size then kept + [x] else kept[1..] + [x]
  {
    LastNSnoc(s, x, size);
  }

  lemma {:induction false} NewestFound(s: seq<EventId>, i: nat, x: EventId, size: nat)
    requires size >= 1 && NoRepeats(s) && i < |s| && s[i] == x
    ensures var kept := LastN(s, size);
      LastN(Remove(s, x) + [x], size) ==
        if x in kept then Remove(kept, x) + [x] else if |kept| < size then kept + [x] else kept[1..] + [x]
  {
    hide Remove, NoRepeats;
    var kept := LastN(s, size);
    RemoveSplits(s, x);
    KeptHas(s, i, x, size);
    MovedWithin(s, i, x, size);
    RemoveSplits(kept, x);
    hide LastN;
  }

  lemma {:induction false} RecallMeans(cache: Cache, id: EventId)
    requires NoRepeats(Ids(cache))
    ensures Recall(cache, id).Some? <==> id in Ids(cache)
    ensures forall i :: 0 <= i < |cache| && cache[i].0 == id ==> Recall(cache, id) == Some(cache[i].1)
  {
    if cache != [] {
      var init := cache[..|cache| - 1];
      assert NoRepeats(Ids(init)) by {
        assert forall i :: 0 <= i < |init| ==> Ids(init)[i] == Ids(cache)[i];
      }
      RecallMeans(init, id);
      assert Ids(cache) == Ids(init) + [cache[|cache| - 1].0];
    }
  }

  lemma {:induction false} ForgetIds(cache: Cache, id: EventId)
    ensures Ids(Forget(cache, id)) == Remove(Ids(cache), id)
    ensures forall e :: e in Forget(cache, id) <==> e in cache && e.0 != id
  {
    if cache != [] {
      var init := cache[..|cache| - 1];
      ForgetIds(init, id);
      assert Ids(cache)[..|cache| - 1] == Ids(init);
      assert cache == init + [cache[|cache| - 1]];
    }
  }

  /** The answers given to a series of queries, and the cache after it. */
  datatype Run = Run(cache: Cache, answers: seq<bool>)

  function Answering(queries: seq<EventId>, evaluations: seq<bool>, size: nat): (r: Run)
    requires |queries| == |evaluations|
    ensures |r.answers| == |queries|
  {
    if queries == [] then Run([], [])
    else
      var last := |queries| - 1;
      var before := Answering(queries[..last], evaluations[..last], size);
      var (cache, answer) := Queried(before.cache, queries[last], evaluations[last], size);
      Run(cache, before.answers + [answer])
  }

  /** `k` is the latest query for `id`. */
  ghost predicate Latest(queries: seq<EventId>, id: EventId, k: nat) {
    k < |queries| && queries[k] == id && forall j :: k < j < |queries| ==> queries[j] != id
  }

  /** Every remembered answer is the one last given for its identifier. */
  ghost predicate Faithful(queries: seq<EventId>, r: Run) {
    |r.answers| == |queries| &&
    forall e, k: nat :: e in r.cache && Latest(queries, e.0, k) ==> e.1 == r.answers[k]
  }

  lemma {:induction false} KeptDistinct(s: seq<EventId>, size: nat)
    requires NoRepeats(s)
    ensures NoRepeats(LastN(s, size))
  {
    var kept := LastN(s, size);
    assert forall j :: 0 <= j < |kept| ==> kept[j] == s[|s| - |kept| + j];
  }

  lemma {:induction false} QueryKeepsIds(cache: Cache, recency: seq<EventId>, id: EventId, evaluated: bool, size: nat)
    requires size >= 1 && NoRepeats(recency) && Ids(cache) == LastN(recency, size)
    ensures Ids(Queried(cache, id, evaluated, size).0) == LastN(Remove(recency, id) + [id], size)
  {
    NewestMoved(recency, id, size);
    KeptDistinct(recency, size);
    RecallMeans(cache, id);
    ForgetIds(cache, id);
    hide Recall, Forget, Remove, NoRepeats, LastN;
    var next := Queried(cache, id, evaluated, size).0;
    if id in Ids(cache) {
      assert Ids(next) == Remove(Ids(cache), id) + [id];
    } else {
      assert Ids(cache + [(id, evaluated)]) == Ids(cache) + [id];
    }
  }

  /** Between reconfigurations the cache holds exactly the most recently queried identifiers,
      up to its size, and a query for one of them repeats the answer last given for it,
      whatever an evaluation would say by then. */
  lemma {:induction false} CacheIsRecent(queries: seq<EventId>, evaluations: seq<bool>, size: nat)
    requires size >= 1 && |queries| == |evaluations|
    ensures var r := Answering(queries, evaluations, size);
      Ids(r.cache) == LastN(ByRecency(queries), size) && Faithful(queries, r)
  {
    hide NoRepeats, Faithful, Queried, Remove, Ids;
    if queries != [] {
      var last := |queries| - 1;
      var init, id := queries[..last], queries[last];
      CacheIsRecent(init, evaluations[..last], size);
      RecencyDistinct(init);
      var before := Answering(init, evaluations[..last], size);
      QueryKeepsIds(before.cache, ByRecency(init), id, evaluations[last], size);
      AnswerFaithful(init, before, id, evaluations[last], size);
      assert queries == init + [id];
    } else {
      NothingCached(size);
    }
  }

  lemma {:induction false} NothingCached(size: nat)
    ensures Ids([]) == LastN([], size) && Faithful([], Run([], []))
  {
  }

  lemma {:induction false} AnswerFaithful(queries: seq<EventId>, r: Run, id: EventId, evaluated: bool, size: nat)
    requires Faithful(queries, r)
    ensures var (cache, answer) := Queried(r.cache, id, evaluated, size);
      Faithful(queries + [id], Run(cache, r.answers + [answer]))
  {
    var (cache, answer) := Queried(r.cache, id, evaluated, size);
    ForgetIds(r.cache, id);
    QueriedMembers(r.cache, id, evaluated, size);
    hide Queried, Forget;
    var queries', answers := queries + [id], r.answers + [answer];
    forall e, k: nat | e in cache && Latest(queries', e.0, k) ensures e.1 == answers[k] {
      if e.0 == id {
        assert queries'[|queries|] == id;
      } else {
        assert Latest(queries, e.0, k) by {
          assert forall j :: 0 <= j < |queries| ==> queries'[j] == queries[j];
        }
      }
    }
  }

  /** After a query the entries for other identifiers were there before, and the entry for
      this one is its answer. */
  lemma {:induction false} QueriedMembers(cache: Cache, id: EventId, evaluated: bool, size: nat)
    ensures var (next, answer) := Queried(cache, id, evaluated, size);
      forall e :: e in next ==> if e.0 == id then e.1 == answer else e in cache
  {
    ForgetIds(cache, id);
    RecallNone(cache, id);
    hide Forget, Recall;
  }

  lemma {:induction false} RecallNone(cache: Cache, id: EventId)
    ensures Recall(cache, id).None? ==> forall e :: e in cache ==> e.0 != id
  {
    if cache != [] {
      RecallNone(cache[..|cache| - 1], id);
      assert cache == cache[..|cache| - 1] + [cache[|cache| - 1]];
    }
  }

  /** The corollary for one query: a cached identifier gets its previous answer again. */
  lemma {:induction false} CachedAnswerRepeats(queries: seq<EventId>, evaluations: seq<bool>, size: nat, id: EventId, evaluated: bool, k: nat)
    requires size >= 1 && |queries| == |evaluations|
    requires id in LastN(ByRecency(queries), size) && Latest(queries, id, k)
    ensures var r := Answering(queries, evaluations, size);
      Queried(r.cache, id, evaluated, size).1 == r.answers[k]
  {
    CacheIsRecent(queries, evaluations, size);
    var r := Answering(queries, evaluations, size);
    RecallHas(r.cache, id);
    hide Recall, Answering, ByRecency;
    assert id in Ids(r.cache);
    var i :| 0 <= i < |r.cache| && Ids(r.cache)[i] == id;
    assert r.cache[i].0 == id;
  }

  lemma {:induction false} RecallHas(cache: Cache, id: EventId)
    ensures Recall(cache, id).Some? ==> (id, Recall(cache, id).value) in cache
    ensures (exists i :: 0 <= i < |cache| && cache[i].0 == id) ==> Recall(cache, id).Some?
  {
    if cache != [] {
      RecallHas(cache[..|cache| - 1], id);
      assert cache == cache[..|cache| - 1] + [cache[|cache| - 1]];
    }
  }

  // ------------------------------------------------------------------------ evaluation

  /** How the search for one pattern ends; the event's time budget may be gone before it. */
  datatype Outcome = NoBudget | Matched | Unmatched | TimedOut | Failed

  type Pattern = (World, nat)

  /** What is known about the patterns: timeouts so far, and which are no longer tried. */
  datatype Health = Health(timeouts: map<Pattern, nat>, reported: set<Pattern>, quarantined: set<Pattern>)

  function Timeouts(h: Health, p: Pattern): nat { if p in h.timeouts then h.timeouts[p] else 0 }

  /** Exactly the patterns that have timed out often enough are quarantined. */
  ghost predicate Consistent(h: Health) {
    forall p :: p in h.quarantined <==> Timeouts(h, p) >= QUARANTINE_THRESHOLD
  }

  function TimedOutOnce(h: Health, p: Pattern): Health {
    var count := Timeouts(h, p) + 1;
    Health(h.timeouts[p := count], h.reported + {p}, if count >= QUARANTINE_THRESHOLD then h.quarantined + {p} else h.quarantined)
  }

  /** The first pattern from `i` on that is tried and does not simply fail to match. */
  predicate Decides(h: Health, world: World, outcomes: seq<Outcome>, i: nat)
    requires i < |outcomes|
  {
    (world, i) !in h.quarantined && !outcomes[i].Unmatched?
  }

  ghost predicate FirstDeciding(h: Health, world: World, outcomes: seq<Outcome>, i: nat) {
    i < |outcomes| && Decides(h, world, outcomes, i) && forall j :: 0 <= j < i ==> !Decides(h, world, outcomes, j)
  }

  /** What the deciding pattern leaves behind: a timeout is counted, a spent budget and a
      failed search are only reported, a match leaves nothing. */
  function HealthAfter(h: Health, p: Pattern, outcome: Outcome): Health {
    match outcome
    case TimedOut => TimedOutOnce(h, p)
    case NoBudget => h.(reported := h.reported + {p})
    case Failed => h.(reported := h.reported + {p})
    case _ => h
  }

  /** A pattern is quarantined by exactly its third timeout. */
  lemma {:induction false} ThirdTimeoutQuarantines(h: Health, p: Pattern)
    requires Consistent(h) && Timeouts(h, p) == 0
    ensures var (h1, h2) := (TimedOutOnce(h, p), TimedOutOnce(TimedOutOnce(h, p), p));
      p !in h1.quarantined && p !in h2.quarantined && p in TimedOutOnce(h2, p).quarantined
    ensures forall q :: q != p ==> (q in TimedOutOnce(h, p).quarantined <==> q in h.quarantined)
  {
    var h1 := TimedOutOnce(h, p);
    var h2 := TimedOutOnce(h1, p);
    assert Timeouts(h1, p) == 1 && Timeouts(h2, p) == 2;
  }

  /** What is asked about: an event with its searchable text length, if it has one. */
  datatype Event = Event(id: EventId, inbound: bool, world: World, textLength: Option<nat>)

  /** Only inbound text of bounded length in a world with patterns is searched. */
  predicate Searched(e: Event, patterns: map<World, nat>) {
    e.inbound && e.world in patterns && e.textLength.Some? && e.textLength.value <= MAX_INPUT
  }

  class Policy {
    const size: nat
    var patterns: map<World, nat>      // how many patterns each world has
    var health: Health
    var decisions: Cache
    ghost var queries: seq<EventId>
    ghost var evaluations: seq<bool>
    ghost var answers: seq<bool>

    /** The cache is what the queries since the last reconfiguration make it. */
    ghost predicate Valid()
      reads this
    {
      && size >= 1 && |queries| == |evaluations|
      && Answering(queries, evaluations, size) == Run(decisions, answers)
      && Consistent(health)
    }

    constructor (patterns: map<World, nat>)
      ensures Valid() && size == 50_000 && this.patterns == patterns && health == Health(map[], {}, {}) && queries == [] && decisions == []
    {
      size, this.patterns := CACHE_SIZE, patterns;
      health := Health(map[], {}, {});
      decisions, queries, evaluations, answers := [], [], [], [];
    }

    method ReplaceConfiguration(patterns: map<World, nat>)
      requires Valid()
      modifies this
      ensures Valid() && this.patterns == patterns && decisions == [] && queries == [] && health == Health(map[], {}, {})
    {
      this.patterns := patterns;
      health := Health(map[], {}, {});
      decisions, queries, evaluations, answers := [], [], [], [];
    }

    /** `allows`: a remembered decision, or a fresh one that is then remembered. */
    method Allows(e: Event, outcomes: seq<Outcome>) returns (allowed: bool)
      requires Valid() && (e.world in patterns ==> |outcomes| == patterns[e.world])
      modifies this
      ensures Valid()
      ensures queries == old(queries) + [e.id] && answers == old(answers) + [allowed]
      ensures Ids(decisions) == LastN(ByRecency(queries), size)
      ensures e.id in LastN(ByRecency(old(queries)), size) ==>
        health == old(health) && forall k: nat :: Latest(old(queries), e.id, k) ==> allowed == old(answers)[k]
    {
      hide Ids, ByRecency, Latest, Consistent, Queried, Answering, Recall, LastN, Faithful, Searched, FirstDeciding, HealthAfter;
      CacheIsRecent(queries, evaluations, size);
      var cached := Recall(decisions, e.id);
      CachedWhen(queries, evaluations, size, e.id);
      var evaluated := true;
      if cached.Some? {
        allowed := cached.value;
      } else {
        evaluated := Evaluate(e, outcomes);
        allowed := evaluated;
      }
      QueriedAnswers(decisions, e.id, evaluated, size);
      AnsweringSnoc(queries, evaluations, e.id, evaluated, size);
      decisions := Queried(decisions, e.id, evaluated, size).0;
      queries, evaluations, answers := queries + [e.id], evaluations + [evaluated], answers + [allowed];
      CacheIsRecent(queries, evaluations, size);
    }

    /** `_evaluate`: only a match of the first deciding pattern denies; a timeout counts
        against its pattern and quarantines it at the threshold; everything else allows. */
    method Evaluate(e: Event, outcomes: seq<Outcome>) returns (allowed: bool)
      requires Consistent(health) && (e.world in patterns ==> |outcomes| == patterns[e.world])
      modifies this`health
      ensures Consistent(health)
      ensures !allowed <==>
        && e.inbound && e.world in patterns && e.textLength.Some? && e.textLength.value <= 16_384
        && exists i: nat :: i < |outcomes| && outcomes[i].Matched? && (e.world, i) !in old(health).quarantined
             && forall j: nat :: j < i ==> (e.world, j) in old(health).quarantined || outcomes[j].Unmatched?
      ensures forall i: nat :: Searched(e, patterns) && FirstDeciding(old(health), e.world, outcomes, i) ==>
        health == HealthAfter(old(health), (e.world, i), outcomes[i])
      ensures !(Searched(e, patterns) && exists i: nat :: FirstDeciding(old(health), e.world, outcomes, i)) ==> health == old(health)
    {
      if !Searched(e, patterns) {
        return true;
      }
      forall i: nat ensures FirstDeciding(health, e.world, outcomes, i) <==>
        && i < |outcomes| && !outcomes[i].Unmatched? && (e.world, i) !in health.quarantined
        && forall j: nat :: j < i ==> (e.world, j) in health.quarantined || outcomes[j].Unmatched?
      {
        MatchDecides(health, e.world, outcomes, i);
      }
      for i := 0 to |outcomes|
        invariant health == old(health)
        invariant forall j :: 0 <= j < i ==> !Decides(health, e.world, outcomes, j)
      {
        var p := (e.world, i);
        if p !in health.quarantined && !outcomes[i].Unmatched? {
          assert FirstDeciding(health, e.world, outcomes, i);
          if outcomes[i].Matched? {
            return false;
          }
          if outcomes[i].TimedOut? {
            health := TimedOutOnce(health, p);
          } else {
            health := health.(reported := health.reported + {p});
          }
          return true;
        }
      }
      return true;
    }
  }

  /** The first deciding pattern, spelled out. */
  lemma {:induction false} MatchDecides(h: Health, world: World, outcomes: seq<Outcome>, i: nat)
    ensures FirstDeciding(h, world, outcomes, i) <==>
      && i < |outcomes| && !outcomes[i].Unmatched? && (world, i) !in h.quarantined
      && forall j: nat :: j < i ==> (world, j) in h.quarantined || outcomes[j].Unmatched?
  {
    if FirstDeciding(h, world, outcomes, i) {
      forall j: nat | j < i ensures (world, j) in h.quarantined || outcomes[j].Unmatched? {
        assert !Decides(h, world, outcomes, j);
      }
    }
  }

  /** What a decision leaves behind: a timeout counts and reports its pattern and quarantines it
      from the third on; a spent budget or a failed search reports it; a match leaves nothing. */
  lemma {:induction false} OutcomeLeaves(h: Health, p: Pattern, outcome: Outcome)
    ensures var next := HealthAfter(h, p, outcome);
      && (outcome.TimedOut? ==>
            && Timeouts(next, p) == Timeouts(h, p) + 1 && next.reported == h.reported + {p}
            && next.quarantined == if Timeouts(h, p) + 1 >= 3 then h.quarantined + {p} else h.quarantined)
      && (forall q :: q != p ==> Timeouts(next, q) == Timeouts(h, q))
      && (outcome.NoBudget? || outcome.Failed? ==>
            next.reported == h.reported + {p} && next.timeouts == h.timeouts && next.quarantined == h.quarantined)
      && (outcome.Matched? ==> next == h)
    ensures Timeouts(h, p) == if p in h.timeouts then h.timeouts[p] else 0
  {
  }

  lemma {:induction false} CachedWhen(queries: seq<EventId>, evaluations: seq<bool>, size: nat, id: EventId)
    requires size >= 1 && |queries| == |evaluations|
    ensures var r := Answering(queries, evaluations, size);
      && (id in LastN(ByRecency(queries), size) ==> Recall(r.cache, id).Some?)
      && forall k: nat :: id in LastN(ByRecency(queries), size) && Latest(queries, id, k) ==> Recall(r.cache, id) == Some(r.answers[k])
  {
    CacheIsRecent(queries, evaluations, size);
    var r := Answering(queries, evaluations, size);
    RecallHas(r.cache, id);
    hide Recall, Answering, ByRecency;
    if id in LastN(ByRecency(queries), size) {
      assert id in Ids(r.cache);
      var i :| 0 <= i < |r.cache| && Ids(r.cache)[i] == id;
      assert r.cache[i].0 == id;
    }
  }

  lemma {:induction false} QueriedAnswers(cache: Cache, id: EventId, evaluated: bool, size: nat)
    ensures Queried(cache, id, evaluated, size).1 == if Recall(cache, id).Some? then Recall(cache, id).value else evaluated
  {
  }

  lemma {:induction false} AnsweringSnoc(queries: seq<EventId>, evaluations: seq<bool>, id: EventId, evaluated: bool, size: nat)
    requires |queries| == |evaluations|
    ensures var r := Answering(queries, evaluations, size);
      var (cache, answer) := Queried(r.cache, id, evaluated, size);
      Answering(queries + [id], evaluations + [evaluated], size) == Run(cache, r.answers + [answer])
  {
    assert (queries + [id])[..|queries|] == queries && (evaluations + [evaluated])[..|queries|] == evaluations;
    hide Queried;
  }
}
