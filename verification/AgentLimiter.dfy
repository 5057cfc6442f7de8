/** The rate limit and cooldown of agent turns over whole runs (`AgentController._turn` in
    `src/tfr/agents.py`). Times are readings of one monotonic clock. */
module AgentLimiter {

  const WINDOW: real := 60.0

  datatype Verdict = Accepted | RateLimited | Cooldown

  /** The times still remembered: those less than a minute old. */
  function Recent(times: seq<real>, now: real): seq<real> {
    if times == [] || times[0] > now - WINDOW then times else Recent(times[1..], now)
  }

  function Judge(times: seq<real>, now: real, maximum: nat, minimum: real): Verdict {
    var recent := Recent(times, now);
    if |recent| >= maximum then RateLimited
    else if recent != [] && now - recent[|recent| - 1] < minimum then Cooldown
    else Accepted
  }

  /** What is remembered after one attempt. */
  function Remembered(times: seq<real>, now: real, maximum: nat, minimum: real): seq<real> {
    if Judge(times, now, maximum, minimum).Accepted? then Recent(times, now) + [now] else Recent(times, now)
  }

  ghost predicate Ordered(s: seq<real>) { forall i, j :: 0 <= i < j < |s| ==> s[i] <= s[j] }

  /** The limiter object. */
  class Limiter {
    const maximum: nat
    const minimum: real
    var requestTimes: seq<real>

    constructor (maximum: nat, minimum: real)
      ensures this.maximum == maximum && this.minimum == minimum && requestTimes == []
    {
      this.maximum, this.minimum := maximum, minimum;
      requestTimes := [];
    }

    /** One connected, unpaused turn at time `now`. */
    method Attempt(now: real) returns (verdict: Verdict)
      modifies this
      ensures verdict == Judge(old(requestTimes), now, maximum, minimum)
      ensures requestTimes == Remembered(old(requestTimes), now, maximum, minimum)
    {
      while requestTimes != [] && requestTimes[0] <= now - WINDOW
        invariant Recent(requestTimes, now) == Recent(old(requestTimes), now)
        decreases |requestTimes|
      {
        requestTimes := requestTimes[1..];
      }
      if |requestTimes| >= maximum {
        return RateLimited;
      }
      if requestTimes != [] && now - requestTimes[|requestTimes| - 1] < minimum {
        return Cooldown;
      }
      requestTimes := requestTimes + [now];
      return Accepted;
    }
  }

  // ---------------------------------------------------------------------- whole runs

  /** All accepted times and what is remembered of them. */
  datatype Run = Run(accepted: seq<real>, remembered: seq<real>)

  function Stepped(r: Run, now: real, maximum: nat, minimum: real): Run {
    Run(if Judge(r.remembered, now, maximum, minimum).Accepted? then r.accepted + [now] else r.accepted,
        Remembered(r.remembered, now, maximum, minimum))
  }

  function After(attempts: seq<real>, maximum: nat, minimum: real): Run {
    if attempts == [] then Run([], [])
    else Stepped(After(attempts[..|attempts| - 1], maximum, minimum), attempts[|attempts| - 1], maximum, minimum)
  }

  function Least(a: real, b: real): real { if a <= b then a else b }

  /** Any `maximum` requests further on, a minute has passed. */
  ghost predicate Spaced(accepted: seq<real>, maximum: nat) {
    forall i, j :: 0 <= i && j == i + maximum && j < |accepted| ==> accepted[j] - accepted[i] >= WINDOW
  }

  ghost predicate Gapped(accepted: seq<real>, gap: real) {
    forall i, j :: 0 <= i && j == i + 1 && j < |accepted| ==> accepted[j] - accepted[i] >= gap
  }

  /** The remembered times are a suffix of the accepted ones; what was forgotten is a minute old. */
  ghost predicate Inv(r: Run, now: real) {
    var forgotten := |r.accepted| - |r.remembered|;
    && Ordered(r.accepted)
    && forgotten >= 0 && r.remembered == r.accepted[forgotten..]
    && (forall i :: 0 <= i < |r.accepted| ==> r.accepted[i] <= now)
    && (forall i :: 0 <= i < forgotten ==> r.accepted[i] <= now - WINDOW)
  }

  lemma {:induction false} RecentIsSuffix(times: seq<real>, now: real)
    requires Ordered(times)
    ensures var recent := Recent(times, now);
      && |recent| <= |times| && recent == times[|times| - |recent|..]
      && (forall i :: 0 <= i < |times| - |recent| ==> times[i] <= now - WINDOW)
  {
    if times != [] && times[0] <= now - WINDOW {
      var rest := times[1..];
      RecentIsSuffix(rest, now);
      hide Recent;
      var recent := Recent(rest, now);
      assert times[|times| - |recent|..] == rest[|rest| - |recent|..];
      forall i | 0 <= i < |times| - |recent| ensures times[i] <= now - WINDOW {
        assert i > 0 ==> times[i] == rest[i - 1];
      }
    }
  }

  /** Forgetting keeps the invariant at a later time. */
  lemma {:induction false} ForgettingKeeps(r: Run, before: real, now: real)
    requires Inv(r, before) && before <= now
    ensures Inv(r.(remembered := Recent(r.remembered, now)), now)
  {
    hide Recent;
    var forgotten := |r.accepted| - |r.remembered|;
    SuffixOrdered(r.accepted, forgotten);
    RecentIsSuffix(r.remembered, now);
    hide Ordered;
    var recent := Recent(r.remembered, now);
    var more := |r.remembered| - |recent|;
    assert r.accepted[forgotten..][more..] == r.accepted[forgotten + more..];
    forall i | forgotten <= i < forgotten + more ensures r.accepted[i] <= now - WINDOW {
      assert r.accepted[i] == r.remembered[i - forgotten];
    }
  }

  lemma {:induction false} SuffixOrdered(s: seq<real>, n: nat)
    requires Ordered(s) && n <= |s|
    ensures Ordered(s[n..])
  {
  }

  lemma {:induction false} SpacedSnoc(accepted: seq<real>, now: real, maximum: nat)
    requires maximum >= 1 && Spaced(accepted, maximum)
    requires |accepted| >= maximum ==> now - accepted[|accepted| - maximum] >= WINDOW
    ensures Spaced(accepted + [now], maximum)
  {
  }

  lemma {:induction false} GappedSnoc(accepted: seq<real>, now: real, gap: real)
    requires Gapped(accepted, gap)
    requires accepted != [] ==> now - accepted[|accepted| - 1] >= gap
    ensures Gapped(accepted + [now], gap)
  {
  }

  lemma {:induction false} InvSnoc(r: Run, now: real)
    requires Inv(r, now)
    ensures Inv(Run(r.accepted + [now], r.remembered + [now]), now)
  {
    var forgotten := |r.accepted| - |r.remembered|;
    assert (r.accepted + [now])[forgotten..] == r.accepted[forgotten..] + [now];
  }

  /** The newest remembered time is the newest accepted one. */
  lemma {:induction false} LastRemembered(r: Run, now: real, maximum: nat)
    requires Inv(r, now) && |r.remembered| < maximum
    ensures r.remembered != [] ==> r.remembered[|r.remembered| - 1] == r.accepted[|r.accepted| - 1]
    ensures r.remembered == [] && r.accepted != [] ==> now - r.accepted[|r.accepted| - 1] >= WINDOW
    ensures |r.accepted| >= maximum ==> now - r.accepted[|r.accepted| - maximum] >= WINDOW
  {
  }

  lemma {:induction false} StepKeeps(r: Run, before: real, now: real, maximum: nat, minimum: real)
    requires maximum >= 1 && Inv(r, before) && before <= now
    requires Spaced(r.accepted, maximum) && Gapped(r.accepted, Least(minimum, WINDOW))
    ensures var next := Stepped(r, now, maximum, minimum);
      Inv(next, now) && Spaced(next.accepted, maximum) && Gapped(next.accepted, Least(minimum, WINDOW))
  {
    ForgettingKeeps(r, before, now);
    hide Recent, Inv, Spaced, Gapped;
    var kept := r.(remembered := Recent(r.remembered, now));
    if Judge(r.remembered, now, maximum, minimum).Accepted? {
      LastRemembered(kept, now, maximum);
      SpacedSnoc(r.accepted, now, maximum);
      GappedSnoc(r.accepted, now, Least(minimum, WINDOW));
      InvSnoc(kept, now);
    }
  }

  lemma {:induction false} RunKeeps(attempts: seq<real>, maximum: nat, minimum: real)
    requires maximum >= 1 && Ordered(attempts)
    ensures var r := After(attempts, maximum, minimum);
      && (attempts != [] ==> Inv(r, attempts[|attempts| - 1]))
      && Spaced(r.accepted, maximum) && Gapped(r.accepted, Least(minimum, WINDOW))
  {
    if attempts != [] {
      var init, now := attempts[..|attempts| - 1], attempts[|attempts| - 1];
      RunKeeps(init, maximum, minimum);
      var r := After(init, maximum, minimum);
      var before := if init == [] then now else init[|init| - 1];
      assert Inv(r, before) && before <= now;
      hide Inv, Spaced, Gapped, Stepped, Ordered;
      StepKeeps(r, before, now, maximum, minimum);
    }
  }

  // -------------------------------------------------------------------- what a user sees

  /** The accepted requests in the minute that ends at `t`. */
  function InWindow(s: seq<real>, t: real): nat {
    if s == [] then 0 else InWindow(s[..|s| - 1], t) + if t - WINDOW < s[|s| - 1] <= t then 1 else 0
  }

  lemma {:induction false} OldNotCounted(s: seq<real>, t: real, k: nat)
    requires k <= |s| && forall i :: 0 <= i < k ==> s[i] <= t - WINDOW
    ensures InWindow(s, t) <= |s| - k
  {
    if s != [] {
      OldNotCounted(s[..|s| - 1], t, if k == |s| then k - 1 else k);
    }
  }

  lemma {:induction false} SpacedWindow(s: seq<real>, t: real, maximum: nat)
    requires Ordered(s) && Spaced(s, maximum)
    ensures InWindow(s, t) <= maximum
  {
    if s != [] {
      var last := |s| - 1;
      if s[last] <= t && |s| > maximum {
        forall i | 0 <= i < |s| - maximum ensures s[i] <= t - WINDOW {
          assert s[i + maximum] - s[i] >= WINDOW && s[i + maximum] <= s[last];
        }
        OldNotCounted(s, t, |s| - maximum);
      } else if s[last] > t {
        SpacedWindow(s[..last], t, maximum);
      } else {
        OldNotCounted(s, t, 0);
      }
    }
  }

  /** Over any run with a clock that never goes back, although old times are discarded: no
      minute holds more than the permitted number of requests, and consecutive requests are
      at least the cooldown apart, or a minute if the cooldown is longer. */
  lemma {:induction false} RateLimitHolds(attempts: seq<real>, maximum: nat, minimum: real, t: real)
    requires maximum >= 1 && Ordered(attempts)
    ensures var accepted := After(attempts, maximum, minimum).accepted;
      InWindow(accepted, t) <= maximum && Gapped(accepted, Least(minimum, WINDOW))
  {
    RunKeeps(attempts, maximum, minimum);
    hide Spaced, Gapped, InWindow;
    SpacedWindow(After(attempts, maximum, minimum).accepted, t, maximum);
  }

  /** The cooldown itself is kept by all runs exactly when it is at most a minute: a longer
      one is forgotten after sixty seconds. */
  lemma {:induction false} CooldownExact(maximum: nat, minimum: real)
    requires maximum >= 1
    ensures (forall attempts: seq<real> :: Ordered(attempts) ==> Gapped(After(attempts, maximum, minimum).accepted, minimum)) <==>
      minimum <= WINDOW
  {
    if minimum <= WINDOW {
      forall attempts: seq<real> | Ordered(attempts) ensures Gapped(After(attempts, maximum, minimum).accepted, minimum) {
        RunKeeps(attempts, maximum, minimum);
      }
    } else {
      TwoAttempts(maximum, minimum);
      assert !Gapped([0.0, 60.0], minimum) by {
        assert [0.0, 60.0][1] - [0.0, 60.0][0] < minimum;
      }
      assert Ordered([0.0, 60.0]);
    }
  }

  lemma {:induction false} TwoAttempts(maximum: nat, minimum: real)
    requires maximum >= 1
    ensures After([0.0, 60.0], maximum, minimum).accepted == [0.0, 60.0]
  {
    assert [0.0, 60.0][..1] == [0.0] && [0.0][..0] == [];
    assert After([], maximum, minimum) == Run([], []);
    assert After([0.0], maximum, minimum) == Run([0.0], [0.0]);
    assert Recent([0.0], 60.0) == [];
  }

  lemma {:induction false} AllCounted(s: seq<real>, t: real, k: nat)
    requires k <= |s| && Ordered(s)
    requires forall i :: 0 <= i < k ==> s[i] <= t - WINDOW
    requires forall i :: k <= i < |s| ==> t - WINDOW < s[i] <= t
    ensures InWindow(s, t) == |s| - k
  {
    if s != [] {
      AllCounted(s[..|s| - 1], t, if k == |s| then k - 1 else k);
    }
  }

  /** What is remembered at `now` are the accepted times of the last minute. */
  lemma {:induction false} RememberedAreRecent(r: Run, before: real, now: real)
    requires Inv(r, before) && before <= now
    ensures var recent := Recent(r.remembered, now);
      && |recent| == InWindow(r.accepted, now)
      && (recent == [] <==> r.accepted == [] || now - r.accepted[|r.accepted| - 1] >= 60.0)
      && (recent != [] ==> recent[|recent| - 1] == r.accepted[|r.accepted| - 1])
  {
    ForgettingKeeps(r, before, now);
    var recent := Recent(r.remembered, now);
    var k := |r.accepted| - |recent|;
    RecentAreNew(r.remembered, now);
    hide Recent, InWindow;
    forall i | k <= i < |r.accepted| ensures now - WINDOW < r.accepted[i] <= now {
      assert r.accepted[i] == recent[i - k];
    }
    AllCounted(r.accepted, now, k);
  }

  lemma {:induction false} RecentAreNew(times: seq<real>, now: real)
    requires Ordered(times)
    ensures forall i :: 0 <= i < |Recent(times, now)| ==> Recent(times, now)[i] > now - WINDOW
  {
    if times != [] && times[0] <= now - WINDOW {
      RecentAreNew(times[1..], now);
    }
  }

  lemma {:induction false} StepAccepts(r: Run, before: real, now: real, maximum: nat, minimum: real)
    requires Inv(r, before) && before <= now
    ensures Stepped(r, now, maximum, minimum).accepted ==
      if InWindow(r.accepted, now) < maximum
         && (r.accepted == [] || now - r.accepted[|r.accepted| - 1] >= minimum || now - r.accepted[|r.accepted| - 1] >= 60.0)
      then r.accepted + [now] else r.accepted
  {
    RememberedAreRecent(r, before, now);
    hide Recent, InWindow, Ordered;
  }

  lemma {:induction false} OrderedInit(s: seq<real>, x: real)
    requires Ordered(s + [x])
    ensures Ordered(s) && (s != [] ==> s[|s| - 1] <= x)
  {
    var all := s + [x];
    assert forall i :: 0 <= i < |s| ==> s[i] == all[i];
    assert all[|s|] == x;
  }

  /** Over any run, a request is accepted exactly when fewer than the permitted number were
      accepted in the last minute, and the last one was at least the cooldown, or a minute, ago. */
  lemma {:induction false} AcceptedIff(attempts: seq<real>, now: real, maximum: nat, minimum: real)
    requires maximum >= 1 && Ordered(attempts + [now])
    ensures var before := After(attempts, maximum, minimum).accepted;
      After(attempts + [now], maximum, minimum).accepted ==
        if InWindow(before, now) < maximum
           && (before == [] || now - before[|before| - 1] >= minimum || now - before[|before| - 1] >= 60.0)
        then before + [now] else before
  {
    hide Stepped, Inv, Ordered, Spaced, Gapped, InWindow;
    assert (attempts + [now])[..|attempts|] == attempts;
    OrderedInit(attempts, now);
    RunKeeps(attempts, maximum, minimum);
    var r := After(attempts, maximum, minimum);
    NothingAccepted(now);
    StepAccepts(r, if attempts == [] then now else attempts[|attempts| - 1], now, maximum, minimum);
  }

  lemma {:induction false} NothingAccepted(now: real)
    ensures Inv(Run([], []), now)
  {
  }
}
