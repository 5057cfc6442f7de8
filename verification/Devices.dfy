/** Web device pairing: single-use codes, retried redemptions, failing saves. */
module Devices {
  import opened Wrappers

  // `DeviceStore` in `src/tfr/gateway_devices.py`. Digests are taken to be injective, so codes and
  // tokens stand for their digests. Times are seconds.

  type Code(==, !new)
  type Token(==, !new)
  type DeviceId(==, !new)
  type UiId(==, !new)
  type Login(==, !new)
  type Label(==, !new)
  type World(==, !new)

  const PAIRING_TTL: real := 600.0
  const LIFETIME: real := 15_552_000.0      // 180 days
  const ACTIVITY_INTERVAL: real := 86_400.0 // one day

  datatype Device = Device(id: DeviceId, ui: UiId, title: Label, created: real, lastUsed: real, expires: real,
                           worlds: seq<World>, login: Login)
  {
    /** The times of a device as this program writes them. */
    ghost predicate Sane() { created <= lastUsed && expires == lastUsed + LIFETIME }

    /** What never changes about a device. */
    ghost predicate SameAs(d: Device) {
      id == d.id && ui == d.ui && title == d.title && created == d.created && worlds == d.worlds && login == d.login
    }
  }

  datatype Challenge = Challenge(title: Label, expires: real, worlds: seq<World>)

  datatype Redeemed = Redeemed(device: Device, token: Token, login: Login, expires: real)

  /** Memory and disk. */
  datatype State = State(devices: map<Token, Device>, pairings: map<Code, Challenge>, redeemed: map<Code, Redeemed>,
                         disk: map<Token, Device>)

  datatype Error = BadLabel | NoWorlds | InvalidCode | SaveFailed

  /** The random values one call draws. */
  datatype Drawn = Drawn(token: Token, id: DeviceId, ui: UiId)

  /** `dict.fromkeys`: the first of equal worlds. */
  function Distinct(worlds: seq<World>): seq<World> {
    if worlds == [] then []
    else
      var before, last := Distinct(worlds[..|worlds| - 1]), worlds[|worlds| - 1];
      if last in before then before else before + [last]
  }

  // ------------------------------------------------------------------------- operations

  /** `create_pairing_url` after its checks: drop what has expired and add a challenge. */
  function Offered(s: State, code: Code, title: Label, worlds: seq<World>, now: real): State {
    var pairings := map c | c in s.pairings && s.pairings[c].expires > now :: s.pairings[c];
    s.(pairings := pairings[code := Challenge(title, now + PAIRING_TTL, Distinct(worlds))],
       redeemed := map c | c in s.redeemed && s.redeemed[c].expires > now :: s.redeemed[c])
  }

  function NewDevice(challenge: Challenge, login: Login, drawn: Drawn, now: real): Device {
    Device(drawn.id, drawn.ui, challenge.title, now, now, now + LIFETIME, challenge.worlds, login)
  }

  /** A code waiting for a device, after an expired redemption is cleared. */
  function Cleared(s: State, code: Code, now: real): State {
    if code in s.redeemed && s.redeemed[code].expires <= now then s.(redeemed := s.redeemed - {code}) else s
  }

  /** `redeem`: a retry gets the same device; a first use issues one, if it can be saved. */
  function Redeem(s: State, code: Code, login: Login, drawn: Drawn, now: real, saves: bool): (State, Result<(Device, Token), Error>) {
    var t := Cleared(s, code, now);
    if code in t.redeemed then
      var r := t.redeemed[code];
      (t, if r.login != login then Failure(InvalidCode) else Success((r.device, r.token)))
    else if code !in t.pairings then (t, Failure(InvalidCode))
    else
      var challenge := t.pairings[code];
      var popped := t.(pairings := t.pairings - {code});
      if challenge.expires <= now then (popped, Failure(InvalidCode))
      else
        var device := NewDevice(challenge, login, drawn, now);
        if !saves then (t.(devices := t.devices - {drawn.token}), Failure(SaveFailed))
        else
          var devices := t.devices[drawn.token := device];
          (popped.(devices := devices, disk := devices,
                   redeemed := t.redeemed[code := Redeemed(device, drawn.token, login, challenge.expires)]),
           Success((device, drawn.token)))
  }

  predicate Holds(devices: map<Token, Device>, t: Token, id: DeviceId) { t in devices && devices[t].id == id }

  ghost function Find(devices: map<Token, Device>, id: DeviceId): (r: Option<Token>)
    ensures r.None? ==> forall t :: !Holds(devices, t, id)
    ensures r.Some? ==> Holds(devices, r.value, id)
  {
    if exists t :: Holds(devices, t, id) then
      var t :| Holds(devices, t, id);
      Some(t)
    else None
  }

  function Used(d: Device, now: real): Device { d.(lastUsed := now, expires := now + LIFETIME) }

  /** `mark_used` on a known device. */
  function Mark(s: State, t: Token, now: real, saves: bool): (State, Result<(Option<Device>, bool), Error>)
    requires t in s.devices
  {
    var d := s.devices[t];
    if d.expires <= now then (s, Success((None, false)))
    else if now - d.lastUsed < ACTIVITY_INTERVAL then (s, Success((Some(d), false)))
    else if !saves then (s, Failure(SaveFailed))
    else
      var devices := s.devices[t := Used(d, now)];
      (s.(devices := devices, disk := devices), Success((Some(Used(d, now)), true)))
  }

  /** `revoke` on a known device: it and every redemption that returned it go. */
  function Revoke(s: State, t: Token, saves: bool): (State, Result<bool, Error>)
    requires t in s.devices
  {
    if !saves then (s, Failure(SaveFailed))
    else
      var id := s.devices[t].id;
      (s.(devices := s.devices - {t}, disk := s.devices - {t},
          redeemed := map c | c in s.redeemed && s.redeemed[c].device.id != id :: s.redeemed[c]),
       Success(true))
  }

  // ------------------------------------------------------------------------------- runs

  datatype Step =
    | OfferCode(code: Code, title: Label, worlds: seq<World>, now: real)
    | RedeemCode(code: Code, login: Login, drawn: Drawn, now: real, saves: bool)
    | MarkUsed(id: DeviceId, now: real, saves: bool)
    | RevokeDevice(id: DeviceId, saves: bool)
    | Expire(code: Code, now: real)   // the timer of a redemption fires

  /** The devices issued so far, by code; codes, tokens and identifiers drawn so far. */
  datatype Past = Past(issued: map<Code, Redeemed>, codes: set<Code>, tokens: set<Token>, ids: set<DeviceId>)

  /** Random values are never drawn twice; a timer fires no earlier than its time. */
  predicate Enabled(s: State, p: Past, step: Step) {
    match step
    case OfferCode(code, _, _, _) => code !in p.codes
    case RedeemCode(_, _, drawn, _, _) => drawn.token !in p.tokens && drawn.id !in p.ids
    case Expire(code, now) => code in s.redeemed ==> s.redeemed[code].expires <= now
    case _ => true
  }

  ghost function Next(s: State, step: Step): State {
    match step
    case OfferCode(code, title, worlds, now) => Offered(s, code, title, worlds, now)
    case RedeemCode(code, login, drawn, now, saves) => Redeem(s, code, login, drawn, now, saves).0
    case MarkUsed(id, now, saves) =>
      var t := Find(s.devices, id);
      if t.None? then s else Mark(s, t.value, now, saves).0
    case RevokeDevice(id, saves) =>
      var t := Find(s.devices, id);
      if t.None? then s else Revoke(s, t.value, saves).0
    case Expire(code, now) => s.(redeemed := s.redeemed - {code})
  }

  /** A redemption that issued a device in this step. */
  ghost predicate Issues(s: State, step: Step) {
    step.RedeemCode? && step.code !in Cleared(s, step.code, step.now).redeemed
    && Redeem(s, step.code, step.login, step.drawn, step.now, step.saves).1.Success?
  }

  ghost function After(s: State, p: Past, step: Step): Past {
    match step
    case OfferCode(code, _, _, _) => p.(codes := p.codes + {code})
    case RedeemCode(code, login, drawn, now, saves) =>
      var noted := p.(tokens := p.tokens + {drawn.token}, ids := p.ids + {drawn.id});
      if Issues(s, step) then noted.(issued := p.issued[code := Next(s, step).redeemed[code]]) else noted
    case _ => p
  }

  /** Memory is what is on disk, and tokens and identifiers name one device each. */
  ghost predicate DevicesInv(s: State, p: Past) {
    && s.disk == s.devices
    && (forall t :: t in s.devices ==> t in p.tokens && s.devices[t].id in p.ids)
    && UniqueIds(s.devices)
  }

  ghost predicate UniqueIds(devices: map<Token, Device>) {
    forall t, u :: t in devices && u in devices && devices[t].id == devices[u].id ==> t == u
  }

  /** A code is offered or has issued its device, never both, and a remembered redemption is
      the one that issued. */
  ghost predicate CodesInv(s: State, p: Past) {
    && (forall c :: c in s.pairings ==> c in p.codes && c !in p.issued)
    && (forall c :: c in p.issued ==> c in p.codes && p.issued[c].device.login == p.issued[c].login)
    && (forall c :: c in s.redeemed ==> c in p.issued && s.redeemed[c] == p.issued[c])
  }

  ghost predicate Inv(s: State, p: Past) { DevicesInv(s, p) && CodesInv(s, p) }

  /** All a redemption can do to the devices: add the drawn one, saved, or make sure that an
      unsaved one is not there. */
  lemma {:induction false} RedeemOnDevices(s: State, step: Step)
    requires step.RedeemCode?
    ensures var (next, token) := (Next(s, step), step.drawn.token);
      || (next.devices == s.devices && next.disk == s.disk)
      || (next.devices == s.devices - {token} && next.disk == s.disk)
      || (step.code in s.pairings && next.disk == next.devices
          && next.devices == s.devices[token := NewDevice(s.pairings[step.code], step.login, step.drawn, step.now)])
  {
    hide NewDevice;
    var t := Cleared(s, step.code, step.now);
    assert t.devices == s.devices && t.pairings == s.pairings && t.disk == s.disk;
    hide Cleared;
  }

  lemma {:induction false} DevicesKeepOnRedeem(s: State, p: Past, step: Step)
    requires DevicesInv(s, p) && Enabled(s, p, step) && step.RedeemCode?
    ensures DevicesInv(Next(s, step), After(s, p, step))
  {
    hide Distinct, Next, Issues;
    RedeemOnDevices(s, step);
  }

  lemma {:induction false} DevicesKeepOnMark(s: State, p: Past, step: Step)
    requires DevicesInv(s, p) && Enabled(s, p, step) && step.MarkUsed?
    ensures DevicesInv(Next(s, step), After(s, p, step))
  {
    hide Distinct;
  }

  lemma {:induction false} DevicesKeepOnRevoke(s: State, p: Past, step: Step)
    requires DevicesInv(s, p) && Enabled(s, p, step) && step.RevokeDevice?
    ensures DevicesInv(Next(s, step), After(s, p, step))
  {
    hide Distinct;
  }

  lemma {:induction false} DevicesKeepOnOffer(s: State, p: Past, step: Step)
    requires DevicesInv(s, p) && Enabled(s, p, step) && (step.OfferCode? || step.Expire?)
    ensures DevicesInv(Next(s, step), After(s, p, step))
  {
    hide Distinct;
  }

  lemma {:induction false} DevicesKeep(s: State, p: Past, step: Step)
    requires DevicesInv(s, p) && Enabled(s, p, step)
    ensures DevicesInv(Next(s, step), After(s, p, step))
  {
    hide Next, After, Enabled, DevicesInv;
    match step
    case RedeemCode(_, _, _, _, _) => DevicesKeepOnRedeem(s, p, step);
    case MarkUsed(_, _, _) => DevicesKeepOnMark(s, p, step);
    case RevokeDevice(_, _) => DevicesKeepOnRevoke(s, p, step);
    case _ => DevicesKeepOnOffer(s, p, step);
  }

  lemma {:induction false} CodesKeepOnRedeem(s: State, p: Past, step: Step)
    requires CodesInv(s, p) && Enabled(s, p, step) && step.RedeemCode?
    ensures CodesInv(Next(s, step), After(s, p, step))
  {
    hide Distinct;
  }

  lemma {:induction false} CodesKeepOnMark(s: State, p: Past, step: Step)
    requires CodesInv(s, p) && Enabled(s, p, step) && step.MarkUsed?
    ensures CodesInv(Next(s, step), After(s, p, step))
  {
    hide Distinct;
  }

  lemma {:induction false} CodesKeepOnRevoke(s: State, p: Past, step: Step)
    requires CodesInv(s, p) && Enabled(s, p, step) && step.RevokeDevice?
    ensures CodesInv(Next(s, step), After(s, p, step))
  {
    hide Distinct;
  }

  lemma {:induction false} CodesKeepOnOffer(s: State, p: Past, step: Step)
    requires CodesInv(s, p) && Enabled(s, p, step) && (step.OfferCode? || step.Expire?)
    ensures CodesInv(Next(s, step), After(s, p, step))
  {
    hide Distinct;
  }

  lemma {:induction false} CodesKeep(s: State, p: Past, step: Step)
    requires CodesInv(s, p) && Enabled(s, p, step)
    ensures CodesInv(Next(s, step), After(s, p, step))
  {
    hide Next, After, Enabled, CodesInv;
    match step
    case RedeemCode(_, _, _, _, _) => CodesKeepOnRedeem(s, p, step);
    case MarkUsed(_, _, _) => CodesKeepOnMark(s, p, step);
    case RevokeDevice(_, _) => CodesKeepOnRevoke(s, p, step);
    case _ => CodesKeepOnOffer(s, p, step);
  }

  lemma {:induction false} StepKeeps(s: State, p: Past, step: Step)
    requires Inv(s, p) && Enabled(s, p, step)
    ensures Inv(Next(s, step), After(s, p, step))
  {
    hide DevicesInv, CodesInv, Next, After, Enabled;
    DevicesKeep(s, p, step);
    CodesKeep(s, p, step);
  }

  /** A code issues a device at most once, and what it issued is never replaced. */
  lemma {:induction false} IssuedOnce(s: State, p: Past, step: Step, code: Code)
    requires Inv(s, p) && Enabled(s, p, step) && code in p.issued
    ensures code in After(s, p, step).issued && After(s, p, step).issued[code] == p.issued[code]
    ensures step.RedeemCode? && step.code == code ==> !Issues(s, step)
  {
    hide Distinct;
  }

  /** While its redemption is remembered, a code gives its own login the same device and
      token and every other login nothing, and neither call changes anything. */
  lemma {:induction false} RetryIsSafe(s: State, p: Past, code: Code, login: Login, drawn: Drawn, now: real, saves: bool)
    requires Inv(s, p) && code in s.redeemed && now < s.redeemed[code].expires
    ensures var (next, r) := Redeem(s, code, login, drawn, now, saves);
      && next == s
      && r == (if login == p.issued[code].login then Success((p.issued[code].device, p.issued[code].token)) else Failure(InvalidCode))
  {
  }

  lemma {:induction false} RedemptionStaysOnRedeem(s: State, p: Past, step: Step, code: Code)
    requires Inv(s, p) && Enabled(s, p, step) && step.RedeemCode? && code in s.redeemed && step.now < s.redeemed[code].expires
    ensures code in Next(s, step).redeemed && Next(s, step).redeemed[code] == s.redeemed[code]
  {
    hide DevicesInv, NewDevice;
  }

  /** A redemption is remembered until it expires or its device is revoked. */
  lemma {:induction false} RedemptionStays(s: State, p: Past, step: Step, code: Code)
    requires Inv(s, p) && Enabled(s, p, step) && code in s.redeemed
    requires step.OfferCode? || step.RedeemCode? || step.Expire? ==> step.now < s.redeemed[code].expires
    requires step.RevokeDevice? ==> step.id != s.redeemed[code].device.id
    ensures code in Next(s, step).redeemed && Next(s, step).redeemed[code] == s.redeemed[code]
  {
    if step.RedeemCode? {
      hide Next;
      RedemptionStaysOnRedeem(s, p, step, code);
    } else {
      hide Redeem, DevicesInv, CodesInv;
    }
  }

  /** Devices keep their identity, and their times never move backward. */
  lemma {:induction false} TimesMoveForward(s: State, p: Past, step: Step, t: Token)
    requires Inv(s, p) && Enabled(s, p, step) && t in s.devices && t in Next(s, step).devices
    ensures var (before, after) := (s.devices[t], Next(s, step).devices[t]);
      && after.SameAs(before) && before.lastUsed <= after.lastUsed
      && (before.Sane() ==> after.Sane() && before.expires <= after.expires)
  {
    hide Distinct;
  }

  /** Every device that appears is sane, and only a successful save makes one appear or go. */
  lemma {:induction false} NewDevicesSane(s: State, p: Past, step: Step, t: Token)
    requires Inv(s, p) && Enabled(s, p, step)
    ensures t !in s.devices && t in Next(s, step).devices ==>
      Next(s, step).devices[t].Sane() && step.RedeemCode? && step.saves && Issues(s, step)
    ensures t in s.devices && t !in Next(s, step).devices ==> step.RevokeDevice? && step.saves && s.devices[t].id == step.id
  {
    hide Distinct;
  }

  ghost predicate Runs(s: State, p: Past, steps: seq<Step>)
    decreases |steps|
  {
    steps == [] || (Enabled(s, p, steps[0]) && Runs(Next(s, steps[0]), After(s, p, steps[0]), steps[1..]))
  }

  ghost function Final(s: State, p: Past, steps: seq<Step>): (State, Past)
    requires Runs(s, p, steps)
    decreases |steps|
  {
    if steps == [] then (s, p) else Final(Next(s, steps[0]), After(s, p, steps[0]), steps[1..])
  }

  /** Over any run with failing saves: memory equals the persisted devices, and a code never
      issues a second device. */
  lemma {:induction false} RunKeeps(s: State, p: Past, steps: seq<Step>)
    requires Inv(s, p) && Runs(s, p, steps)
    ensures var (s', p') := Final(s, p, steps);
      && Inv(s', p') && s'.disk == s'.devices
      && forall code :: code in p.issued ==> code in p'.issued && p'.issued[code] == p.issued[code]
    decreases |steps|
  {
    hide Next, After, Enabled;
    if steps != [] {
      StepKeeps(s, p, steps[0]);
      forall code | code in p.issued
        ensures code in After(s, p, steps[0]).issued && After(s, p, steps[0]).issued[code] == p.issued[code]
      {
        IssuedOnce(s, p, steps[0], code);
      }
      hide Inv;
      RunKeeps(Next(s, steps[0]), After(s, p, steps[0]), steps[1..]);
      assert Inv(Final(s, p, steps).0, Final(s, p, steps).1);
    }
  }

  /** What a run may do to one device: nothing to its identity, and only forward in time. */
  ghost predicate Later(before: Device, after: Device) {
    && after.SameAs(before) && before.lastUsed <= after.lastUsed
    && (before.Sane() ==> after.Sane() && before.expires <= after.expires)
  }

  /** A token that was drawn and holds no device never holds one again. */
  lemma {:induction false} TokensNotReused(s: State, p: Past, step: Step, t: Token)
    requires Inv(s, p) && Enabled(s, p, step) && t in p.tokens
    ensures t in After(s, p, step).tokens && (t in Next(s, step).devices ==> t in s.devices)
  {
    hide Distinct;
  }

  /** Over any run: a device that was there at the start and still is has kept its identity,
      and neither of its times has moved backward; every device issued during the run was
      created no later than it was last used and expires its lifetime after that. */
  lemma {:induction false} TimesOverRun(s: State, p: Past, steps: seq<Step>, t: Token)
    requires Inv(s, p) && Runs(s, p, steps) && t in Final(s, p, steps).0.devices
    ensures t in s.devices ==> Later(s.devices[t], Final(s, p, steps).0.devices[t])
    ensures t !in s.devices ==> t !in p.tokens && Final(s, p, steps).0.devices[t].Sane()
    decreases |steps|
  {
    hide Next, After, Enabled, Inv;
    if steps != [] {
      var s1, p1 := Next(s, steps[0]), After(s, p, steps[0]);
      StepKeeps(s, p, steps[0]);
      TimesOverRun(s1, p1, steps[1..], t);
      if t in p.tokens {
        TokensNotReused(s, p, steps[0], t);
      }
      if t in s.devices {
        DeviceTokensDrawn(s, p, t);
        TimesMoveForward(s, p, steps[0], t);
      } else if t in s1.devices {
        NewDevicesSane(s, p, steps[0], t);
      }
    } else if t in s.devices {
      LaterSame(s.devices[t]);
    }
  }

  lemma {:induction false} DeviceTokensDrawn(s: State, p: Past, t: Token)
    requires Inv(s, p) && t in s.devices
    ensures t in p.tokens
  {
  }

  lemma {:induction false} LaterSame(d: Device)
    ensures Later(d, d)
  {
  }

  /** A store fresh from its file, whose loading refuses repeated identifiers, starts a run. */
  lemma {:induction false} LoadedStarts(disk: map<Token, Device>)
    requires UniqueIds(disk)
    ensures Inv(State(disk, map[], map[], disk), Past(map[], {}, disk.Keys, set t | t in disk :: disk[t].id))
  {
  }

  /** The step happens before the time and does not revoke the device. */
  predicate Before(step: Step, expires: real, id: DeviceId) {
    && (step.OfferCode? || step.RedeemCode? || step.Expire? ==> step.now < expires)
    && (step.RevokeDevice? ==> step.id != id)
  }

  /** After any run before its expiry and without its revocation, a redeemed code still gives
      its login the device and token it issued, and no one else anything. */
  lemma {:induction false} RetryAfterRun(s: State, p: Past, steps: seq<Step>, code: Code, login: Login, drawn: Drawn, now: real, saves: bool)
    requires Inv(s, p) && Runs(s, p, steps) && code in s.redeemed
    requires forall i :: 0 <= i < |steps| ==> Before(steps[i], s.redeemed[code].expires, s.redeemed[code].device.id)
    requires now < s.redeemed[code].expires
    ensures var (s', p') := Final(s, p, steps);
      Redeem(s', code, login, drawn, now, saves) ==
        (s', if login == p.issued[code].login then Success((p.issued[code].device, p.issued[code].token)) else Failure(InvalidCode))
    decreases |steps|
  {
    hide Next, After, Enabled, Redeem, Inv;
    if steps == [] {
      RetryIsSafe(s, p, code, login, drawn, now, saves);
    } else {
      StepKeeps(s, p, steps[0]);
      assert Before(steps[0], s.redeemed[code].expires, s.redeemed[code].device.id);
      RedemptionStays(s, p, steps[0], code);
      RememberedIssued(s, p, code);
      IssuedOnce(s, p, steps[0], code);
      RetryAfterRun(Next(s, steps[0]), After(s, p, steps[0]), steps[1..], code, login, drawn, now, saves);
    }
  }

  lemma {:induction false} RememberedIssued(s: State, p: Past, code: Code)
    requires Inv(s, p) && code in s.redeemed
    ensures code in p.issued
  {
  }

  /** A run goes on with any step that is possible after it. */
  lemma {:induction false} RunExtends(s: State, p: Past, steps: seq<Step>, step: Step)
    ensures Runs(s, p, []) && Final(s, p, []) == (s, p)
    ensures Runs(s, p, steps) && Enabled(Final(s, p, steps).0, Final(s, p, steps).1, step) ==>
      Runs(s, p, steps + [step]) && var (s', p') := Final(s, p, steps);
      Final(s, p, steps + [step]) == (Next(s', step), After(s', p', step))
    decreases |steps|
  {
    hide Next, Enabled, After;
    if Runs(s, p, steps) && Enabled(Final(s, p, steps).0, Final(s, p, steps).1, step) {
      var more := steps + [step];
      if steps == [] {
        assert more[1..] == [];
      } else {
        assert more[1..] == steps[1..] + [step];
        RunExtends(Next(s, steps[0]), After(s, p, steps[0]), steps[1..], step);
      }
    }
  }

  // ---------------------------------------------------------- what each operation does

  /** A new code is good for ten minutes; whatever has expired by then is dropped, and no device
      is touched. A device gets the worlds in the order given, each once. */
  lemma {:induction false} OfferDoes(s: State, code: Code, title: Label, worlds: seq<World>, now: real)
    ensures var t := Offered(s, code, title, worlds, now);
      && t.devices == s.devices && t.disk == s.disk
      && (forall c :: c in t.pairings <==> c == code || (c in s.pairings && s.pairings[c].expires > now))
      && (forall c :: c in t.pairings && c != code ==> t.pairings[c] == s.pairings[c])
      && t.pairings[code].title == title && t.pairings[code].expires == now + 600.0
      && (forall c :: c in t.redeemed <==> c in s.redeemed && s.redeemed[c].expires > now)
      && (forall c :: c in t.redeemed ==> t.redeemed[c] == s.redeemed[c])
      && Once(worlds, t.pairings[code].worlds)
  {
    DistinctIsOnce(worlds);
    hide Once, Distinct;
  }

  /** `kept` are the worlds of `given`, each once, in the order of their first mention. */
  ghost predicate Once(given: seq<World>, kept: seq<World>) {
    && (forall w :: w in kept <==> w in given)
    && (forall i, j :: 0 <= i < j < |kept| ==> kept[i] != kept[j])
    && (forall i, j, k :: 0 <= i < j < |kept| && 0 <= k < |given| && given[k] == kept[j] ==> kept[i] in given[..k])
  }

  lemma {:induction false} DistinctIsOnce(worlds: seq<World>)
    ensures Once(worlds, Distinct(worlds))
  {
    if worlds != [] {
      var init, last := worlds[..|worlds| - 1], worlds[|worlds| - 1];
      DistinctIsOnce(init);
      OnceSnoc(init, Distinct(init), last);
      assert worlds == init + [last];
    }
  }

  lemma {:induction false} OnceSnoc(given: seq<World>, kept: seq<World>, last: World)
    requires Once(given, kept)
    ensures Once(given + [last], if last in kept then kept else kept + [last])
  {
    var more := given + [last];
    var all := if last in kept then kept else kept + [last];
    assert forall k :: 0 <= k < |given| ==> more[k] == given[k] && more[..k] == given[..k];
    assert more[..|given|] == given;
    forall i, j, k | 0 <= i < j < |all| && 0 <= k < |more| && more[k] == all[j] ensures all[i] in more[..k] {
      if k < |given| {
        assert given[k] in given;
        assert j < |kept| && given[k] == kept[j];
      } else {
        assert all[i] in kept && all[i] in given;
      }
    }
  }

  /** Redeeming a code. While its redemption is remembered it gives the same device and token,
      to its own login only, and changes nothing. Otherwise an offered code that has not expired
      issues one device, valid for 180 days from now, if it can be saved; then the code is spent
      and its redemption is remembered until the code would have expired. */
  lemma {:induction false} RedeemDoes(s: State, code: Code, login: Login, drawn: Drawn, now: real, saves: bool)
    ensures var (t, r) := Redeem(s, code, login, drawn, now, saves);
      var remembered := code in s.redeemed && s.redeemed[code].expires > now;
      var offered := !remembered && code in s.pairings && s.pairings[code].expires > now;
      && (remembered ==>
            t == s && r == if s.redeemed[code].login == login then Success((s.redeemed[code].device, s.redeemed[code].token)) else Failure(InvalidCode))
      && (!remembered && !offered ==>
            && r == Failure(InvalidCode) && t.devices == s.devices && t.disk == s.disk
            && t.pairings == s.pairings - {code} && t.redeemed == s.redeemed - {code})
      && (offered && !saves ==>
            && r == Failure(SaveFailed) && t.disk == s.disk && t.pairings == s.pairings && t.redeemed == s.redeemed - {code}
            && t.devices == s.devices - {drawn.token})
      && (offered && saves ==> var challenge := s.pairings[code];
            var device := Device(drawn.id, drawn.ui, challenge.title, now, now, now + 15_552_000.0, challenge.worlds, login);
            && r == Success((device, drawn.token))
            && t.devices == t.disk == s.devices[drawn.token := device] && t.pairings == s.pairings - {code}
            && t.redeemed == s.redeemed[code := Redeemed(device, drawn.token, login, challenge.expires)])
  {
    assert code !in s.redeemed ==> s.redeemed - {code} == s.redeemed;
    assert code !in s.pairings ==> s.pairings - {code} == s.pairings;
  }

  /** Marking a device as used. An expired one is refused; one used within the last day is left
      alone; otherwise it is valid for 180 days from now, if that can be saved. */
  lemma {:induction false} MarkDoes(s: State, t: Token, now: real, saves: bool)
    requires t in s.devices
    ensures var (next, r) := Mark(s, t, now, saves);
      var d := s.devices[t];
      if now >= d.expires then next == s && r == Success((None, false))
      else if now < d.lastUsed + 86_400.0 then next == s && r == Success((Some(d), false))
      else if !saves then next == s && r == Failure(SaveFailed)
      else
        var used := Device(d.id, d.ui, d.title, d.created, now, now + 15_552_000.0, d.worlds, d.login);
        && r == Success((Some(used), true))
        && next.devices == next.disk == s.devices[t := used] && next.pairings == s.pairings && next.redeemed == s.redeemed
  {
  }

  /** Revoking a device removes it and every remembered redemption that returned it, or, when
      that cannot be saved, nothing. */
  lemma {:induction false} RevokeDoes(s: State, t: Token, saves: bool)
    requires t in s.devices
    ensures var (next, r) := Revoke(s, t, saves);
      if !saves then next == s && r == Failure(SaveFailed)
      else
        && r == Success(true) && next.pairings == s.pairings
        && next.devices == next.disk == s.devices - {t}
        && (forall c :: c in next.redeemed <==> c in s.redeemed && s.redeemed[c].device.id != s.devices[t].id)
        && (forall c :: c in next.redeemed ==> next.redeemed[c] == s.redeemed[c])
  {
  }

  // -------------------------------------------------------------------------- the object

  class DeviceStore {
    var devices: map<Token, Device>
    var pairings: map<Code, Challenge>
    var redeemed: map<Code, Redeemed>
    var disk: map<Token, Device>   // what the state file holds

    ghost function Holding(): State
      reads this
    {
      State(devices, pairings, redeemed, disk)
    }

    constructor (disk: map<Token, Device>)
      ensures Holding() == State(disk, map[], map[], disk)
    {
      devices, pairings, redeemed, this.disk := disk, map[], map[], disk;
    }

    /** `_save`: all the devices replace the file, or it stays. */
    method Save(works: bool) returns (ok: bool)
      modifies this`disk
      ensures ok == works && disk == if works then devices else old(disk)
    {
      ok := works;
      if works { disk := devices; }
    }

    method CreatePairing(title: Option<Label>, worlds: seq<World>, blank: World, code: Code, now: real) returns (error: Option<Error>)
      modifies this
      ensures error == if title.None? then Some(BadLabel) else if worlds == [] || blank in worlds then Some(NoWorlds) else None
      ensures Holding() == if error.None? then Offered(old(Holding()), code, title.value, worlds, now) else old(Holding())
    {
      if title.None? {
        return Some(BadLabel);
      }
      if worlds == [] || blank in worlds {
        return Some(NoWorlds);
      }
      pairings := map c | c in pairings && pairings[c].expires > now :: pairings[c];
      redeemed := map c | c in redeemed && redeemed[c].expires > now :: redeemed[c];
      pairings := pairings[code := Challenge(title.value, now + PAIRING_TTL, Distinct(worlds))];
      return None;
    }

    method RedeemCode(code: Code, login: Login, drawn: Drawn, now: real, saves: bool) returns (r: Result<(Device, Token), Error>)
      modifies this
      ensures (Holding(), r) == Redeem(old(Holding()), code, login, drawn, now, saves)
    {
      if code in redeemed {
        if redeemed[code].expires <= now {
          redeemed := redeemed - {code};
        } else if redeemed[code].login != login {
          return Failure(InvalidCode);
        } else {
          return Success((redeemed[code].device, redeemed[code].token));
        }
      }
      if code !in pairings {
        return Failure(InvalidCode);
      }
      var challenge := pairings[code];
      ghost var offered := pairings;
      pairings := pairings - {code};
      if challenge.expires <= now {
        return Failure(InvalidCode);
      }
      var device := NewDevice(challenge, login, drawn, now);
      devices := devices[drawn.token := device];
      var ok := Save(saves);
      if !ok {
        devices := devices - {drawn.token};
        pairings := pairings[code := challenge];
        assert pairings == offered && devices == old(devices) - {drawn.token};
        return Failure(SaveFailed);
      }
      redeemed := redeemed[code := Redeemed(device, drawn.token, login, challenge.expires)];
      return Success((device, drawn.token));
    }

    /** The first device with the identifier, if any. */
    method TokenOf(id: DeviceId) returns (t: Option<Token>)
      ensures t.None? ==> forall u :: !Holds(devices, u, id)
      ensures t.Some? ==> Holds(devices, t.value, id)
    {
      var left := devices.Keys;
      while left != {}
        invariant left <= devices.Keys
        invariant forall u :: u in devices && u !in left ==> !Holds(devices, u, id)
        decreases |left|
      {
        var u :| u in left;
        left := left - {u};
        if devices[u].id == id {
          return Some(u);
        }
      }
      return None;
    }

    method MarkUsed(id: DeviceId, now: real, saves: bool) returns (r: Result<(Option<Device>, bool), Error>)
      requires UniqueIds(devices)
      modifies this
      ensures (forall t :: !Holds(old(devices), t, id)) ==> Holding() == old(Holding()) && r == Success((None, false))
      ensures forall t :: Holds(old(devices), t, id) ==> (Holding(), r) == Mark(old(Holding()), t, now, saves)
    {
      var found := TokenOf(id);
      if found.None? {
        return Success((None, false));
      }
      var t, d := found.value, devices[found.value];
      if d.expires <= now {
        return Success((None, false));
      }
      if now - d.lastUsed < ACTIVITY_INTERVAL {
        return Success((Some(d), false));
      }
      ghost var before := devices;
      devices := devices[t := Used(d, now)];
      var ok := Save(saves);
      if !ok {
        devices := devices[t := d];
        assert devices == before;
        return Failure(SaveFailed);
      }
      return Success((Some(Used(d, now)), true));
    }

    method RevokeDevice(id: DeviceId, saves: bool) returns (r: Result<bool, Error>)
      requires UniqueIds(devices)
      modifies this
      ensures (forall t :: !Holds(old(devices), t, id)) ==> Holding() == old(Holding()) && r == Success(false)
      ensures forall t :: Holds(old(devices), t, id) ==> (Holding(), r) == Revoke(old(Holding()), t, saves)
    {
      var found := TokenOf(id);
      if found.None? {
        return Success(false);
      }
      var t, d := found.value, devices[found.value];
      ghost var before := devices;
      devices := devices - {t};
      var ok := Save(saves);
      if !ok {
        devices := devices[t := d];
        assert devices == before;
        return Failure(SaveFailed);
      }
      ClearRedemptions(id);
      return Success(true);
    }

    /** Forget every redemption that returned the device. */
    method ClearRedemptions(id: DeviceId)
      modifies this`redeemed
      ensures redeemed == map c | c in old(redeemed) && old(redeemed)[c].device.id != id :: old(redeemed)[c]
    {
      var all := redeemed;
      var left := all.Keys;
      while left != {}
        invariant left <= all.Keys
        invariant redeemed == map c | c in all && (c in left || all[c].device.id != id) :: all[c]
        decreases |left|
      {
        var c :| c in left;
        left := left - {c};
        if all[c].device.id == id {
          redeemed := redeemed - {c};
        }
      }
    }
  }
}
