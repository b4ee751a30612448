/** Two-factor authentication of one user (internal/engine/totp.go): enrolment, the replay floor of
    the authenticator codes and the one-time recovery codes. bcrypt and randomness are
    uninterpreted; each operation on the user's row is one step. */
module SecondFactor {
  import opened Totp

  const RECOVERY_CODES := 8

  /** The two-factor columns of a user's row. */
  datatype Factor = Factor(secret: string, enabled: bool, lastStep: nat, recovery: seq<string>)

  const Unenrolled := Factor("", false, 0, [])

  datatype Crypto = Crypto(mac: Mac, matches: (string, string) -> bool)

  /** The first stored hash that matches `code`, or |hashes|. */
  function FirstMatch(x: Crypto, hashes: seq<string>, code: string): (i: nat)
    ensures i <= |hashes|
  {
    if hashes == [] || x.matches(hashes[0], code) then 0 else 1 + FirstMatch(x, hashes[1..], code)
  }

  lemma {:induction false} FirstMatchIsFirst(x: Crypto, hashes: seq<string>, code: string)
    ensures var i := FirstMatch(x, hashes, code); i < |hashes| ==> x.matches(hashes[i], code)
    ensures forall j :: 0 <= j < FirstMatch(x, hashes, code) ==> !x.matches(hashes[j], code)
  {
    if hashes != [] && !x.matches(hashes[0], code) {
      FirstMatchIsFirst(x, hashes[1..], code);
    }
  }

  datatype Verdict = Rejected | ByTotp(step: nat) | ByRecovery

  function Floor(current: nat, step: nat): nat { if step > current + 1 then step else current + 1 }

  /** Accept an authenticator code of a step above the floor, or burn a recovery code. The code passes
      over a floor that cannot be read, taking it for 0, and over a floor or a code list that cannot
      be saved; while the code list cannot be read, it rejects every recovery code. */
  function ConsumeWith(x: Crypto, f: Factor, code: string, t: Unix, floorRead: bool, listRead: bool, saved: bool): (Factor, Verdict) {
    match Verify(x.mac, f.secret, code, t)
    case Matched(step) =>
      if step <= (if floorRead then f.lastStep else 0) then (f, Rejected)
      else (if saved then f.(lastStep := Floor(StepOf(t), step)) else f, ByTotp(step))
    case NoMatch =>
      var i := FirstMatch(x, f.recovery, code);
      if !listRead || i == |f.recovery| then (f, Rejected)
      else (if saved then f.(recovery := f.recovery[..i] + f.recovery[i + 1..]) else f, ByRecovery)
  }

  function Consume(x: Crypto, f: Factor, code: string, t: Unix): (Factor, Verdict) { ConsumeWith(x, f, code, t, true, true, true) }

  /** The first hash that matches is gone. */
  predicate BurntAt(x: Crypto, f: Factor, f': Factor, code: string, i: nat)
    requires i < |f.recovery|
  {
    && (forall j :: 0 <= j < i ==> !x.matches(f.recovery[j], code))
    && f' == Factor(f.secret, f.enabled, f.lastStep, f.recovery[..i] + f.recovery[i + 1..])
  }

  /** A second factor as the code promises it: the step of a matching code must lie above the floor, which
      then rises above every step of the drift window; any other code must match a hash on the list, of
      which the first goes. */
  lemma ConsumeOutcome(x: Crypto, f: Factor, code: string, t: Unix, floorRead: bool, listRead: bool, saved: bool)
    ensures var (f', v) := ConsumeWith(x, f, code, t, floorRead, listRead, saved); var m := Verify(x.mac, f.secret, code, t);
      && (v.ByTotp? <==> m.Matched? && m.step > if floorRead then f.lastStep else 0)
      && (v.ByTotp? ==> v.step == m.step)
      && (v.ByTotp? && saved ==>
            && f' == Factor(f.secret, f.enabled, f'.lastStep, f.recovery)
            && f'.lastStep >= m.step && f'.lastStep >= t / 30 + 1 && (f'.lastStep == m.step || f'.lastStep == t / 30 + 1))
      && (v.ByRecovery? <==> m.NoMatch? && listRead && exists i :: 0 <= i < |f.recovery| && x.matches(f.recovery[i], code))
      && (v.ByRecovery? && saved ==>
            exists i :: 0 <= i < |f.recovery| && x.matches(f.recovery[i], code) && BurntAt(x, f, f', code, i))
      && (v.Rejected? || !saved ==> f' == f)
  {
    FirstMatchIsFirst(x, f.recovery, code);
  }

  /** Confirm the pending secret; the new recovery hashes replace whatever was stored. */
  function Enable(x: Crypto, f: Factor, code: string, t: Unix, hashes: seq<string>): (Factor, bool) {
    if f.secret == "" || Verify(x.mac, f.secret, code, t).NoMatch? then (f, false)
    else (f.(recovery := hashes, enabled := true), true)
  }

  /** A flag that cannot be read counts as not enabled. */
  function Setup(f: Factor, secret: string, flagRead: bool): (Factor, bool) {
    if flagRead && f.enabled then (f, false) else (f.(secret := secret), true)
  }

  function Disable(x: Crypto, f: Factor, code: string, t: Unix): (Factor, bool) {
    if !f.enabled || Verify(x.mac, f.secret, code, t).NoMatch? then (f, false) else (Unenrolled, true)
  }

  class Account {
    var secret: string
    var enabled: bool
    var lastStep: nat
    var recovery: seq<string>
    const crypto: Crypto

    function State(): Factor reads this { Factor(secret, enabled, lastStep, recovery) }

    constructor (crypto: Crypto)
      ensures State() == Unenrolled && this.crypto == crypto
    {
      secret, enabled, lastStep, recovery := "", false, 0, [];
      this.crypto := crypto;
    }

    method Setup2FA(newSecret: string, flagRead: bool) returns (ok: bool)
      modifies this
      ensures (State(), ok) == Setup(old(State()), newSecret, flagRead)
      ensures ok <==> !(flagRead && old(enabled))
      ensures secret == (if ok then newSecret else old(secret)) && enabled == old(enabled)
      ensures lastStep == old(lastStep) && recovery == old(recovery)
    {
      if flagRead && enabled {
        return false;
      }
      secret := newSecret;
      return true;
    }

    method Enable2FA(code: string, t: Unix, random: nat -> string, hash: string -> string) returns (ok: bool, plain: seq<string>)
      modifies this
      ensures (State(), ok) == Enable(crypto, old(State()), code, t, Hashes(random, hash, RECOVERY_CODES))
      ensures ok <==> old(secret) != "" && Verify(crypto.mac, old(secret), code, t).Matched?
      ensures !ok ==> State() == old(State())
      ensures ok ==> enabled && secret == old(secret) && lastStep == old(lastStep)
      ensures ok ==> |plain| == |recovery| == 8 && forall i :: 0 <= i < 8 ==> plain[i] == random(i) && recovery[i] == hash(plain[i])
      ensures plain == if ok then Codes(random, RECOVERY_CODES) else []
    {
      if secret == "" || Verify(crypto.mac, secret, code, t).NoMatch? {
        return false, [];
      }
      var hashed;
      plain, hashed := GenerateRecoveryCodes(random, hash);
      recovery := hashed;
      enabled := true;
      return true, plain;
    }

    method Disable2FA(code: string, t: Unix) returns (ok: bool)
      modifies this
      ensures (State(), ok) == Disable(crypto, old(State()), code, t)
      ensures ok <==> old(enabled) && Verify(crypto.mac, old(secret), code, t).Matched?
      ensures if ok then (secret, enabled, lastStep, recovery) == ("", false, 0, []) else State() == old(State())
    {
      if !enabled || Verify(crypto.mac, secret, code, t).NoMatch? {
        return false;
      }
      secret, enabled, lastStep, recovery := "", false, 0, [];
      return true;
    }

    method ConsumeSecondFactor(code: string, t: Unix, floorRead: bool, listRead: bool, saved: bool) returns (v: Verdict)
      modifies this
      ensures (State(), v) == ConsumeWith(crypto, old(State()), code, t, floorRead, listRead, saved)
      ensures secret == old(secret) && enabled == old(enabled)
      ensures v.Rejected? || !saved ==> State() == old(State())
    {
      hide Verify, FirstMatch, StepOf;
      var m := Verify(crypto.mac, secret, code, t);
      if m.Matched? {
        var last := if floorRead then lastStep else 0;
        if m.step <= last {
          return Rejected;
        }
        var floor := StepOf(t) + 1;
        if m.step > floor {
          floor := m.step;
        }
        if saved {
          lastStep := floor;
        }
        return ByTotp(m.step);
      }
      var used := ConsumeRecoveryCode(code, listRead, saved);
      return if used then ByRecovery else Rejected;
    }

    method ConsumeRecoveryCode(code: string, listRead: bool, saved: bool) returns (used: bool)
      modifies `recovery
      ensures used <==> listRead && FirstMatch(crypto, old(recovery), code) < |old(recovery)|
      ensures recovery == var i := FirstMatch(crypto, old(recovery), code);
                          if used && saved then old(recovery)[..i] + old(recovery)[i + 1..] else old(recovery)
    {
      if !listRead {
        return false;
      }
      var i := 0;
      while i < |recovery|
        invariant i <= |recovery| && recovery == old(recovery)
        invariant FirstMatch(crypto, recovery, code) == i + FirstMatch(crypto, recovery[i..], code)
      {
        if crypto.matches(recovery[i], code) {
          if saved {
            recovery := recovery[..i] + recovery[i + 1..];
          }
          return true;
        }
        assert recovery[i..][1..] == recovery[i + 1..];
        i := i + 1;
      }
      return false;
    }
  }

  function Codes(random: nat -> string, n: nat): seq<string> {
    seq(n, (i: nat) => random(i))
  }

  function Hashes(random: nat -> string, hash: string -> string, n: nat): seq<string> {
    seq(n, (i: nat) => hash(random(i)))
  }

  method GenerateRecoveryCodes(random: nat -> string, hash: string -> string) returns (plain: seq<string>, hashed: seq<string>)
    ensures plain == Codes(random, RECOVERY_CODES)
    ensures hashed == Hashes(random, hash, RECOVERY_CODES)
  {
    plain, hashed := [], [];
    for i := 0 to RECOVERY_CODES
      invariant plain == Codes(random, i)
      invariant hashed == Hashes(random, hash, i)
    {
      var code := random(i);
      plain := plain + [code];
      hashed := hashed + [hash(code)];
    }
  }

  // Runs of one user's operations.

  datatype Act =
    | DoSetup(secret: string, flagRead: bool)
    | DoEnable(code: string, hashes: seq<string>)
    | DoDisable(code: string)
    | DoLogin(code: string)  // a login or password change that reaches the second factor

  datatype Event = Event(act: Act, at: Unix)

  /** A second-factor success by authenticator code: the matched step, and the step it happened in. */
  datatype Accepted = Accepted(step: nat, current: nat)

  datatype Story = Story(
    factor: Factor,
    totp: seq<Accepted>,   // authenticator logins since the last successful disable
    issued: seq<string>,   // the hashes stored by the last successful enable
    spent: seq<string>)    // the codes burnt since then

  const Blank := Story(Unenrolled, [], [], [])

  function Tell(x: Crypto, s: Story, e: Event): Story {
    match e.act
    case DoSetup(secret, flagRead) => s.(factor := Setup(s.factor, secret, flagRead).0)
    case DoEnable(code, hashes) =>
      var (f, ok) := Enable(x, s.factor, code, e.at, hashes);
      if ok then s.(factor := f, issued := hashes, spent := []) else s
    case DoDisable(code) => if Disable(x, s.factor, code, e.at).1 then Blank else s
    case DoLogin(code) =>
      if !s.factor.enabled then s else
      var (f, v) := Consume(x, s.factor, code, e.at);
      match v
      case Rejected => s
      case ByTotp(step) => s.(factor := f, totp := s.totp + [Accepted(step, StepOf(e.at))])
      case ByRecovery => s.(factor := f, spent := s.spent + [code])
  }

  function After(x: Crypto, es: seq<Event>): Story {
    if es == [] then Blank else Tell(x, After(x, es[..|es| - 1]), es[|es| - 1])
  }

  /** Non-decreasing times, from the second step of the epoch on, and eight hashes per enrolment. */
  predicate Proper(es: seq<Event>) {
    && (forall i :: 0 <= i < |es| ==> StepOf(es[i].at) >= 1)
    && (forall i, j :: 0 <= i < j < |es| ==> es[i].at <= es[j].at)
    && (forall i :: 0 <= i < |es| && es[i].act.DoEnable? ==> |es[i].act.hashes| == RECOVERY_CODES)
  }

  function Matching(x: Crypto, hashes: seq<string>, code: string): nat {
    if hashes == [] then 0 else (if x.matches(hashes[0], code) then 1 else 0) + Matching(x, hashes[1..], code)
  }

  function Times(codes: seq<string>, code: string): nat {
    if codes == [] then 0 else Times(codes[..|codes| - 1], code) + if codes[|codes| - 1] == code then 1 else 0
  }

  ghost predicate Inv(x: Crypto, s: Story, now: nat) {
    && (!s.factor.enabled ==> s.totp == [] && s.spent == [] && s.issued == [] && s.factor.recovery == [])
    && (s.totp == [] ==> s.factor.lastStep == 0)
    && (s.totp != [] ==> s.factor.lastStep == s.totp[|s.totp| - 1].current + 1)
    && (forall i :: 0 <= i < |s.totp| ==> s.totp[i].step <= s.totp[i].current + 1 && s.totp[i].current <= now)
    && (forall i, j :: 0 <= i < j < |s.totp| ==> s.totp[i].current + 1 < s.totp[j].step)
    && (forall i, j :: 0 <= i < j < |s.totp| ==> s.totp[i].current < s.totp[j].current)
    && |s.factor.recovery| + |s.spent| == |s.issued|
    && (s.factor.enabled ==> |s.issued| == RECOVERY_CODES)
    && (forall code :: Times(s.spent, code) + Matching(x, s.factor.recovery, code) <= Matching(x, s.issued, code))
  }

  lemma {:induction false} BurntOne(x: Crypto, hashes: seq<string>, i: nat, code: string)
    requires i < |hashes|
    ensures Matching(x, hashes, code)
            == Matching(x, hashes[..i] + hashes[i + 1..], code) + if x.matches(hashes[i], code) then 1 else 0
  {
    if i == 0 {
      assert hashes[..0] + hashes[1..] == hashes[1..];
    } else {
      BurntOne(x, hashes[1..], i - 1, code);
      var left := hashes[..i] + hashes[i + 1..];
      assert left[1..] == hashes[1..][..i - 1] + hashes[1..][i..];
    }
  }

  lemma RecoveryKeeps(x: Crypto, s: Story, e: Event, now: nat)
    requires Inv(x, s, now) && now <= StepOf(e.at) && e.act.DoLogin?
    requires s.factor.enabled && Consume(x, s.factor, e.act.code, e.at).1.ByRecovery?
    ensures Inv(x, Tell(x, s, e), StepOf(e.at))
  {
    var s' := Tell(x, s, e);
    var i := FirstMatch(x, s.factor.recovery, e.act.code);
    FirstMatchIsFirst(x, s.factor.recovery, e.act.code);
    assert s'.spent[..|s.spent|] == s.spent;
    forall code ensures Times(s'.spent, code) + Matching(x, s'.factor.recovery, code) <= Matching(x, s'.issued, code) {
      BurntOne(x, s.factor.recovery, i, code);
    }
  }

  lemma TotpKeeps(x: Crypto, s: Story, e: Event, now: nat)
    requires Inv(x, s, now) && now <= StepOf(e.at) && StepOf(e.at) >= 1 && e.act.DoLogin?
    requires s.factor.enabled && Consume(x, s.factor, e.act.code, e.at).1.ByTotp?
    ensures Inv(x, Tell(x, s, e), StepOf(e.at))
  {
  }

  lemma SetupKeeps(x: Crypto, s: Story, secret: string, now: nat)
    requires Inv(x, s, now)
    ensures Inv(x, s.(factor := s.factor.(secret := secret)), now)
  {
  }

  lemma EnableKeeps(x: Crypto, s: Story, hashes: seq<string>, now: nat)
    requires Inv(x, s, now) && |hashes| == RECOVERY_CODES
    ensures Inv(x, s.(factor := s.factor.(recovery := hashes, enabled := true), issued := hashes, spent := []), now)
  {
  }

  lemma Later(x: Crypto, s: Story, now: nat, later: nat)
    requires Inv(x, s, now) && now <= later
    ensures Inv(x, s, later)
  {
  }

  lemma EnrolKeeps(x: Crypto, s: Story, e: Event, now: nat)
    requires Inv(x, s, now) && now <= StepOf(e.at) && !e.act.DoLogin?
    requires e.act.DoEnable? ==> |e.act.hashes| == RECOVERY_CODES
    ensures Inv(x, Tell(x, s, e), StepOf(e.at))
  {
    Later(x, s, now, StepOf(e.at));
    match e.act
    case DoSetup(secret, _) => SetupKeeps(x, s, secret, StepOf(e.at));
    case DoEnable(code, hashes) => EnableKeeps(x, s, hashes, StepOf(e.at));
    case DoDisable(code) =>
  }

  lemma TellKeeps(x: Crypto, s: Story, e: Event, now: nat)
    requires Inv(x, s, now) && now <= StepOf(e.at) && StepOf(e.at) >= 1
    requires e.act.DoEnable? ==> |e.act.hashes| == RECOVERY_CODES
    ensures Inv(x, Tell(x, s, e), StepOf(e.at))
  {
    if !e.act.DoLogin? {
      EnrolKeeps(x, s, e, now);
    } else if s.factor.enabled {
      var v := Consume(x, s.factor, e.act.code, e.at).1;
      if v.ByRecovery? {
        RecoveryKeeps(x, s, e, now);
      } else if v.ByTotp? {
        TotpKeeps(x, s, e, now);
      }
    }
  }

  lemma BlankKeeps(x: Crypto, now: nat)
    ensures Inv(x, Blank, now)
  {
  }

  lemma {:induction false} RunKeeps(x: Crypto, es: seq<Event>, now: nat)
    requires Proper(es) && forall i :: 0 <= i < |es| ==> StepOf(es[i].at) <= now
    ensures Inv(x, After(x, es), now)
  {
    hide Inv, Tell;
    if es == [] {
      BlankKeeps(x, now);
    } else {
      var n := |es| - 1;
      RunKeeps(x, es[..n], StepOf(es[n].at));
      TellKeeps(x, After(x, es[..n]), es[n], StepOf(es[n].at));
      Later(x, After(x, es), StepOf(es[n].at), now);
    }
  }

  function LastStep(es: seq<Event>): nat { if es == [] then 0 else StepOf(es[|es| - 1].at) }

  /** Within one enrolment the accepted steps strictly increase, and no 30-second step sees two
      acceptances, even when different steps happen to have the same code. */
  lemma {:induction false} AcceptedStepsIncrease(x: Crypto, es: seq<Event>)
    requires Proper(es)
    ensures var a := After(x, es).totp;
            forall i, j :: 0 <= i < j < |a| ==> a[i].step < a[j].step && a[i].current < a[j].current
  {
    RunKeeps(x, es, LastStep(es));
  }

  /** After an authenticator login in step c, the current code is refused until step c + 2 and
      accepted from then on; before the first login it is accepted at once. */
  lemma {:induction false} CurrentCodeWorksAgainFromTwoStepsOn(x: Crypto, es: seq<Event>, t: Unix)
    requires Proper(es) && StepOf(t) >= 1
    requires var s := After(x, es); s.factor.enabled && x.mac.decodes(s.factor.secret)
    ensures var s := After(x, es);
            Consume(x, s.factor, Code(x.mac, s.factor.secret, StepOf(t)), t).1.ByTotp?
            <==> s.totp == [] || StepOf(t) >= s.totp[|s.totp| - 1].current + 2
  {
    RunKeeps(x, es, LastStep(es));
    VerifyAcceptsTheDriftWindow(x.mac, After(x, es).factor.secret, Code(x.mac, After(x, es).factor.secret, StepOf(t)), t);
  }

  /** The step-number premise is needed: in the epoch's first step the previous step wraps to
      2^64 - 1, and a login by it raises the floor so far that no code is accepted any more. */
  lemma FirstStepOfTheEpochLocksOut(x: Crypto, f: Factor, code: string, t: Unix, later: Unix, next: string)
    requires StepOf(t) == 0 && Verify(x.mac, f.secret, code, t) == Matched(U64 - 1) && f.lastStep < U64 - 1
    requires StepOf(later) >= 1
    ensures Consume(x, f, code, t).1 == ByTotp(U64 - 1)
    ensures !Consume(x, Consume(x, f, code, t).0, next, later).1.ByTotp?
  {
  }

  /** Recovery logins and remaining hashes always make up the eight codes of the last enrolment. */
  lemma {:induction false} RecoveryCodesAreConserved(x: Crypto, es: seq<Event>)
    requires Proper(es) && After(x, es).factor.enabled
    ensures |After(x, es).spent| + |After(x, es).factor.recovery| == RECOVERY_CODES
  {
    RunKeeps(x, es, LastStep(es));
  }

  /** A code is accepted at most as often as issued hashes match it: once, for an honest hash. */
  lemma {:induction false} RecoveryCodeIsOneTime(x: Crypto, es: seq<Event>, code: string)
    requires Proper(es)
    ensures Times(After(x, es).spent, code) <= Matching(x, After(x, es).issued, code)
  {
    RunKeeps(x, es, LastStep(es));
  }

  /** A 32-character recovery code never takes the authenticator path. */
  lemma RecoveryCodeIsNoTotp(x: Crypto, f: Factor, code: string, t: Unix)
    requires |code| == 32
    ensures !Consume(x, f, code, t).1.ByTotp?
    ensures Consume(x, f, code, t).0.lastStep == f.lastStep
    ensures Consume(x, f, code, t).1.ByRecovery? <==> exists i :: 0 <= i < |f.recovery| && x.matches(f.recovery[i], code)
  {
    FirstMatchIsFirst(x, f.recovery, code);
  }

  /** The floor a code meets on its second use. */
  function SecondFloor(f: Factor, t: Unix, saved: bool, floorRead: bool): nat {
    if !floorRead then 0 else if saved then StepOf(t) + 1 else f.lastStep
  }

  /** A code accepted at `t` and used again at any later time is accepted if and only if it is then the
      code of a step above the floor: 0 where the floor cannot be read, the old floor where the new one
      was not saved, else the top of the drift window at `t`. */
  lemma ReplayIsAcceptedIffAboveFloor(
    x: Crypto, f: Factor, code: string, t: Unix, listRead: bool, saved: bool, later: Unix, floorRead: bool, listReadLater: bool)
    requires ConsumeWith(x, f, code, t, true, listRead, saved).1.ByTotp? && StepOf(t) >= 1 && t <= later
    ensures var again := Verify(x.mac, f.secret, code, later);
      ConsumeWith(x, ConsumeWith(x, f, code, t, true, listRead, saved).0, code, later, floorRead, listReadLater, true).1.ByTotp?
      <==> again.Matched? && again.step > SecondFloor(f, t, saved, floorRead)
  {
  }

  /** So as long as no other step shares the code, a replay inside the drift window is refused if and
      only if the floor was saved then and could be read now; outside the window it never counts. */
  lemma ReplayIsRefusedIffFloorIsKept(
    x: Crypto, f: Factor, code: string, t: Unix, listRead: bool, saved: bool, later: Unix, floorRead: bool, listReadLater: bool)
    requires ConsumeWith(x, f, code, t, true, listRead, saved).1.ByTotp? && StepOf(t) >= 1 && t <= later
    requires var step := ConsumeWith(x, f, code, t, true, listRead, saved).1.step;
      forall other: nat :: other != step ==> Code(x.mac, f.secret, other) != code
    ensures var step := ConsumeWith(x, f, code, t, true, listRead, saved).1.step;
      ConsumeWith(x, ConsumeWith(x, f, code, t, true, listRead, saved).0, code, later, floorRead, listReadLater, true).1.ByTotp?
      <==> StepOf(later) - 1 <= step <= StepOf(later) + 1 && !(saved && floorRead)
  {
    var step := ConsumeWith(x, f, code, t, true, listRead, saved).1.step;
    ReplayIsAcceptedIffAboveFloor(x, f, code, t, listRead, saved, later, floorRead, listReadLater);
    UnsharedCodeMatchesOneStep(x.mac, f.secret, code, step, later);
    assert f.lastStep < step <= StepOf(t) + 1;
    hide ConsumeWith, Verify, Code;
  }

  lemma UnsharedCodeMatchesOneStep(m: Mac, secret: string, code: string, step: nat, t: Unix)
    requires m.decodes(secret) && |code| == 6 && code == Code(m, secret, step) && StepOf(t) >= 1
    requires forall other: nat :: other != step ==> Code(m, secret, other) != code
    ensures Verify(m, secret, code, t) == if StepOf(t) - 1 <= step <= StepOf(t) + 1 then Matched(step) else NoMatch
  {
    hide Code;
  }

  /** A recovery code just accepted works again if and only if the list can be read, and was not saved or
      held a second hash of it. */
  lemma SpentCodeWorksAgainIffNotSaved(x: Crypto, f: Factor, code: string, t: Unix, listRead: bool, saved: bool, listReadLater: bool)
    requires ConsumeWith(x, f, code, t, true, listRead, saved).1.ByRecovery?
    ensures ConsumeWith(x, ConsumeWith(x, f, code, t, true, listRead, saved).0, code, t, true, listReadLater, true).1.ByRecovery?
            <==> listReadLater && (!saved || Matching(x, f.recovery, code) > 1)
  {
    var i := FirstMatch(x, f.recovery, code);
    FirstMatchIsFirst(x, f.recovery, code);
    BurntOne(x, f.recovery, i, code);
    MatchingIsFound(x, ConsumeWith(x, f, code, t, true, listRead, saved).0.recovery, code);
    MatchingIsFound(x, f.recovery, code);
  }

  /** The code of a list that cannot be read is refused, right or not, and stays unspent. */
  lemma RecoveryCodeIsRefusedIffUnread(x: Crypto, f: Factor, code: string, t: Unix, floorRead: bool, listRead: bool, saved: bool)
    requires Consume(x, f, code, t).1.ByRecovery?
    ensures ConsumeWith(x, f, code, t, floorRead, listRead, saved).1.ByRecovery? <==> listRead
    ensures !listRead ==> ConsumeWith(x, f, code, t, floorRead, listRead, saved) == (f, Rejected)
  {
  }

  lemma {:induction false} MatchingIsFound(x: Crypto, hashes: seq<string>, code: string)
    ensures FirstMatch(x, hashes, code) < |hashes| <==> Matching(x, hashes, code) > 0
  {
    if hashes != [] {
      MatchingIsFound(x, hashes[1..], code);
    }
  }

  /** A setup on an enrolled account leaves the secret alone if and only if it could read the flag, or
      happened to draw the same secret. */
  lemma SetupSparesEnrolledIffFlagIsRead(f: Factor, secret: string, flagRead: bool)
    requires f.enabled
    ensures Setup(f, secret, flagRead).0.secret == f.secret <==> flagRead || secret == f.secret
  {
  }

  lemma TellKeepsSecret(x: Crypto, s: Story, e: Event)
    requires s.factor.enabled && Tell(x, s, e).factor.enabled && (e.act.DoSetup? ==> e.act.flagRead)
    ensures Tell(x, s, e).factor.secret == s.factor.secret
  {
  }

  /** The stored secret never changes while two-factor authentication stays enabled and the flag can be
      read. */
  lemma {:induction false} SecretIsFixedWhileEnabled(x: Crypto, es: seq<Event>, more: seq<Event>)
    requires After(x, es).factor.enabled
    requires forall k :: 0 <= k <= |more| ==> After(x, es + more[..k]).factor.enabled
    requires forall k :: 0 <= k < |more| && more[k].act.DoSetup? ==> more[k].act.flagRead
    ensures After(x, es + more).factor.secret == After(x, es).factor.secret
  {
    hide Tell;
    if more == [] {
      assert es + more == es;
    } else {
      var init := more[..|more| - 1];
      forall k | 0 <= k <= |init| ensures After(x, es + init[..k]).factor.enabled {
        assert init[..k] == more[..k];
      }
      SecretIsFixedWhileEnabled(x, es, init);
      assert (es + more)[..|es + more| - 1] == es + init;
      assert more[..|more|] == more && After(x, es + more[..|init|]).factor.enabled;
      TellKeepsSecret(x, After(x, es + init), more[|init|]);
    }
  }
}
