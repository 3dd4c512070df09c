/** TOTP and recovery codes: each accepted once.

    The code of a timestep is an arbitrary function of secret and step (RFC 6238 fixes it);
    requests are serial transactions whose error exit discards their writes. */
module Mfa {
  import opened Wrappers

  type Secret = nat
  type Code = nat
  type Time = nat
  type Totp = (Secret, int) -> Code

  /** What the user typed, as the two lookups read it: stripped for the timestep codes,
      stripped and lower-cased for the recovery codes.  `ascii` says whether the stripped text
      is ASCII: the constant-time comparison raises on any other. */
  datatype Typed = Typed(stripped: Code, lowered: Code, ascii: bool)

  const STEP_SECONDS: nat := 30
  const SKEW_STEPS: int := 1

  function Counter(at: Time): int {
    at / STEP_SECONDS
  }

  predicate InSkew(counter: int, k: int) {
    counter - SKEW_STEPS <= k <= counter + SKEW_STEPS
  }

  /** The highest step within the skew whose code matches. */
  function Match(totp: Totp, secret: Secret, code: Code, at: Time): Option<int> {
    var c := Counter(at);
    if totp(secret, c + 1) == code then Some(c + 1)
    else if totp(secret, c) == code then Some(c)
    else if totp(secret, c - 1) == code then Some(c - 1)
    else None
  }

  /** The program's loop over the skew window, oldest step first; the first comparison raises
      on a code that is not ASCII. */
  method MatchCode(totp: Totp, secret: Secret, code: Typed, at: Time) returns (result: Result<Option<int>, Error>)
    ensures !code.ascii <==> result == Err(Crash)
    ensures code.ascii ==> result == Ok(Match(totp, secret, code.stripped, at))
    ensures result.Ok? && result.value.Some? ==>
      InSkew(Counter(at), result.value.value) && totp(secret, result.value.value) == code.stripped
    ensures result.Ok? ==> forall k :: InSkew(Counter(at), k) && totp(secret, k) == code.stripped ==>
      result.value.Some? && k <= result.value.value
  {
    var counter := Counter(at);
    var matched: Option<int> := None;
    for offset := -SKEW_STEPS to SKEW_STEPS + 1
      invariant matched.Some? ==>
        counter - SKEW_STEPS <= matched.value < counter + offset && totp(secret, matched.value) == code.stripped
      invariant forall k :: counter - SKEW_STEPS <= k < counter + offset && totp(secret, k) == code.stripped ==>
        matched.Some? && k <= matched.value
      invariant offset > -SKEW_STEPS ==> code.ascii
    {
      if !code.ascii { return Err(Crash); }
      if totp(secret, counter + offset) == code.stripped { matched := Some(counter + offset); }
    }
    assert InSkew(counter, counter + 1) && InSkew(counter, counter) && InSkew(counter, counter - 1);
    result := Ok(matched);
  }

  // ------------------------------------------------------------- the account

  /** `recovery` maps each issued recovery code to whether it has been used; `steps` and
      `recovered` are histories of what was accepted. */
  datatype Account = Account(
    secret: Option<Secret>, enabled: bool, lastCounter: Option<int>, recovery: map<Code, bool>,
    steps: seq<int>, recovered: seq<Code>)

  const NEW: Account := Account(None, false, None, map[], [], [])

  /** Crash: an exception that nothing catches. */
  datatype Error = AlreadyEnabled | NotEnrolled | InvalidCode | Crash

  datatype Step =
    | StartEnrollment(secret: Secret)
    | ConfirmEnrollment(code: Typed, at: Time, codes: set<Code>)
    | Challenge(code: Typed, at: Time)

  function StartError(a: Account): Option<Error> {
    if a.enabled then Some(AlreadyEnabled) else None
  }

  function ConfirmError(totp: Totp, a: Account, code: Typed, at: Time): Option<Error> {
    if a.enabled then Some(AlreadyEnabled)
    else if a.secret.None? then Some(NotEnrolled)
    else if !code.ascii then Some(Crash)
    else if Match(totp, a.secret.value, code.stripped, at).None? then Some(InvalidCode)
    else None
  }

  /** The step a challenge code stands for, if it is newer than every accepted one. */
  function FreshStep(totp: Totp, a: Account, code: Typed, at: Time): Option<int> {
    if a.secret.None? then None
    else
      var m := Match(totp, a.secret.value, code.stripped, at);
      if m.Some? && a.lastCounter.Some? && m.value <= a.lastCounter.value then None else m
  }

  predicate Unused(a: Account, code: Code) {
    code in a.recovery && !a.recovery[code]
  }

  function ChallengeError(totp: Totp, a: Account, code: Typed, at: Time): Option<Error> {
    if !a.enabled then Some(InvalidCode)
    else if a.secret.Some? && !code.ascii then Some(Crash)
    else if FreshStep(totp, a, code, at).None? && !Unused(a, code.lowered) then Some(InvalidCode)
    else None
  }

  function Next(totp: Totp, a: Account, step: Step): Account {
    match step
    case StartEnrollment(secret) =>
      if StartError(a).Some? then a else a.(secret := Some(secret))
    case ConfirmEnrollment(code, at, codes) =>
      if ConfirmError(totp, a, code, at).Some? then a
      else
        var k := Match(totp, a.secret.value, code.stripped, at).value;
        a.(enabled := true, lastCounter := Some(k), steps := a.steps + [k],
           recovery := map c | c in codes :: false)
    case Challenge(code, at) =>
      if ChallengeError(totp, a, code, at).Some? then a
      else
        var k := FreshStep(totp, a, code, at);
        if k.Some? then a.(lastCounter := k, steps := a.steps + [k.value])
        else a.(recovery := a.recovery[code.lowered := true], recovered := a.recovered + [code.lowered])
  }

  function After(totp: Totp, a: Account, steps: seq<Step>, n: nat): Account
    requires n <= |steps|
  {
    if n == 0 then a else Next(totp, After(totp, a, steps, n - 1), steps[n - 1])
  }

  // -------------------------------------------------------------- invariant

  ghost predicate AccountOk(a: Account) {
    && (a.steps != [] <==> a.enabled)
    && (a.enabled ==> a.secret.Some? && a.lastCounter == Some(a.steps[|a.steps| - 1]))
    && (forall i, j :: 0 <= i < j < |a.steps| ==> a.steps[i] < a.steps[j])
    && (!a.enabled ==> a.lastCounter.None? && a.recovery == map[] && a.recovered == [])
    && (forall i :: 0 <= i < |a.recovered| ==> a.recovered[i] in a.recovery && a.recovery[a.recovered[i]])
    && (forall i, j :: 0 <= i < j < |a.recovered| ==> a.recovered[i] != a.recovered[j])
  }

  lemma OkNext(totp: Totp, a: Account, step: Step)
    requires AccountOk(a)
    ensures AccountOk(Next(totp, a, step))
  {}

  lemma {:induction false} OkRun(totp: Totp, steps: seq<Step>, n: nat)
    requires n <= |steps|
    ensures AccountOk(After(totp, NEW, steps, n))
    decreases n
  {
    if n > 0 {
      OkRun(totp, steps, n - 1);
      OkNext(totp, After(totp, NEW, steps, n - 1), steps[n - 1]);
    }
  }

  /** Over any run the accepted timesteps strictly increase, so none is accepted twice
      (section 5.2 of RFC 6238), and no recovery code succeeds twice. */
  lemma CodesAreUsedOnce(totp: Totp, steps: seq<Step>, n: nat)
    requires n <= |steps|
    ensures var a := After(totp, NEW, steps, n);
      && (forall i, j :: 0 <= i < j < |a.steps| ==> a.steps[i] < a.steps[j])
      && (forall i, j :: 0 <= i < j < |a.recovered| ==> a.recovered[i] != a.recovered[j])
  {
    OkRun(totp, steps, n);
  }

  /** In every reachable state a challenge is accepted iff MFA is enabled and the code is ASCII
      and that of a step within the skew newer than every accepted one, or an unused recovery code;
      exactly one of the two histories grows, by what was accepted. */
  lemma ChallengeAcceptsExactly(totp: Totp, steps: seq<Step>, n: nat, code: Typed, at: Time)
    requires n <= |steps|
    ensures var a := After(totp, NEW, steps, n);
      ChallengeError(totp, a, code, at).None? <==> a.enabled && code.ascii && (NewerStep(totp, a, code, at) || Unused(a, code.lowered))
    ensures var a := After(totp, NEW, steps, n);
      var a' := Next(totp, a, Challenge(code, at));
      && (a.enabled && code.ascii && NewerStep(totp, a, code, at) ==>
            |a'.steps| == |a.steps| + 1 && a'.steps[..|a.steps|] == a.steps && a'.recovered == a.recovered
            && InSkew(Counter(at), a'.steps[|a.steps|]) && totp(a.secret.value, a'.steps[|a.steps|]) == code.stripped)
      && (a.enabled && code.ascii && !NewerStep(totp, a, code, at) && Unused(a, code.lowered) ==>
            a'.steps == a.steps && a'.recovered == a.recovered + [code.lowered] && !Unused(a', code.lowered))
  {
    OkRun(totp, steps, n);
    var a := After(totp, NEW, steps, n);
    if a.enabled { NewerIsFresh(totp, a, code, at); }
  }

  /** The code is that of a step within the skew, newer than every accepted step. */
  ghost predicate NewerStep(totp: Totp, a: Account, code: Typed, at: Time) {
    exists k :: InSkew(Counter(at), k) && a.secret.Some? && a.steps != [] && a.steps[|a.steps| - 1] < k
                && totp(a.secret.value, k) == code.stripped
  }

  lemma NewerIsFresh(totp: Totp, a: Account, code: Typed, at: Time)
    requires AccountOk(a) && a.enabled
    ensures NewerStep(totp, a, code, at) <==> FreshStep(totp, a, code, at).Some?
  {
    var c := Counter(at);
    assert InSkew(c, c + 1) && InSkew(c, c) && InSkew(c, c - 1);
    var k := FreshStep(totp, a, code, at);
    if k.Some? { assert totp(a.secret.value, k.value) == code.stripped && a.steps[|a.steps| - 1] < k.value; }
  }

  /** Every recovery code handed out at confirmation logs in once: right after it, and after any
      requests in which it has not been used, while typed as no fresh timestep code. */
  lemma {:induction false} RecoveryCodesWork(totp: Totp, steps: seq<Step>, m: nat, n: nat, code: Typed, at: Time)
    requires m < n <= |steps| && steps[m].ConfirmEnrollment?
    requires ConfirmError(totp, After(totp, NEW, steps, m), steps[m].code, steps[m].at).None?
    requires code.ascii && code.lowered in steps[m].codes && code.lowered !in After(totp, NEW, steps, n).recovered
    ensures var a := After(totp, NEW, steps, n);
      && a.enabled && Unused(a, code.lowered) && ChallengeError(totp, a, code, at).None?
      && (!NewerStep(totp, a, code, at) ==> code.lowered in Next(totp, a, Challenge(code, at)).recovered)
    decreases n
  {
    OkRun(totp, steps, n);
    if n == m + 1 {
      OkRun(totp, steps, m);
    } else {
      OkRun(totp, steps, n - 1);
      RecoveryCodesWork(totp, steps, m, n - 1, code, at);
    }
    NewerIsFresh(totp, After(totp, NEW, steps, n), code, at);
  }

  /** In every reachable state a request ends in an uncaught exception, instead of accepting or
      refusing the code, iff the code is not ASCII and there is a secret to compare it with:
      a pending one when confirming, an enabled one when logging in. */
  lemma CrashesExactlyWhen(totp: Totp, steps: seq<Step>, n: nat, code: Typed, at: Time)
    requires n <= |steps|
    ensures var a := After(totp, NEW, steps, n);
      && (ConfirmError(totp, a, code, at) == Some(Crash) <==> !code.ascii && a.secret.Some? && !a.enabled)
      && (ChallengeError(totp, a, code, at) == Some(Crash) <==> !code.ascii && a.enabled)
  {
    OkRun(totp, steps, n);
  }

  /** Six full-width digits, right after enrolment has started. */
  lemma FullWidthCrashes(totp: Totp, at: Time)
    ensures ConfirmError(totp, After(totp, NEW, [StartEnrollment(1)], 1), Typed(0, 0, false), at) == Some(Crash)
  {
    assert After(totp, NEW, [StartEnrollment(1)], 1) == NEW.(secret := Some(1));
  }

  /** Once enabled, the secret, and with it the meaning of every code, never changes again. */
  lemma {:induction false} SecretIsFixed(totp: Totp, steps: seq<Step>, m: nat, n: nat)
    requires m <= n <= |steps| && After(totp, NEW, steps, m).enabled
    ensures After(totp, NEW, steps, n).enabled
    ensures After(totp, NEW, steps, n).secret == After(totp, NEW, steps, m).secret
    decreases n
  {
    if m < n { SecretIsFixed(totp, steps, m, n - 1); }
  }

  /** A step once accepted is never accepted again: whatever is later accepted is newer. */
  lemma {:induction false} ReplayIsRefused(totp: Totp, steps: seq<Step>, m: nat, n: nat, code: Typed, at: Time)
    requires m <= n <= |steps| && After(totp, NEW, steps, m).enabled
    ensures var was := After(totp, NEW, steps, m).lastCounter;
      var a := After(totp, NEW, steps, n);
      && was.Some? && a.lastCounter.Some? && was.value <= a.lastCounter.value
      && (FreshStep(totp, a, code, at).Some? ==> was.value < FreshStep(totp, a, code, at).value)
    decreases n
  {
    OkRun(totp, steps, m);
    if m < n {
      SecretIsFixed(totp, steps, m, n - 1);
      ReplayIsRefused(totp, steps, m, n - 1, code, at);
    }
  }

  // ------------------------------------------------------- the service's code

  class MfaService {
    const totp: Totp
    var secret: Option<Secret>
    var enabled: bool
    var lastCounter: Option<int>
    var recovery: map<Code, bool>
    ghost var steps: seq<int>
    ghost var recovered: seq<Code>

    ghost function View(): Account
      reads this
    {
      Account(secret, enabled, lastCounter, recovery, steps, recovered)
    }

    constructor (totp: Totp)
      ensures View() == NEW && this.totp == totp
    {
      this.totp := totp;
      secret, enabled, lastCounter, recovery, steps, recovered := None, false, None, map[], [], [];
    }

    method Start(newSecret: Secret) returns (error: Option<Error>)
      modifies this
      ensures View() == Next(totp, old(View()), StartEnrollment(newSecret))
      ensures error == StartError(old(View()))
      ensures error == if old(enabled) then Some(AlreadyEnabled) else None
      ensures secret == (if old(enabled) then old(secret) else Some(newSecret)) && enabled == old(enabled)
      ensures lastCounter == old(lastCounter) && recovery == old(recovery)
    {
      if enabled { return Some(AlreadyEnabled); }
      secret := Some(newSecret);
      error := None;
    }

    method Confirm(code: Typed, at: Time, codes: set<Code>) returns (error: Option<Error>)
      modifies this
      ensures View() == Next(totp, old(View()), ConfirmEnrollment(code, at, codes))
      ensures error == ConfirmError(totp, old(View()), code, at)
      ensures secret == old(secret)
      ensures error == Some(AlreadyEnabled) <==> old(enabled)
      ensures error == Some(NotEnrolled) <==> !old(enabled) && secret.None?
      ensures error == Some(Crash) <==> !old(enabled) && secret.Some? && !code.ascii
      ensures error.None? <==>
        && !old(enabled) && secret.Some? && code.ascii
        && exists k :: InSkew(at / 30, k) && totp(secret.value, k) == code.stripped
      ensures error.Some? ==> enabled == old(enabled) && lastCounter == old(lastCounter) && recovery == old(recovery)
      ensures error.None? ==> (
        && enabled && lastCounter.Some? && InSkew(at / 30, lastCounter.value)
        && totp(secret.value, lastCounter.value) == code.stripped
        && (forall k :: InSkew(at / 30, k) && totp(secret.value, k) == code.stripped ==> k <= lastCounter.value)
        && recovery.Keys == codes && forall c :: c in codes ==> !recovery[c])
    {
      if enabled { return Some(AlreadyEnabled); }
      if secret.None? { return Some(NotEnrolled); }
      var matched := MatchCode(totp, secret.value, code, at);
      if matched.Err? { return Some(matched.error); }
      var counter := matched.value;
      if counter.None? { return Some(InvalidCode); }
      enabled := true;
      lastCounter := counter;
      steps := steps + [counter.value];
      recovery := map c | c in codes :: false;
      error := None;
    }

    method TryTotp(code: Typed, at: Time) returns (result: Result<bool, Error>)
      modifies this`lastCounter, this`steps
      ensures result.Err? <==> secret.Some? && !code.ascii
      ensures result.Err? ==> result.error == Crash && lastCounter == old(lastCounter) && steps == old(steps)
      ensures var k := FreshStep(totp, old(View()), code, at);
        result.Ok? ==> (
          && result.value == k.Some?
          && lastCounter == (if result.value then k else old(lastCounter))
          && steps == (if result.value then old(steps) + [k.value] else old(steps)))
    {
      if secret.None? { return Ok(false); }
      var matched := MatchCode(totp, secret.value, code, at);
      if matched.Err? { return Err(matched.error); }
      var counter := matched.value;
      if counter.None? { return Ok(false); }
      if lastCounter.Some? && counter.value <= lastCounter.value { return Ok(false); }
      lastCounter := counter;
      steps := steps + [counter.value];
      result := Ok(true);
    }

    method TryRecoveryCode(code: Code) returns (ok: bool)
      modifies this`recovery, this`recovered
      ensures ok == Unused(old(View()), code)
      ensures recovery == (if ok then old(recovery)[code := true] else old(recovery))
      ensures recovered == (if ok then old(recovered) + [code] else old(recovered))
    {
      if code !in recovery || recovery[code] { return false; }
      recovery := recovery[code := true];
      recovered := recovered + [code];
      ok := true;
    }

    /** The second login step, after the signed token has been accepted. */
    method CompleteChallenge(code: Typed, at: Time) returns (error: Option<Error>)
      modifies this
      ensures View() == Next(totp, old(View()), Challenge(code, at))
      ensures error == ChallengeError(totp, old(View()), code, at)
      ensures secret == old(secret) && enabled == old(enabled)
      ensures !enabled ==> error == Some(InvalidCode)
      ensures error.Some? ==> lastCounter == old(lastCounter) && recovery == old(recovery)
      ensures error.None? && lastCounter == old(lastCounter) ==>
        code.lowered in old(recovery) && !old(recovery)[code.lowered] && recovery == old(recovery)[code.lowered := true]
      ensures error.None? && lastCounter != old(lastCounter) ==> (
        && recovery == old(recovery) && lastCounter.Some? && InSkew(at / 30, lastCounter.value) && secret.Some?
        && totp(secret.value, lastCounter.value) == code.stripped
        && (old(lastCounter).Some? ==> old(lastCounter).value < lastCounter.value))
    {
      if !enabled { return Some(InvalidCode); }
      var tried := TryTotp(code, at);
      if tried.Err? { return Some(tried.error); }
      var ok := tried.value;
      if !ok { ok := TryRecoveryCode(code.lowered); }
      error := if ok then None else Some(InvalidCode);
    }
  }
}
