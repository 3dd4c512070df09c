/** Refresh-token families, signed tokens and session invalidation.

    Each request is one serial transaction whose error exit discards its writes, except
    refresh-token reuse, which commits the revocation before it fails.  A raw token stands
    for its hash (hashing is injective) and random tokens and family ids are fresh. */
module Sessions {
  import opened Wrappers

  type UserId = nat
  type FamilyId = nat
  type Raw = nat
  type Time = int

  datatype User = User(active: bool, verified: bool, mfaEnabled: bool, version: nat, password: nat)

  datatype RefreshToken = RefreshToken(
    user: UserId, family: FamilyId, expiresAt: Time, consumedAt: Option<Time>, revokedAt: Option<Time>)

  datatype ResetToken = ResetToken(user: UserId, expiresAt: Time, consumedAt: Option<Time>)

  datatype TokenKind = Access | Mfa

  /** An unforgeable signed token: only the server makes one. */
  datatype Signed = Signed(kind: TokenKind, user: UserId, version: nat)

  datatype Pair = Pair(access: Signed, refresh: Raw)

  datatype Error = InvalidRefresh | RefreshReused | InvalidToken | Unauthorized

  const REFRESH_TTL: int := 30 * 24 * 3600
  const RESET_TTL: int := 30 * 60
  const PRUNE_GRACE: int := 7 * 24 * 3600

  /** The tables, and the histories the program does not keep: raw tokens ever issued, with
      their family and their time, families ever opened and ever revoked, raw tokens exchanged
      for a new pair, and signed tokens ever made. */
  datatype Store = Store(
    users: map<UserId, User>, tokens: map<Raw, RefreshToken>, resets: map<Raw, ResetToken>,
    issued: map<Raw, FamilyId>, families: map<FamilyId, UserId>, dead: set<FamilyId>, exchanged: seq<Raw>,
    signed: set<Signed>, issuedAt: map<Raw, Time>)

  const EMPTY: Store := Store(map[], map[], map[], map[], map[], {}, [], {}, map[])

  predicate Live(x: RefreshToken) {
    x.consumedAt.None? && x.revokedAt.None?
  }

  // ------------------------------------------------------------- operations

  function Minted(s: Store, user: UserId, family: FamilyId, raw: Raw, now: Time): Store
    requires user in s.users
  {
    s.(tokens := s.tokens[raw := RefreshToken(user, family, now + REFRESH_TTL, None, None)],
       issued := s.issued[raw := family],
       signed := s.signed + {Signed(Access, user, s.users[user].version)}, issuedAt := s.issuedAt[raw := now])
  }

  function PairFor(s: Store, user: UserId, raw: Raw): Pair
    requires user in s.users
  {
    Pair(Signed(Access, user, s.users[user].version), raw)
  }

  function Opened(s: Store, user: UserId, family: FamilyId, raw: Raw, now: Time): Store
    requires user in s.users
  {
    Minted(s, user, family, raw, now).(families := s.families[family := user])
  }

  function Stamp(x: RefreshToken, now: Time): RefreshToken {
    if x.revokedAt.None? then x.(revokedAt := Some(now)) else x
  }

  function FamilyRevoked(s: Store, family: FamilyId, now: Time): Store {
    s.(tokens := map r | r in s.tokens :: if s.tokens[r].family == family then Stamp(s.tokens[r], now) else s.tokens[r],
       dead := s.dead + {family})
  }

  /** Why a refresh token is refused, or None if it rotates. */
  function RotateError(s: Store, raw: Raw, now: Time): Option<Error> {
    if raw !in s.tokens then Some(InvalidRefresh)
    else
      var x := s.tokens[raw];
      if x.revokedAt.Some? then Some(InvalidRefresh)
      else if x.consumedAt.Some? then Some(RefreshReused)
      else if x.expiresAt <= now then Some(InvalidRefresh)
      else if x.user !in s.users || !s.users[x.user].active then Some(InvalidRefresh)
      else None
  }

  function Rotated(s: Store, raw: Raw, minted: Raw, now: Time): Store {
    match RotateError(s, raw, now)
    case Some(RefreshReused) => FamilyRevoked(s, s.tokens[raw].family, now)
    case Some(_) => s
    case None =>
      var x := s.tokens[raw];
      var s1 := s.(tokens := s.tokens[raw := x.(consumedAt := Some(now))], exchanged := s.exchanged + [raw]);
      Minted(s1, x.user, x.family, minted, now)
  }

  function LoggedOut(s: Store, raw: Raw, now: Time): Store {
    if raw in s.tokens then FamilyRevoked(s, s.tokens[raw].family, now) else s
  }

  function AllRevoked(s: Store, user: UserId, now: Time): Store
    requires user in s.users
  {
    s.(tokens := map r | r in s.tokens :: if s.tokens[r].user == user then Stamp(s.tokens[r], now) else s.tokens[r],
       users := s.users[user := s.users[user].(version := s.users[user].version + 1)],
       dead := s.dead + set f | f in s.families && s.families[f] == user)
  }

  predicate ResetWorks(s: Store, raw: Raw, now: Time) {
    && raw in s.resets && s.resets[raw].consumedAt.None? && now < s.resets[raw].expiresAt
    && s.resets[raw].user in s.users && s.users[s.resets[raw].user].active
  }

  function WasReset(s: Store, raw: Raw, password: nat, now: Time): Store {
    if ResetWorks(s, raw, now) then
      var u := s.resets[raw].user;
      var s1 := s.(resets := s.resets[raw := s.resets[raw].(consumedAt := Some(now))],
                   users := s.users[u := s.users[u].(password := password, verified := true)]);
      AllRevoked(s1, u, now)
    else s
  }

  function Kept(s: Store, now: Time): Store {
    var cutoff := now - PRUNE_GRACE;
    s.(tokens := map r | r in s.tokens && !(s.tokens[r].expiresAt < cutoff) :: s.tokens[r],
       resets := map r | r in s.resets && !(s.resets[r].expiresAt < cutoff) :: s.resets[r])
  }

  /** The check every signed token passes through: active user, matching version. */
  predicate Accepted(s: Store, kind: TokenKind, token: Signed) {
    && token in s.signed && token.kind == kind
    && token.user in s.users && s.users[token.user].active && s.users[token.user].version == token.version
  }

  predicate ChallengeWorks(s: Store, token: Signed, codeOk: bool) {
    Accepted(s, Mfa, token) && s.users[token.user].mfaEnabled && codeOk
  }

  // -------------------------------------------------------------- histories

  datatype Step =
    | AddUser(user: UserId, row: User)
    | SetActive(user: UserId, active: bool)
    | EnableMfa(user: UserId)
    | Login(user: UserId, family: FamilyId, minted: Raw, now: Time)
    | LoginMfa(user: UserId)
    | Challenge(token: Signed, codeOk: bool, family: FamilyId, minted: Raw, now: Time)
    | Rotate(raw: Raw, minted: Raw, now: Time)
    | Logout(raw: Raw, now: Time)
    | AskReset(user: UserId, raw: Raw, now: Time)
    | Reset(raw: Raw, password: nat, now: Time)
    | Prune(now: Time)

  predicate MayLogin(s: Store, user: UserId) {
    user in s.users && s.users[user].active && s.users[user].verified
  }

  predicate Enabled(s: Store, step: Step) {
    match step
    case AddUser(u, row) => u !in s.users && row.version == 0
    case SetActive(u, _) => u in s.users
    case EnableMfa(u) => u in s.users
    case Login(u, f, r, _) => MayLogin(s, u) && !s.users[u].mfaEnabled && f !in s.families && r !in s.issued
    case LoginMfa(u) => MayLogin(s, u) && s.users[u].mfaEnabled
    case Challenge(_, _, f, r, _) => f !in s.families && r !in s.issued
    case Rotate(_, minted, _) => minted !in s.issued
    case AskReset(u, r, _) => u in s.users && s.users[u].active && r !in s.resets
    case _ => true
  }

  function Next(s: Store, step: Step): Store
    requires Enabled(s, step)
  {
    match step
    case AddUser(u, row) => s.(users := s.users[u := row])
    case SetActive(u, active) => s.(users := s.users[u := s.users[u].(active := active)])
    case EnableMfa(u) => s.(users := s.users[u := s.users[u].(mfaEnabled := true)])
    case Login(u, f, r, now) => Opened(s, u, f, r, now)
    case LoginMfa(u) => s.(signed := s.signed + {Signed(Mfa, u, s.users[u].version)})
    case Challenge(token, codeOk, f, r, now) =>
      if ChallengeWorks(s, token, codeOk) then Opened(s, token.user, f, r, now) else s
    case Rotate(raw, minted, now) => Rotated(s, raw, minted, now)
    case Logout(raw, now) => LoggedOut(s, raw, now)
    case AskReset(u, r, now) => s.(resets := s.resets[r := ResetToken(u, now + RESET_TTL, None)])
    case Reset(raw, password, now) => WasReset(s, raw, password, now)
    case Prune(now) => Kept(s, now)
  }

  ghost predicate Valid(s: Store, steps: seq<Step>)
    decreases |steps|
  {
    steps == [] || (Enabled(s, steps[0]) && Valid(Next(s, steps[0]), steps[1..]))
  }

  ghost function Exec(s: Store, steps: seq<Step>): Store
    requires Valid(s, steps)
    decreases |steps|
  {
    if steps == [] then s else Exec(Next(s, steps[0]), steps[1..])
  }

  // ----------------------------------------------------- what always holds

  ghost predicate TokenOk(s: Store, r: Raw)
    requires r in s.tokens
  {
    var x := s.tokens[r];
    && r in s.issued && s.issued[r] == x.family
    && x.family in s.families && s.families[x.family] == x.user
    && (x.revokedAt.Some? <==> x.family in s.dead)
    && (r in s.exchanged <==> x.consumedAt.Some?)
    && r in s.issuedAt && x.expiresAt == s.issuedAt[r] + REFRESH_TTL
  }

  ghost predicate OneLive(s: Store) {
    forall a, b ::
      (a in s.tokens && b in s.tokens && Live(s.tokens[a]) && Live(s.tokens[b])
       && s.tokens[a].family == s.tokens[b].family) ==> a == b
  }

  ghost predicate ExchangedOnce(s: Store) {
    && (forall i :: 0 <= i < |s.exchanged| ==> s.exchanged[i] in s.issued)
    && (forall i, j :: 0 <= i < j < |s.exchanged| ==> s.exchanged[i] != s.exchanged[j])
  }

  ghost predicate SignedOk(s: Store) {
    forall x :: x in s.signed ==> x.user in s.users && x.version <= s.users[x.user].version
  }

  ghost predicate Inv(s: Store) {
    && (forall r :: r in s.tokens ==> TokenOk(s, r))
    && (forall f :: f in s.families ==> s.families[f] in s.users)
    && (forall r :: r in s.issued ==> s.issued[r] in s.families)
    && s.dead <= s.families.Keys && s.tokens.Keys <= s.issued.Keys
    && OneLive(s) && ExchangedOnce(s) && SignedOk(s)
  }

  lemma RotateKeepsInv(s: Store, raw: Raw, minted: Raw, now: Time)
    requires Inv(s) && minted !in s.issued
    ensures Inv(Rotated(s, raw, minted, now))
  {
    if raw in s.tokens { assert TokenOk(s, raw); }
    var s' := Rotated(s, raw, minted, now);
    if RotateError(s, raw, now).None? {
      RotateKeepsOneLive(s, raw, minted, now);
      forall r | r in s'.tokens ensures TokenOk(s', r) {
        if r != minted { assert TokenOk(s, r); }
      }
    } else if RotateError(s, raw, now) == Some(RefreshReused) {
      RevokeKeepsInv(s, s.tokens[raw].family, now);
    }
  }

  lemma RotateKeepsOneLive(s: Store, raw: Raw, minted: Raw, now: Time)
    requires Inv(s) && minted !in s.issued && RotateError(s, raw, now).None?
    ensures OneLive(Rotated(s, raw, minted, now)) && minted !in s.tokens
  {
    assert TokenOk(s, raw);
  }

  lemma RevokeKeepsInv(s: Store, family: FamilyId, now: Time)
    requires Inv(s) && family in s.families
    ensures Inv(FamilyRevoked(s, family, now))
  {
    var s' := FamilyRevoked(s, family, now);
    forall r | r in s'.tokens ensures TokenOk(s', r) { assert TokenOk(s, r); }
  }

  lemma AllRevokedKeepsInv(s: Store, user: UserId, now: Time)
    requires Inv(s) && user in s.users
    ensures Inv(AllRevoked(s, user, now))
  {
    var s' := AllRevoked(s, user, now);
    forall r | r in s'.tokens ensures TokenOk(s', r) { assert TokenOk(s, r); }
  }

  lemma OpenKeepsInv(s: Store, user: UserId, family: FamilyId, raw: Raw, now: Time)
    requires Inv(s) && user in s.users && family !in s.families && raw !in s.issued
    ensures Inv(Opened(s, user, family, raw, now))
  {
    var s' := Opened(s, user, family, raw, now);
    forall r | r in s.tokens ensures s.tokens[r].family != family { assert TokenOk(s, r); }
    forall r | r in s'.tokens ensures TokenOk(s', r) {
      if r != raw { assert TokenOk(s, r); }
    }
  }

  lemma InvNext(s: Store, step: Step)
    requires Inv(s) && Enabled(s, step)
    ensures Inv(Next(s, step))
  {
    match step
    case Login(u, f, r, now) => OpenKeepsInv(s, u, f, r, now);
    case Challenge(token, codeOk, f, r, now) =>
      if ChallengeWorks(s, token, codeOk) { OpenKeepsInv(s, token.user, f, r, now); }
    case Rotate(raw, minted, now) => RotateKeepsInv(s, raw, minted, now);
    case Logout(raw, now) =>
      if raw in s.tokens {
        assert TokenOk(s, raw);
        RevokeKeepsInv(s, s.tokens[raw].family, now);
      }
    case Reset(raw, password, now) =>
      if ResetWorks(s, raw, now) {
        var u := s.resets[raw].user;
        var s1 := s.(resets := s.resets[raw := s.resets[raw].(consumedAt := Some(now))],
                     users := s.users[u := s.users[u].(password := password, verified := true)]);
        forall r | r in s1.tokens ensures TokenOk(s1, r) { assert TokenOk(s, r); }
        AllRevokedKeepsInv(s1, u, now);
      }
    case Prune(now) =>
      var s' := Kept(s, now);
      forall r | r in s'.tokens ensures TokenOk(s', r) { assert TokenOk(s, r); }
    case _ =>
      var s' := Next(s, step);
      forall r | r in s'.tokens ensures TokenOk(s', r) { assert TokenOk(s, r); }
  }

  lemma {:induction false} InvRun(s: Store, steps: seq<Step>)
    requires Inv(s) && Valid(s, steps)
    ensures Inv(Exec(s, steps))
    decreases |steps|
  {
    if steps != [] {
      InvNext(s, steps[0]);
      InvRun(Next(s, steps[0]), steps[1..]);
    }
  }

  // -------------------------------------------------------------- results

  /** In every reachable state a family has one user and at most one live token, and is
      revoked all or none; a revoked family has no live token. */
  lemma FamiliesAreLinear(steps: seq<Step>, a: Raw, b: Raw)
    requires Valid(EMPTY, steps)
    requires a in Exec(EMPTY, steps).tokens && b in Exec(EMPTY, steps).tokens
    requires Exec(EMPTY, steps).tokens[a].family == Exec(EMPTY, steps).tokens[b].family
    ensures var x, y := Exec(EMPTY, steps).tokens[a], Exec(EMPTY, steps).tokens[b];
      && x.user == y.user
      && (x.revokedAt.Some? <==> y.revokedAt.Some?)
      && (Live(x) && Live(y) ==> a == b)
      && (x.family in Exec(EMPTY, steps).dead ==> !Live(x))
  {
    InvRun(EMPTY, steps);
    assert TokenOk(Exec(EMPTY, steps), a) && TokenOk(Exec(EMPTY, steps), b);
  }

  /** No refresh token is exchanged twice in any run. */
  lemma ExchangedAtMostOnce(steps: seq<Step>, i: nat, j: nat)
    requires Valid(EMPTY, steps) && i < j < |Exec(EMPTY, steps).exchanged|
    ensures Exec(EMPTY, steps).exchanged[i] != Exec(EMPTY, steps).exchanged[j]
  {
    InvRun(EMPTY, steps);
  }

  /** In any run, a token is exchanged only before its time to live has passed since it was
      issued, while its family is not revoked and its owner exists and is active. */
  lemma ExchangedInTime(steps: seq<Step>, raw: Raw, minted: Raw, now: Time)
    requires Valid(EMPTY, steps) && Enabled(Exec(EMPTY, steps), Rotate(raw, minted, now))
    requires Next(Exec(EMPTY, steps), Rotate(raw, minted, now)).exchanged != Exec(EMPTY, steps).exchanged
    ensures var s := Exec(EMPTY, steps);
      && raw in s.issuedAt && now < s.issuedAt[raw] + REFRESH_TTL
      && raw in s.issued && s.issued[raw] !in s.dead && raw !in s.exchanged
      && s.issued[raw] in s.families && s.families[s.issued[raw]] in s.users
      && s.users[s.families[s.issued[raw]]].active
  {
    InvRun(EMPTY, steps);
    assert TokenOk(Exec(EMPTY, steps), raw);
  }

  /** Once revoked, a family stays revoked whatever follows, and gains no live token. */
  lemma {:induction false} DeadStaysDead(s: Store, steps: seq<Step>, family: FamilyId)
    requires Inv(s) && Valid(s, steps) && family in s.dead
    ensures family in Exec(s, steps).dead
    ensures forall r :: r in Exec(s, steps).tokens && Exec(s, steps).tokens[r].family == family ==>
      !Live(Exec(s, steps).tokens[r])
    decreases |steps|
  {
    if steps == [] {
      forall r | r in s.tokens && s.tokens[r].family == family ensures !Live(s.tokens[r]) { assert TokenOk(s, r); }
    } else {
      InvNext(s, steps[0]);
      DeadOnlyGrows(s, steps[0]);
      DeadStaysDead(Next(s, steps[0]), steps[1..], family);
    }
  }

  lemma DeadOnlyGrows(s: Store, step: Step)
    requires Enabled(s, step)
    ensures s.dead <= Next(s, step).dead
  {}

  /** Nothing ever issued in a revoked family is accepted again. */
  lemma DeadFamilyIsRefused(s: Store, steps: seq<Step>, raw: Raw, later: Time)
    requires Inv(s) && Valid(s, steps) && raw in s.issued && s.issued[raw] in s.dead
    ensures RotateError(Exec(s, steps), raw, later) == Some(InvalidRefresh)
  {
    DeadStaysDead(s, steps, s.issued[raw]);
    IssuedNeverMoves(s, steps, raw);
    InvRun(s, steps);
    var s' := Exec(s, steps);
    if raw in s'.tokens { assert TokenOk(s', raw); }
  }

  /** Presenting a consumed token is detected as reuse, and from then on nothing ever issued
      in its family is accepted, whatever follows. */
  lemma ReuseKillsTheFamily(s: Store, raw: Raw, minted: Raw, now: Time, steps: seq<Step>, other: Raw, later: Time)
    requires Inv(s) && minted !in s.issued
    requires raw in s.tokens && s.tokens[raw].consumedAt.Some? && s.tokens[raw].revokedAt.None?
    requires other in s.issued && s.issued[other] == s.issued[raw]
    requires Valid(Rotated(s, raw, minted, now), steps)
    ensures RotateError(s, raw, now) == Some(RefreshReused)
    ensures RotateError(Exec(Rotated(s, raw, minted, now), steps), other, later) == Some(InvalidRefresh)
  {
    assert TokenOk(s, raw);
    RotateKeepsInv(s, raw, minted, now);
    DeadFamilyIsRefused(Rotated(s, raw, minted, now), steps, other, later);
  }

  /** The same after a logout with any token of the family. */
  lemma LogoutKillsTheFamily(s: Store, raw: Raw, now: Time, steps: seq<Step>, other: Raw, later: Time)
    requires Inv(s) && raw in s.tokens && other in s.issued && s.issued[other] == s.issued[raw]
    requires Valid(LoggedOut(s, raw, now), steps)
    ensures RotateError(Exec(LoggedOut(s, raw, now), steps), other, later) == Some(InvalidRefresh)
  {
    assert TokenOk(s, raw);
    RevokeKeepsInv(s, s.tokens[raw].family, now);
    DeadFamilyIsRefused(LoggedOut(s, raw, now), steps, other, later);
  }

  // ----------------------------------------------------------------- reset

  /** Nothing in `old` can be used for user `u` any more. */
  ghost predicate Severed(s: Store, before: Store, u: UserId) {
    && u in s.users && u in before.users && before.users[u].version < s.users[u].version
    && before.issued.Keys <= s.issued.Keys
    && (forall r :: r in s.tokens && r in before.issued && s.tokens[r].user == u ==> s.tokens[r].revokedAt.Some?)
  }

  lemma SeveredNext(s: Store, before: Store, u: UserId, step: Step)
    requires Severed(s, before, u) && Enabled(s, step)
    ensures Severed(Next(s, step), before, u)
  {}

  lemma {:induction false} SeveredRun(s: Store, before: Store, u: UserId, steps: seq<Step>)
    requires Severed(s, before, u) && Valid(s, steps)
    ensures Severed(Exec(s, steps), before, u)
    decreases |steps|
  {
    if steps != [] {
      SeveredNext(s, before, u, steps[0]);
      SeveredRun(Next(s, steps[0]), before, u, steps[1..]);
    }
  }

  lemma ResetSevers(s: Store, raw: Raw, password: nat, now: Time)
    requires Inv(s) && ResetWorks(s, raw, now)
    ensures Severed(WasReset(s, raw, password, now), s, s.resets[raw].user)
  {}

  /** After a reset commits, nothing issued to that user before it is accepted in any later
      state: no access token, no MFA token, no refresh token. */
  lemma ResetKillsForGood(s: Store, raw: Raw, password: nat, now: Time, steps: seq<Step>,
                          token: Signed, refresh: Raw, codeOk: bool, later: Time)
    requires Inv(s) && ResetWorks(s, raw, now)
    requires Valid(WasReset(s, raw, password, now), steps)
    requires token in s.signed && token.user == s.resets[raw].user
    requires refresh in s.issued && s.issued[refresh] in s.families && s.families[s.issued[refresh]] == s.resets[raw].user
    ensures var s' := Exec(WasReset(s, raw, password, now), steps);
      && !Accepted(s', Access, token) && !ChallengeWorks(s', token, codeOk)
      && RotateError(s', refresh, later) == Some(InvalidRefresh)
  {
    var u := s.resets[raw].user;
    var s1 := WasReset(s, raw, password, now);
    InvNext(s, Reset(raw, password, now));
    ResetSevers(s, raw, password, now);
    SeveredRun(s1, s, u, steps);
    InvRun(s1, steps);
    var s' := Exec(s1, steps);
    IssuedNeverMoves(s1, steps, refresh);
    if refresh in s'.tokens { assert TokenOk(s', refresh); }
  }

  lemma {:induction false} IssuedNeverMoves(s: Store, steps: seq<Step>, raw: Raw)
    requires Valid(s, steps) && raw in s.issued && s.issued[raw] in s.families
    ensures raw in Exec(s, steps).issued && Exec(s, steps).issued[raw] == s.issued[raw]
    ensures s.issued[raw] in Exec(s, steps).families
      && Exec(s, steps).families[s.issued[raw]] == s.families[s.issued[raw]]
    decreases |steps|
  {
    if steps != [] {
      IssuedNext(s, steps[0], raw);
      IssuedNeverMoves(Next(s, steps[0]), steps[1..], raw);
    }
  }

  lemma IssuedNext(s: Store, step: Step, raw: Raw)
    requires Enabled(s, step) && raw in s.issued && s.issued[raw] in s.families
    ensures raw in Next(s, step).issued && Next(s, step).issued[raw] == s.issued[raw]
    ensures s.issued[raw] in Next(s, step).families
      && Next(s, step).families[s.issued[raw]] == s.families[s.issued[raw]]
  {}

  /** A reset leaves every other user's account and refresh tokens as they were. */
  lemma ResetSparesOthers(s: Store, raw: Raw, password: nat, now: Time, v: UserId, r: Raw, token: Signed)
    requires ResetWorks(s, raw, now) && v != s.resets[raw].user
    requires r in s.tokens && s.tokens[r].user == v && token.user == v
    ensures var s' := WasReset(s, raw, password, now);
      && r in s'.tokens && s'.tokens[r] == s.tokens[r]
      && (forall at :: RotateError(s', r, at) == RotateError(s, r, at))
      && (forall kind :: Accepted(s', kind, token) <==> Accepted(s, kind, token))
  {}

  /** A reset token works for thirty minutes and once; using it sets the password and verifies
      the account. */
  lemma ResetTokensWorkOnce(s: Store, u: UserId, raw: Raw, asked: Time, password: nat, now: Time, later: Time)
    requires Enabled(s, AskReset(u, raw, asked))
    ensures var s1 := Next(s, AskReset(u, raw, asked));
      && (ResetWorks(s1, raw, now) <==> now < asked + 30 * 60)
      && (ResetWorks(s1, raw, now) ==> (
            && Next(s1, Reset(raw, password, now)).users[u].password == password
            && Next(s1, Reset(raw, password, now)).users[u].verified
            && !ResetWorks(Next(s1, Reset(raw, password, now)), raw, later)))
  {}

  /** A session opened now works at once, whatever was reset before. */
  lemma NewSessionsWork(s: Store, u: UserId, family: FamilyId, raw: Raw, now: Time, later: Time)
    requires MayLogin(s, u) && now <= later < now + REFRESH_TTL
    ensures var s' := Opened(s, u, family, raw, now);
      Accepted(s', Access, PairFor(s, u, raw).access) && RotateError(s', raw, later).None?
  {}

  /** The only steps that can end a session: its user's reset or deactivation, a rotation or
      logout within its family, and the pruning of a long expired token. */
  predicate Disturbs(s: Store, step: Step, raw: Raw)
    requires raw in s.tokens
  {
    var x := s.tokens[raw];
    match step
    case SetActive(u, _) => u == x.user
    case Rotate(r, _, _) => r in s.tokens && s.tokens[r].family == x.family
    case Logout(r, _) => r in s.tokens && s.tokens[r].family == x.family
    case Reset(r, _, now) => ResetWorks(s, r, now) && s.resets[r].user == x.user
    case Prune(now) => x.expiresAt < now - PRUNE_GRACE
    case _ => false
  }

  ghost predicate Undisturbed(s: Store, steps: seq<Step>, raw: Raw)
    requires Valid(s, steps)
    decreases |steps|
  {
    steps == [] || (raw in s.tokens && !Disturbs(s, steps[0], raw) && Undisturbed(Next(s, steps[0]), steps[1..], raw))
  }

  lemma TokenUndisturbed(s: Store, step: Step, raw: Raw)
    requires Enabled(s, step) && raw in s.tokens && raw in s.issued && !Disturbs(s, step, raw)
    ensures raw in Next(s, step).tokens && Next(s, step).tokens[raw] == s.tokens[raw]
  {}

  lemma UserUndisturbed(s: Store, step: Step, raw: Raw)
    requires Enabled(s, step) && raw in s.tokens && !Disturbs(s, step, raw) && s.tokens[raw].user in s.users
    ensures var s' := Next(s, step);
      var u := s.tokens[raw].user;
      && u in s'.users && s'.users[u].active == s.users[u].active && s'.users[u].version == s.users[u].version
  {}

  lemma SignedOnlyGrows(s: Store, step: Step)
    requires Enabled(s, step)
    ensures s.signed <= Next(s, step).signed
  {}

  /** Whatever everybody else does, a session keeps working until it is disturbed or expires:
      its refresh token rotates and its access token is accepted. */
  lemma {:induction false} SessionsAreIsolated(s: Store, steps: seq<Step>, raw: Raw, access: Signed, later: Time)
    requires Inv(s) && Valid(s, steps) && Undisturbed(s, steps, raw)
    requires RotateError(s, raw, later).None? && Accepted(s, Access, access) && access.user == s.tokens[raw].user
    ensures RotateError(Exec(s, steps), raw, later).None? && Accepted(Exec(s, steps), Access, access)
    decreases |steps|
  {
    if steps != [] {
      TokenUndisturbed(s, steps[0], raw);
      UserUndisturbed(s, steps[0], raw);
      SignedOnlyGrows(s, steps[0]);
      InvNext(s, steps[0]);
      SessionsAreIsolated(Next(s, steps[0]), steps[1..], raw, access, later);
    }
  }
}
