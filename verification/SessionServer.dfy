/** The session service's own code, updating the tables in place. */
module SessionServer {
  import opened Wrappers
  import opened Sessions

  /** A refresh token that is known, neither revoked nor exchanged, not expired, and of an
      active user. */
  ghost predicate Rotatable(users: map<UserId, User>, tokens: map<Raw, RefreshToken>, raw: Raw, now: Time) {
    && raw in tokens && tokens[raw].revokedAt.None? && tokens[raw].consumedAt.None?
    && now < tokens[raw].expiresAt
    && tokens[raw].user in users && users[tokens[raw].user].active
  }

  class SessionService {
    var users: map<UserId, User>
    var tokens: map<Raw, RefreshToken>
    var resets: map<Raw, ResetToken>
    ghost var issued: map<Raw, FamilyId>
    ghost var families: map<FamilyId, UserId>
    ghost var dead: set<FamilyId>
    ghost var exchanged: seq<Raw>
    ghost var signed: set<Signed>
    ghost var issuedAt: map<Raw, Time>

    ghost function View(): Store
      reads this
    {
      Store(users, tokens, resets, issued, families, dead, exchanged, signed, issuedAt)
    }

    constructor ()
      ensures View() == EMPTY
    {
      users, tokens, resets := map[], map[], map[];
      issued, families, dead, exchanged, signed, issuedAt := map[], map[], {}, [], {}, map[];
    }

    method Mint(user: UserId, family: FamilyId, raw: Raw, now: Time) returns (pair: Pair)
      requires user in users
      modifies this
      ensures View() == Minted(old(View()), user, family, raw, now)
      ensures tokens == old(tokens)[raw := RefreshToken(user, family, now + 30 * 24 * 3600, None, None)]
      ensures pair == Pair(Signed(Access, user, users[user].version), raw) == PairFor(old(View()), user, raw)
    {
      tokens := tokens[raw := RefreshToken(user, family, now + REFRESH_TTL, None, None)];
      issued, issuedAt := issued[raw := family], issuedAt[raw := now];
      var access := Signed(Access, user, users[user].version);
      signed := signed + {access};
      pair := Pair(access, raw);
    }

    method IssueSession(user: UserId, family: FamilyId, raw: Raw, now: Time) returns (pair: Pair)
      requires user in users
      modifies this
      ensures View() == Opened(old(View()), user, family, raw, now)
      ensures tokens == old(tokens)[raw := RefreshToken(user, family, now + 30 * 24 * 3600, None, None)]
      ensures pair == Pair(Signed(Access, user, users[user].version), raw) == PairFor(old(View()), user, raw)
    {
      pair := Mint(user, family, raw, now);
      families := families[family := user];
    }

    method RevokeFamily(family: FamilyId, now: Time)
      modifies this
      ensures View() == FamilyRevoked(old(View()), family, now)
      ensures tokens.Keys == old(tokens).Keys && forall r :: r in tokens ==>
        tokens[r] == if old(tokens)[r].family == family && old(tokens)[r].revokedAt.None?
                     then old(tokens)[r].(revokedAt := Some(now)) else old(tokens)[r]
    {
      tokens := map r | r in tokens :: if tokens[r].family == family then Stamp(tokens[r], now) else tokens[r];
      dead := dead + {family};
    }

    /** Rotation with its exits in the program's order. */
    method RotateRefresh(raw: Raw, minted: Raw, now: Time) returns (result: Result<Pair, Error>)
      modifies this
      ensures View() == Rotated(old(View()), raw, minted, now)
      ensures match RotateError(old(View()), raw, now)
              case Some(e) => result == Err(e)
              case None => result == Ok(PairFor(old(View()), old(tokens[raw].user), minted))
      ensures result.Ok? <==> Rotatable(old(users), old(tokens), raw, now)
      ensures result == Err(RefreshReused) <==>
        raw in old(tokens) && old(tokens)[raw].revokedAt.None? && old(tokens)[raw].consumedAt.Some?
      ensures result.Err? && result.error != RefreshReused ==> result.error == InvalidRefresh && View() == old(View())
      ensures result.Ok? ==>
        var x := old(tokens)[raw];
        && tokens == old(tokens)[raw := x.(consumedAt := Some(now))]
                                [minted := RefreshToken(x.user, x.family, now + 30 * 24 * 3600, None, None)]
        && result.value == Pair(Signed(Access, x.user, old(users)[x.user].version), minted) && users == old(users)
    {
      if raw !in tokens { return Err(InvalidRefresh); }
      var token := tokens[raw];
      if token.revokedAt.Some? { return Err(InvalidRefresh); }
      if token.consumedAt.Some? {
        RevokeFamily(token.family, now);
        return Err(RefreshReused);
      }
      if token.expiresAt <= now { return Err(InvalidRefresh); }
      if token.user !in users || !users[token.user].active { return Err(InvalidRefresh); }
      tokens := tokens[raw := token.(consumedAt := Some(now))];
      exchanged := exchanged + [raw];
      var pair := Mint(token.user, token.family, minted, now);
      result := Ok(pair);
    }

    /** The endpoint: commit on success and on reuse, roll back on any other error. */
    method Refresh(raw: Raw, minted: Raw, now: Time) returns (result: Result<Pair, Error>)
      requires Inv(View()) && minted !in issued
      modifies this
      ensures Inv(View())
      ensures result.Ok? <==> Rotatable(old(users), old(tokens), raw, now)
      ensures result.Ok? ==>
        var x := old(tokens)[raw];
        && tokens == old(tokens)[raw := x.(consumedAt := Some(now))]
                                [minted := RefreshToken(x.user, x.family, now + 30 * 24 * 3600, None, None)]
        && result.value == Pair(Signed(Access, x.user, old(users)[x.user].version), minted) && users == old(users)
      ensures result == Err(RefreshReused) <==>
        raw in old(tokens) && old(tokens)[raw].revokedAt.None? && old(tokens)[raw].consumedAt.Some?
      ensures result == Err(RefreshReused) ==> (
        && tokens.Keys == old(tokens.Keys)
        && forall r :: r in tokens && tokens[r].family == old(tokens)[raw].family ==> tokens[r].revokedAt.Some?)
      ensures result.Err? && result.error != RefreshReused ==> result.error == InvalidRefresh && View() == old(View())
    {
      var savedUsers, savedTokens := users, tokens;
      RotateKeepsInv(View(), raw, minted, now);
      result := RotateRefresh(raw, minted, now);
      if result.Err? && result.error != RefreshReused {
        users, tokens := savedUsers, savedTokens;
      }
    }

    method RevokeSession(raw: Raw, now: Time)
      modifies this
      ensures View() == LoggedOut(old(View()), raw, now)
      ensures tokens.Keys == old(tokens).Keys && forall r :: r in tokens ==>
        tokens[r] == if raw in old(tokens) && old(tokens)[r].family == old(tokens)[raw].family
                        && old(tokens)[r].revokedAt.None?
                     then old(tokens)[r].(revokedAt := Some(now)) else old(tokens)[r]
    {
      if raw in tokens { RevokeFamily(tokens[raw].family, now); }
    }

    method RevokeAllSessions(user: UserId, now: Time)
      requires user in users
      modifies this
      ensures View() == AllRevoked(old(View()), user, now)
      ensures tokens.Keys == old(tokens).Keys && forall r :: r in tokens ==>
        tokens[r] == if old(tokens)[r].user == user && old(tokens)[r].revokedAt.None?
                     then old(tokens)[r].(revokedAt := Some(now)) else old(tokens)[r]
      ensures users[user].version == old(users)[user].version + 1
    {
      tokens := map r | r in tokens :: if tokens[r].user == user then Stamp(tokens[r], now) else tokens[r];
      users := users[user := users[user].(version := users[user].version + 1)];
      dead := dead + set f | f in families && families[f] == user;
    }

    method ResetPassword(raw: Raw, password: nat, now: Time) returns (result: Result<UserId, Error>)
      modifies this
      ensures View() == WasReset(old(View()), raw, password, now)
      ensures result.Ok? <==>
        && raw in old(resets) && old(resets)[raw].consumedAt.None? && now < old(resets)[raw].expiresAt
        && old(resets)[raw].user in old(users) && old(users)[old(resets)[raw].user].active
      ensures result.Err? ==> result.error == InvalidToken && View() == old(View())
      ensures result.Ok? ==>
        var u := old(resets)[raw].user;
        && result.value == u && resets == old(resets)[raw := old(resets)[raw].(consumedAt := Some(now))]
        && users == old(users)[u := old(users)[u].(password := password, verified := true,
                                                    version := old(users)[u].version + 1)]
        && tokens.Keys == old(tokens).Keys
        && forall r :: r in tokens && tokens[r].user == u ==> tokens[r].revokedAt.Some?
    {
      if raw !in resets || resets[raw].consumedAt.Some? || resets[raw].expiresAt <= now { return Err(InvalidToken); }
      var u := resets[raw].user;
      if u !in users || !users[u].active { return Err(InvalidToken); }
      resets := resets[raw := resets[raw].(consumedAt := Some(now))];
      users := users[u := users[u].(password := password)];
      if !users[u].verified { users := users[u := users[u].(verified := true)]; }
      assert users == old(users)[u := old(users)[u].(password := password, verified := true)];
      RevokeAllSessions(u, now);
      result := Ok(u);
    }

    method ResolveUser(token: Signed) returns (result: Result<UserId, Error>)
      requires token in signed
      ensures result.Ok? <==> Accepted(View(), Access, token)
      ensures result.Ok? <==>
        token.kind == Access && token.user in users && users[token.user].active && users[token.user].version == token.version
      ensures result == if result.Ok? then Ok(token.user) else Err(Unauthorized)
    {
      if token.kind != Access { return Err(Unauthorized); }
      if token.user !in users || !users[token.user].active { return Err(Unauthorized); }
      if users[token.user].version != token.version { return Err(Unauthorized); }
      result := Ok(token.user);
    }

    method CompleteChallenge(token: Signed, codeOk: bool, family: FamilyId, raw: Raw, now: Time)
      returns (result: Result<Pair, Error>)
      requires token in signed
      modifies this
      ensures ChallengeWorks(old(View()), token, codeOk) <==>
        && token.kind == Mfa && token.user in old(users) && old(users)[token.user].active
        && old(users)[token.user].version == token.version && old(users)[token.user].mfaEnabled && codeOk
      ensures ChallengeWorks(old(View()), token, codeOk) ==>
        View() == Opened(old(View()), token.user, family, raw, now)
        && result == Ok(PairFor(old(View()), token.user, raw))
      ensures !ChallengeWorks(old(View()), token, codeOk) ==> View() == old(View()) && result == Err(Unauthorized)
    {
      if token.kind != Mfa || token.user !in users || !users[token.user].active
         || users[token.user].version != token.version || !users[token.user].mfaEnabled || !codeOk {
        return Err(Unauthorized);
      }
      var pair := IssueSession(token.user, family, raw, now);
      result := Ok(pair);
    }

    method PruneTokens(now: Time)
      modifies this
      ensures View() == Kept(old(View()), now)
      ensures forall r :: r in tokens <==> r in old(tokens) && now - 7 * 24 * 3600 <= old(tokens)[r].expiresAt
      ensures forall r :: r in tokens ==> tokens[r] == old(tokens)[r]
      ensures forall r :: r in resets <==> r in old(resets) && now - 7 * 24 * 3600 <= old(resets)[r].expiresAt
      ensures forall r :: r in resets ==> resets[r] == old(resets)[r]
    {
      var cutoff := now - PRUNE_GRACE;
      tokens := map r | r in tokens && !(tokens[r].expiresAt < cutoff) :: tokens[r];
      resets := map r | r in resets && !(resets[r].expiresAt < cutoff) :: resets[r];
    }
  }
}
