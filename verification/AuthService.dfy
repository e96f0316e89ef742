/** The auth service on its mutable tables. Every method takes the step of AuthModel; whether the
    password matches is a parameter. */
module AuthService {
  import opened Tables
  import opened Contracts
  import opened AuthModel
  import opened AuthSafety

  class AuthService {
    const refreshTtl: int
    var now: Instant
    var credentials: seq<Credential>
    var tokens: seq<RefreshToken>
    var families: nat
    var revokedAccess: set<Id>

    function Model(): Auth
      reads this
    {
      Auth(now, credentials, tokens, families, revokedAccess)
    }

    ghost predicate Valid()
      reads this
    {
      Reachable(Model())
    }

    constructor (refreshTtl: int, now: Instant)
      ensures Valid() && Model() == EmptyAuth(now) && this.refreshTtl == refreshTtl
    {
      this.refreshTtl, this.now := refreshTtl, now;
      credentials, tokens, families, revokedAccess := [], [], 0, {};
      new;
      EmptyIsReachable(now);
    }

    method AdvanceClock(to: Instant)
      requires Valid() && now <= to
      modifies this`now
      ensures Valid() && Model() == old(Model()).(now := to)
    {
      ReachableStep(Model(), TickOp(to));
      now := to;
    }

    method RegisterUser(role: Role)
      requires Valid()
      modifies this`credentials
      ensures Valid() && Model() == Register(old(Model()), role)
    {
      ReachableStep(Model(), RegisterOp(role));
      credentials := credentials + [NewCredential(role)];
    }

    method ConfirmEmail(c: Id)
      requires Valid()
      modifies this`credentials
      ensures Valid() && Model() == VerifyEmail(old(Model()), c)
    {
      ReachableStep(Model(), VerifyEmailOp(c));
      if c < |credentials| {
        credentials := credentials[c := credentials[c].(emailVerified := true)];
      }
    }

    // ---- bulk updates ----

    method RevokeWhereFamily(family: Id)
      modifies this`tokens
      ensures tokens == RevokeFamily(old(tokens), family, now)
    {
      for i := 0 to |tokens|
        invariant |tokens| == |old(tokens)|
        invariant forall k :: i <= k < |tokens| ==> tokens[k] == old(tokens)[k]
        invariant tokens[..i] == RevokeFamily(old(tokens), family, now)[..i]
      {
        if tokens[i].family == family && tokens[i].revokedAt.None? {
          tokens := tokens[i := tokens[i].(revokedAt := Some(now))];
        }
      }
    }

    method RevokeWhereCredential(c: Id)
      modifies this`tokens
      ensures tokens == RevokeCredential(old(tokens), c, now)
    {
      for i := 0 to |tokens|
        invariant |tokens| == |old(tokens)|
        invariant forall k :: i <= k < |tokens| ==> tokens[k] == old(tokens)[k]
        invariant tokens[..i] == RevokeCredential(old(tokens), c, now)[..i]
      {
        if tokens[i].credential == c && tokens[i].revokedAt.None? {
          tokens := tokens[i := tokens[i].(revokedAt := Some(now))];
        }
      }
    }

    // ---- sessions ----

    method StartSession(c: Id, passwordMatches: bool) returns (result: Result<Id, Error>)
      requires Valid()
      modifies this`tokens, this`families
      ensures Valid() && (Model(), result) == Login(old(Model()), c, passwordMatches, refreshTtl)
    {
      ReachableStep(Model(), LoginOp(c, passwordMatches, refreshTtl));
      if c >= |credentials| || !passwordMatches {
        return Err(InvalidCredentials);
      }
      var barred := Barred(credentials[c]);
      if barred.Some? {
        return Err(barred.value);
      }
      result := Ok(|tokens|);
      tokens := tokens + [RefreshToken(c, families, now + refreshTtl, None, None, None)];
      families := families + 1;
    }

    method RotateRefreshToken(raw: Id) returns (result: Result<Id, Error>)
      requires Valid()
      modifies this`tokens
      ensures Valid() && (Model(), result) == Rotate(old(Model()), raw, refreshTtl)
    {
      ReachableStep(Model(), RotateOp(raw, refreshTtl));
      if raw >= |tokens| {
        return Err(InvalidRefresh);
      }
      var current := tokens[raw];
      if current.usedAt.Some? || current.revokedAt.Some? {
        RevokeWhereFamily(current.family);
        return Err(RefreshReuse);
      }
      if current.expiresAt <= now {
        tokens := tokens[raw := current.(revokedAt := Some(now))];
        return Err(InvalidRefresh);
      }
      if current.credential >= |credentials| {
        return Err(InvalidRefresh);
      }
      var barred := Barred(credentials[current.credential]);
      if barred.Some? {
        return Err(barred.value);
      }
      result := Ok(|tokens|);
      tokens := tokens[raw := current.(usedAt := Some(now), replacedBy := Some(|tokens|))]
                + [RefreshToken(current.credential, current.family, now + refreshTtl, None, None, None)];
    }

    /** What every authenticated route checks first, logout included. */
    method AuthenticateAccess(c: Id, jti: Id) returns (result: Result<(), Error>)
      ensures result == Authenticate(Model(), c, jti)
    {
      if c >= |credentials| {
        return Err(InvalidAccess);
      }
      var credential := credentials[c];
      if !credential.active {
        return Err(if credential.status == Blocked then AccountBlocked else AccountDisabled);
      }
      if jti in revokedAccess {
        return Err(AccessRevoked);
      }
      if !credential.emailVerified {
        return Err(EmailUnverified);
      }
      return Ok(());
    }

    method EndSession(c: Id, jti: Id, raw: Id) returns (result: Result<(), Error>)
      requires Valid()
      modifies this`tokens, this`revokedAccess
      ensures Valid() && (Model(), result) == Logout(old(Model()), c, jti, raw)
    {
      ReachableStep(Model(), LogoutOp(c, jti, raw));
      if raw < |tokens| && tokens[raw].credential != c {
        return Err(InvalidRefresh);
      }
      var saved := tokens;
      if raw < |tokens| {
        RevokeWhereFamily(tokens[raw].family);
      }
      if jti in revokedAccess {
        tokens := saved;
      } else {
        revokedAccess := revokedAccess + {jti};
      }
      return Ok(());
    }

    // ---- access ----

    method Disable(c: Id) returns (result: Result<(), Error>)
      requires Valid()
      modifies this`credentials, this`tokens
      ensures Valid() && (Model(), result) == DisableUser(old(Model()), c)
    {
      ReachableStep(Model(), DisableOp(c));
      if c >= |credentials| {
        return Err(UserNotFound);
      }
      if credentials[c].active {
        credentials := credentials[c := credentials[c].(active := false, status := Disabled)];
        RevokeWhereCredential(c);
      }
      return Ok(());
    }

    method ApplyInterviewerAccess(event: EventId, c: Id, status: AccessStatus, occurredAt: Instant)
      returns (result: Result<bool, Error>)
      requires Valid()
      modifies this`credentials, this`tokens
      ensures Valid() && (Model(), result) == ApplyAccessEvent(old(Model()), event, c, status, occurredAt)
    {
      ReachableStep(Model(), AccessOp(event, c, status, occurredAt));
      if c >= |credentials| {
        return Err(CredentialNotAvailable);
      }
      var credential := credentials[c];
      if credential.role != Interviewer {
        return Err(NotAnInterviewer);
      }
      if credential.lifecycleEvent == Some(event) || credential.status == Disabled {
        return Ok(false);
      }
      if credential.lifecycleAt.Some? && credential.lifecycleAt.value >= occurredAt {
        return Ok(false);
      }
      credentials := credentials[c := WithAccess(credential, event, status, occurredAt)];
      if status != Active {
        RevokeWhereCredential(c);
      }
      return Ok(true);
    }
  }
}
