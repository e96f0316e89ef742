/** Credentials and refresh-token families: every committed step of the auth service, as values.
    Refresh tokens are unguessable, so a presented token is either a row number or unknown. */
module AuthModel {
  import opened Tables
  import opened Contracts

  datatype Role = Candidate | Interviewer | Admin

  datatype AccessStatus = Active | Blocked | Disabled

  datatype Credential = Credential(
    role: Role,
    active: bool,
    status: AccessStatus,
    emailVerified: bool,
    lifecycleAt: Option<Instant>,
    lifecycleEvent: Option<EventId>)

  datatype RefreshToken = RefreshToken(
    credential: Id,
    family: Id,
    expiresAt: Instant,
    usedAt: Option<Instant>,
    revokedAt: Option<Instant>,
    replacedBy: Option<Id>)

  /** `families` counts the family ids handed out so far, so the next one is fresh. */
  datatype Auth = Auth(
    now: Instant,
    credentials: seq<Credential>,
    tokens: seq<RefreshToken>,
    families: nat,
    revokedAccess: set<Id>)

  datatype Error =
    | InvalidCredentials
    | AccountBlocked
    | AccountDisabled
    | EmailUnverified
    | InvalidAccess
    | AccessRevoked
    | InvalidRefresh
    | RefreshReuse
    | UserNotFound
    | CredentialNotAvailable
    | NotAnInterviewer

  function EmptyAuth(now: Instant): Auth {
    Auth(now, [], [], 0, {})
  }

  function NewCredential(role: Role): Credential {
    Credential(role, true, Active, false, None, None)
  }

  /** What stops a credential from starting or continuing a session. */
  function Barred(credential: Credential): Option<Error> {
    if !credential.active then Some(if credential.status == Blocked then AccountBlocked else AccountDisabled)
    else if !credential.emailVerified then Some(EmailUnverified)
    else None
  }

  function Revoked(token: RefreshToken, now: Instant): RefreshToken {
    if token.revokedAt.None? then token.(revokedAt := Some(now)) else token
  }

  /** UPDATE refresh_tokens SET revoked_at WHERE family_id = family AND revoked_at IS NULL. */
  function RevokeFamily(tokens: seq<RefreshToken>, family: Id, now: Instant): (revoked: seq<RefreshToken>)
    ensures |revoked| == |tokens|
    ensures forall i :: 0 <= i < |tokens| ==>
              revoked[i] == if tokens[i].family == family then Revoked(tokens[i], now) else tokens[i]
  {
    if |tokens| == 0 then []
    else
      var last := tokens[|tokens| - 1];
      RevokeFamily(tokens[..|tokens| - 1], family, now) + [if last.family == family then Revoked(last, now) else last]
  }

  /** UPDATE refresh_tokens SET revoked_at WHERE credential_id = credential AND revoked_at IS NULL. */
  function RevokeCredential(tokens: seq<RefreshToken>, credential: Id, now: Instant): (revoked: seq<RefreshToken>)
    ensures |revoked| == |tokens|
    ensures forall i :: 0 <= i < |tokens| ==>
              revoked[i] == if tokens[i].credential == credential then Revoked(tokens[i], now) else tokens[i]
  {
    if |tokens| == 0 then []
    else
      var last := tokens[|tokens| - 1];
      RevokeCredential(tokens[..|tokens| - 1], credential, now)
      + [if last.credential == credential then Revoked(last, now) else last]
  }

  // ---- steps ----

  function Register(a: Auth, role: Role): Auth {
    a.(credentials := a.credentials + [NewCredential(role)])
  }

  function VerifyEmail(a: Auth, c: Id): Auth {
    if c < |a.credentials| then a.(credentials := a.credentials[c := a.credentials[c].(emailVerified := true)]) else a
  }

  function Login(a: Auth, c: Id, passwordMatches: bool, ttl: int): (Auth, Result<Id, Error>) {
    if c >= |a.credentials| || !passwordMatches then (a, Err(InvalidCredentials))
    else if Barred(a.credentials[c]).Some? then (a, Err(Barred(a.credentials[c]).value))
    else
      (a.(tokens := a.tokens + [RefreshToken(c, a.families, a.now + ttl, None, None, None)],
          families := a.families + 1),
       Ok(|a.tokens|))
  }

  /** Rotation with reuse detection. Reuse and expiry are committed before the error is raised. */
  function Rotate(a: Auth, raw: Id, ttl: int): (Auth, Result<Id, Error>) {
    if raw >= |a.tokens| then (a, Err(InvalidRefresh))
    else
      var current := a.tokens[raw];
      if current.usedAt.Some? || current.revokedAt.Some? then
        (a.(tokens := RevokeFamily(a.tokens, current.family, a.now)), Err(RefreshReuse))
      else if current.expiresAt <= a.now then
        (a.(tokens := a.tokens[raw := current.(revokedAt := Some(a.now))]), Err(InvalidRefresh))
      else if current.credential >= |a.credentials| then (a, Err(InvalidRefresh))
      else if Barred(a.credentials[current.credential]).Some? then
        (a, Err(Barred(a.credentials[current.credential]).value))
      else
        var next := |a.tokens|;
        (a.(tokens := a.tokens[raw := current.(usedAt := Some(a.now), replacedBy := Some(next))]
                      + [RefreshToken(current.credential, current.family, a.now + ttl, None, None, None)]),
         Ok(next))
  }

  /** What an access token of a credential still opens: every route, logout included, checks this first. */
  function Authenticate(a: Auth, c: Id, jti: Id): Result<(), Error> {
    if c >= |a.credentials| then Err(InvalidAccess)
    else if !a.credentials[c].active then Err(Barred(a.credentials[c]).value)
    else if jti in a.revokedAccess then Err(AccessRevoked)
    else if !a.credentials[c].emailVerified then Err(EmailUnverified)
    else Ok(())
  }

  /** The access token is recorded as revoked; recording it twice rolls the whole logout back. */
  function Logout(a: Auth, c: Id, jti: Id, raw: Id): (Auth, Result<(), Error>) {
    if raw < |a.tokens| && a.tokens[raw].credential != c then (a, Err(InvalidRefresh))
    else if jti in a.revokedAccess then (a, Ok(()))
    else
      (a.(tokens := if raw < |a.tokens| then RevokeFamily(a.tokens, a.tokens[raw].family, a.now) else a.tokens,
          revokedAccess := a.revokedAccess + {jti}),
       Ok(()))
  }

  function DisableUser(a: Auth, c: Id): (Auth, Result<(), Error>) {
    if c >= |a.credentials| then (a, Err(UserNotFound))
    else if !a.credentials[c].active then (a, Ok(()))
    else
      (a.(credentials := a.credentials[c := a.credentials[c].(active := false, status := Disabled)],
          tokens := RevokeCredential(a.tokens, c, a.now)),
       Ok(()))
  }

  /** Whether an access event still counts: not seen, not after deletion, and newer than the last. */
  predicate AccessEventCounts(credential: Credential, event: EventId, occurredAt: Instant) {
    && credential.lifecycleEvent != Some(event)
    && credential.status != Disabled
    && !(credential.lifecycleAt.Some? && credential.lifecycleAt.value >= occurredAt)
  }

  function WithAccess(credential: Credential, event: EventId, status: AccessStatus, occurredAt: Instant): Credential {
    credential.(lifecycleEvent := Some(event), lifecycleAt := Some(occurredAt),
                status := status, active := status == Active)
  }

  function ApplyAccessEvent(a: Auth, event: EventId, c: Id, status: AccessStatus, occurredAt: Instant): (Auth,
      Result<bool, Error>) {
    if c >= |a.credentials| then (a, Err(CredentialNotAvailable))
    else if a.credentials[c].role != Interviewer then (a, Err(NotAnInterviewer))
    else if !AccessEventCounts(a.credentials[c], event, occurredAt) then (a, Ok(false))
    else
      (a.(credentials := a.credentials[c := WithAccess(a.credentials[c], event, status, occurredAt)],
          tokens := if status == Active then a.tokens else RevokeCredential(a.tokens, c, a.now)),
       Ok(true))
  }

  datatype Op =
    | TickOp(to: Instant)
    | RegisterOp(role: Role)
    | VerifyEmailOp(verifiedUser: Id)
    | LoginOp(user: Id, passwordMatches: bool, loginTtl: int)
    | RotateOp(raw: Id, ttl: int)
    | LogoutOp(leaving: Id, jti: Id, leavingToken: Id)
    | DisableOp(disabled: Id)
    | AccessOp(event: EventId, subject: Id, status: AccessStatus, occurredAt: Instant)

  function Step(a: Auth, op: Op): Auth {
    match op
    case TickOp(to) => if a.now <= to then a.(now := to) else a
    case RegisterOp(role) => Register(a, role)
    case VerifyEmailOp(c) => VerifyEmail(a, c)
    case LoginOp(c, passwordMatches, ttl) => Login(a, c, passwordMatches, ttl).0
    case RotateOp(raw, ttl) => Rotate(a, raw, ttl).0
    case LogoutOp(c, jti, raw) => Logout(a, c, jti, raw).0
    case DisableOp(c) => DisableUser(a, c).0
    case AccessOp(event, c, status, occurredAt) => ApplyAccessEvent(a, event, c, status, occurredAt).0
  }

  function StepAll(a: Auth, ops: seq<Op>): Auth {
    if |ops| == 0 then a else Step(StepAll(a, ops[..|ops| - 1]), ops[|ops| - 1])
  }
}
