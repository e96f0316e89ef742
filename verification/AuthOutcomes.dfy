/** When each operation on accounts and sessions succeeds and what it then leaves behind, stated on the
    tables themselves. */
module AuthOutcomes {
  import opened Tables
  import opened Contracts
  import opened AuthModel
  import opened AuthSafety

  /** A new account waits for its e-mail address to be verified, and can then open a session. */
  lemma RegisterOutcome(a: Auth, role: Role, ttl: int)
    ensures var registered := Register(a, role);
            && Login(registered, |a.credentials|, true, ttl).1 == Err(EmailUnverified)
            && Login(VerifyEmail(registered, |a.credentials|), |a.credentials|, true, ttl).1 == Ok(|a.tokens|)
            && registered == a.(credentials := registered.credentials)
            && registered.credentials[..|a.credentials|] == a.credentials
            && registered.credentials[|a.credentials|].role == role
  {
  }

  /** A session opens iff the account exists, the password matches, and the account is active and verified.
      It is one unused token of a family nobody has yet; a refusal leaves everything as it was. */
  lemma LoginOutcome(a: Auth, c: Id, passwordMatches: bool, ttl: int)
    requires Inv(a)
    ensures var (a', r) := Login(a, c, passwordMatches, ttl);
            && (r.Ok? <==> c < |a.credentials| && passwordMatches
                           && a.credentials[c].active && a.credentials[c].emailVerified)
            && (r.Ok? ==>
                  && r.value == |a.tokens|
                  && a' == a.(tokens := a.tokens + [RefreshToken(c, a.families, a.now + ttl, None, None, None)],
                              families := a.families + 1)
                  && forall t :: t in a.tokens ==> t.family != a.families)
            && (r.Err? ==> a' == a)
            && (r == Err(InvalidCredentials) <==> c >= |a.credentials| || !passwordMatches)
            && (r == Err(AccountBlocked) <==>
                  c < |a.credentials| && passwordMatches && a.credentials[c].status == Blocked)
            && (r == Err(AccountDisabled) <==>
                  c < |a.credentials| && passwordMatches && a.credentials[c].status == Disabled)
            && (r == Err(EmailUnverified) <==>
                  && c < |a.credentials| && passwordMatches && a.credentials[c].status == Active
                  && !a.credentials[c].emailVerified)
  {
  }

  /** The token is known, was neither used nor revoked, and has not expired. */
  predicate Usable(a: Auth, raw: Id) {
    && raw < |a.tokens| && a.tokens[raw].usedAt.None? && a.tokens[raw].revokedAt.None?
    && a.now < a.tokens[raw].expiresAt
  }

  /** A session continues iff its token is usable and its account still active and verified; the token is
      spent and its successor stays in the family. */
  lemma RotateOutcome(a: Auth, raw: Id, ttl: int)
    requires Inv(a)
    ensures var (a', r) := Rotate(a, raw, ttl);
            && (r.Ok? <==>
                  && Usable(a, raw) && a.tokens[raw].credential < |a.credentials|
                  && a.credentials[a.tokens[raw].credential].active
                  && a.credentials[a.tokens[raw].credential].emailVerified)
            && (r.Ok? ==>
                  && r.value == |a.tokens| && a' == a.(tokens := a'.tokens) && |a'.tokens| == |a.tokens| + 1
                  && a'.tokens[raw] == a.tokens[raw].(usedAt := Some(a.now), replacedBy := Some(|a.tokens|))
                  && a'.tokens[|a.tokens|] == RefreshToken(a.tokens[raw].credential, a.tokens[raw].family,
                                                           a.now + ttl, None, None, None)
                  && forall i :: 0 <= i < |a.tokens| && i != raw ==> a'.tokens[i] == a.tokens[i])
  {
  }

  /** What a refused rotation leaves: reuse revokes the family, expiry the token, anything else nothing. */
  lemma RotateRefused(a: Auth, raw: Id, ttl: int)
    requires Inv(a) && Rotate(a, raw, ttl).1.Err?
    ensures var (a', r) := Rotate(a, raw, ttl);
            && a' == a.(tokens := a'.tokens) && |a'.tokens| == |a.tokens|
            && (r == Err(RefreshReuse) <==>
                  raw < |a.tokens| && (a.tokens[raw].usedAt.Some? || a.tokens[raw].revokedAt.Some?))
            && forall i :: 0 <= i < |a.tokens| ==>
                 a'.tokens[i] ==
                 if && a.tokens[i].revokedAt.None?
                    && (if r == Err(RefreshReuse) then a.tokens[i].family == a.tokens[raw].family
                        else i == raw && a.tokens[raw].expiresAt <= a.now)
                 then a.tokens[i].(revokedAt := Some(a.now)) else a.tokens[i]
  {
  }

  /** An access token opens something iff its account is active and verified and it was not revoked. */
  lemma AuthenticateOutcome(a: Auth, c: Id, jti: Id)
    requires Inv(a)
    ensures var r := Authenticate(a, c, jti);
            && (r.Ok? <==> && c < |a.credentials| && a.credentials[c].active && a.credentials[c].emailVerified
                           && jti !in a.revokedAccess)
            && (r == Err(AccountBlocked) <==> c < |a.credentials| && a.credentials[c].status == Blocked)
            && (r == Err(AccountDisabled) <==> c < |a.credentials| && a.credentials[c].status == Disabled)
            && (r == Err(AccessRevoked) <==>
                  c < |a.credentials| && a.credentials[c].status == Active && jti in a.revokedAccess)
            && (r == Err(EmailUnverified) <==>
                  && c < |a.credentials| && a.credentials[c].status == Active && jti !in a.revokedAccess
                  && !a.credentials[c].emailVerified)
  {
  }

  /** Nobody logs out with a token of somebody else. */
  lemma LogoutRefused(a: Auth, c: Id, jti: Id, raw: Id)
    requires raw < |a.tokens| && a.tokens[raw].credential != c
    ensures Logout(a, c, jti, raw) == (a, Err(InvalidRefresh))
  {
  }

  /** Every token of the account that was not revoked is revoked now, and no other token changes. */
  ghost predicate SignedOut(a: Auth, a': Auth, c: Id) {
    && |a'.tokens| == |a.tokens|
    && forall i :: 0 <= i < |a.tokens| ==>
         a'.tokens[i] == if a.tokens[i].credential == c && a.tokens[i].revokedAt.None?
                         then a.tokens[i].(revokedAt := Some(a.now)) else a.tokens[i]
  }

  /** Disabling an active account signs it out everywhere; disabling it again, or after a block, changes
      nothing. */
  lemma DisableOutcome(a: Auth, c: Id)
    requires Inv(a)
    ensures var (a', r) := DisableUser(a, c);
            && r == (if c < |a.credentials| then Ok(()) else Err(UserNotFound))
            && if c < |a.credentials| && a.credentials[c].status == Active then
                 && a' == a.(tokens := a'.tokens, credentials := a'.credentials) && SignedOut(a, a', c)
                 && a'.credentials == a.credentials[c := a.credentials[c].(active := false, status := Disabled)]
               else a' == a
  {
  }

  /** An access event counts iff it is not the last one again, the account is not disabled, and it is newer
      than the last; it then sets the access, and signs the account out unless it becomes active. */
  lemma AccessOutcome(a: Auth, event: EventId, c: Id, status: AccessStatus, at: Instant)
    requires Inv(a) && c < |a.credentials| && a.credentials[c].role == Interviewer
    ensures var (a', r) := ApplyAccessEvent(a, event, c, status, at);
            var was := a.credentials[c];
            && r == Ok(was.lifecycleEvent != Some(event) && was.status != Disabled
                       && (was.lifecycleAt.Some? ==> was.lifecycleAt.value < at))
            && if r == Ok(true) then
                 && a' == a.(tokens := a'.tokens, credentials := a'.credentials)
                 && a'.credentials == a.credentials[c := Credential(Interviewer, status == Active, status,
                                                                    was.emailVerified, Some(at), Some(event))]
                 && (if status == Active then a'.tokens == a.tokens else SignedOut(a, a', c))
               else a' == a
  {
  }

  /** An access event about nobody, or about somebody who is no interviewer, is refused. */
  lemma AccessRefused(a: Auth, event: EventId, c: Id, status: AccessStatus, at: Instant)
    ensures c >= |a.credentials| ==> ApplyAccessEvent(a, event, c, status, at) == (a, Err(CredentialNotAvailable))
    ensures c < |a.credentials| && a.credentials[c].role != Interviewer ==>
              ApplyAccessEvent(a, event, c, status, at) == (a, Err(NotAnInterviewer))
  {
  }
}
