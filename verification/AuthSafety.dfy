/** Refresh families are single chains, reuse kills a family for good, and a barred account
    keeps no usable token: what every auth step keeps. */
module AuthSafety {
  import opened Tables
  import opened Contracts
  import opened AuthModel

  /** The rows of a family, oldest first. */
  function Members(tokens: seq<RefreshToken>, family: Id): seq<Id> {
    if |tokens| == 0 then []
    else
      Members(tokens[..|tokens| - 1], family)
      + (if tokens[|tokens| - 1].family == family then [|tokens| - 1] else [])
  }

  /** One chain of replacements of one credential: every token but the newest has been used and
      names its successor, and the newest has never been used. */
  ghost predicate IsChain(tokens: seq<RefreshToken>, rows: seq<Id>) {
    && (forall k :: 0 <= k < |rows| ==> rows[k] < |tokens|)
    && (forall k :: 0 <= k < |rows| ==> tokens[rows[k]].credential == tokens[rows[0]].credential)
    && (forall k :: 0 <= k < |rows| - 1 ==> LinksOn(tokens, rows, k))
    && (|rows| > 0 ==> var head := tokens[rows[|rows| - 1]]; head.usedAt.None? && head.replacedBy.None?)
  }

  /** Token `k` of the chain has been used and names the next one. */
  ghost predicate LinksOn(tokens: seq<RefreshToken>, rows: seq<Id>, k: nat)
    requires k < |rows| - 1 && rows[k] < |tokens|
  {
    tokens[rows[k]].usedAt.Some? && tokens[rows[k]].replacedBy == Some(rows[k + 1])
  }

  ghost predicate FamiliesOk(tokens: seq<RefreshToken>, families: nat) {
    && (forall i :: 0 <= i < |tokens| ==> tokens[i].family < families)
    && (forall family :: IsChain(tokens, Members(tokens, family)))
  }

  /** An account that is not active has no unrevoked refresh token. */
  ghost predicate InactiveIsRevoked(credentials: seq<Credential>, tokens: seq<RefreshToken>) {
    forall i :: 0 <= i < |tokens| ==>
      && tokens[i].credential < |credentials|
      && (!credentials[tokens[i].credential].active ==> tokens[i].revokedAt.Some?)
  }

  ghost predicate StatusOk(credentials: seq<Credential>) {
    forall c :: 0 <= c < |credentials| ==> (credentials[c].active <==> credentials[c].status == Active)
  }

  ghost predicate Inv(a: Auth) {
    && FamiliesOk(a.tokens, a.families)
    && InactiveIsRevoked(a.credentials, a.tokens)
    && StatusOk(a.credentials)
  }

  lemma EmptyOk(now: Instant)
    ensures Inv(EmptyAuth(now))
  {
  }

  // ---- members ----

  lemma {:induction false} MembersAre(tokens: seq<RefreshToken>, family: Id)
    ensures forall i: Id :: i in Members(tokens, family) <==> i < |tokens| && tokens[i].family == family
    ensures forall j, k :: 0 <= j < k < |Members(tokens, family)| ==>
              Members(tokens, family)[j] < Members(tokens, family)[k]
  {
    if |tokens| == 0 {
    } else {
      var init := tokens[..|tokens| - 1];
      MembersAre(init, family);
      forall k | 0 <= k < |Members(init, family)| ensures Members(init, family)[k] < |init| {
        assert Members(init, family)[k] in Members(init, family);
      }
    }
  }

  lemma MembersAppend(tokens: seq<RefreshToken>, token: RefreshToken, family: Id)
    ensures Members(tokens + [token], family) ==
            Members(tokens, family) + (if token.family == family then [|tokens|] else [])
  {
    assert (tokens + [token])[..|tokens|] == tokens;
  }

  /** Rows keep their family, credential and place in the chain. */
  ghost predicate SameLinks(before: seq<RefreshToken>, after: seq<RefreshToken>) {
    && |before| == |after|
    && forall i :: 0 <= i < |before| ==>
         && after[i].family == before[i].family
         && after[i].credential == before[i].credential
         && after[i].usedAt == before[i].usedAt
         && after[i].replacedBy == before[i].replacedBy
  }

  lemma {:induction false} MembersSame(before: seq<RefreshToken>, after: seq<RefreshToken>, family: Id)
    requires |before| == |after| && forall i :: 0 <= i < |before| ==> after[i].family == before[i].family
    ensures Members(after, family) == Members(before, family)
  {
    if |before| == 0 {
    } else {
      MembersSame(before[..|before| - 1], after[..|after| - 1], family);
    }
  }

  lemma SameLinksKeep(before: seq<RefreshToken>, after: seq<RefreshToken>, families: nat)
    requires FamiliesOk(before, families) && SameLinks(before, after)
    ensures FamiliesOk(after, families)
  {
    forall family ensures IsChain(after, Members(after, family)) {
      MembersSame(before, after, family);
      assert IsChain(before, Members(before, family));
      ChainSurvives(before, after, Members(before, family));
    }
  }

  /** A chain stays one while its rows keep their links and credentials. */
  lemma ChainSurvives(before: seq<RefreshToken>, after: seq<RefreshToken>, rows: seq<Id>)
    requires IsChain(before, rows) && |before| <= |after|
    requires forall k :: 0 <= k < |rows| ==> KeepsLinks(before[rows[k]], after[rows[k]])
    ensures IsChain(after, rows)
  {
    forall k | 0 <= k < |rows| - 1 ensures LinksOn(after, rows, k) {
      assert LinksOn(before, rows, k) && KeepsLinks(before[rows[k]], after[rows[k]]);
    }
    if |rows| > 0 {
      assert KeepsLinks(before[rows[|rows| - 1]], after[rows[|rows| - 1]]);
    }
  }

  /** The columns that a chain looks at. */
  predicate KeepsLinks(before: RefreshToken, after: RefreshToken) {
    after.credential == before.credential && after.usedAt == before.usedAt && after.replacedBy == before.replacedBy
  }

  /** The only token of a family that has not been used is its newest. */
  lemma UnusedIsHead(tokens: seq<RefreshToken>, families: nat, i: Id)
    requires FamiliesOk(tokens, families) && i < |tokens| && tokens[i].usedAt.None?
    ensures var rows := Members(tokens, tokens[i].family); |rows| > 0 && rows[|rows| - 1] == i
  {
    var rows := Members(tokens, tokens[i].family);
    MembersAre(tokens, tokens[i].family);
    assert IsChain(tokens, rows);
    assert i in rows;
    var k :| 0 <= k < |rows| && rows[k] == i;
    assert k < |rows| - 1 ==> LinksOn(tokens, rows, k);
  }

  // ---- rotation extends one chain ----

  function Used(tokens: seq<RefreshToken>, i: Id, now: Instant): seq<RefreshToken>
    requires i < |tokens|
  {
    tokens[i := tokens[i].(usedAt := Some(now), replacedBy := Some(|tokens|))]
  }

  lemma RotationExtends(tokens: seq<RefreshToken>, families: nat, i: Id, now: Instant, issued: RefreshToken, family: Id)
    requires FamiliesOk(tokens, families) && i < |tokens| && tokens[i].usedAt.None?
    requires issued.family == tokens[i].family && issued.credential == tokens[i].credential
    requires issued.usedAt.None? && issued.replacedBy.None?
    ensures IsChain(Used(tokens, i, now) + [issued], Members(Used(tokens, i, now) + [issued], family))
    ensures Members(Used(tokens, i, now) + [issued], family)
         == Members(tokens, family) + (if tokens[i].family == family then [|tokens|] else [])
    ensures tokens[i].family != family ==>
              forall k :: k in Members(tokens, family) ==> (Used(tokens, i, now) + [issued])[k] == tokens[k]
  {
    var used := Used(tokens, i, now);
    var rows := Members(tokens, family);
    MembersSame(tokens, used, family);
    MembersAppend(used, issued, family);
    MembersAre(tokens, family);
    assert IsChain(tokens, rows);
    if tokens[i].family == family {
      UnusedIsHead(tokens, families, i);
      HeadIsReplaced(tokens, rows, i, now, issued);
    } else {
      assert i !in rows;
      OtherChainStays(tokens, rows, i, now, issued);
      assert rows + [] == rows;
    }
  }

  /** Using the head of a chain and appending its replacement gives a longer chain. */
  lemma HeadIsReplaced(tokens: seq<RefreshToken>, rows: seq<Id>, i: Id, now: Instant, issued: RefreshToken)
    requires i < |tokens| && IsChain(tokens, rows) && |rows| > 0 && rows[|rows| - 1] == i
    requires forall j, k :: 0 <= j < k < |rows| ==> rows[j] < rows[k]
    requires issued.credential == tokens[i].credential && issued.usedAt.None? && issued.replacedBy.None?
    ensures IsChain(Used(tokens, i, now) + [issued], rows + [|tokens|])
  {
    var after, longer := Used(tokens, i, now) + [issued], rows + [|tokens|];
    forall k | 0 <= k < |longer| - 1 ensures LinksOn(after, longer, k) {
      if k < |rows| - 1 {
        assert LinksOn(tokens, rows, k) && rows[k] < rows[|rows| - 1];
      }
    }
    forall k | 0 <= k < |longer| ensures after[longer[k]].credential == after[longer[0]].credential {
      if k < |rows| {
        assert tokens[rows[k]].credential == tokens[rows[0]].credential;
      } else {
        assert tokens[rows[|rows| - 1]].credential == tokens[rows[0]].credential;
      }
    }
  }

  lemma OtherChainStays(tokens: seq<RefreshToken>, rows: seq<Id>, i: Id, now: Instant, issued: RefreshToken)
    requires i < |tokens| && IsChain(tokens, rows) && i !in rows
    ensures IsChain(Used(tokens, i, now) + [issued], rows)
  {
    forall k | 0 <= k < |rows| ensures KeepsLinks(tokens[rows[k]], (Used(tokens, i, now) + [issued])[rows[k]]) {
      assert rows[k] in rows;
    }
    ChainSurvives(tokens, Used(tokens, i, now) + [issued], rows);
  }

  lemma {:induction false} UnknownFamilyIsEmpty(tokens: seq<RefreshToken>, family: Id)
    requires forall i :: 0 <= i < |tokens| ==> tokens[i].family != family
    ensures Members(tokens, family) == []
  {
    if |tokens| == 0 {
    } else {
      UnknownFamilyIsEmpty(tokens[..|tokens| - 1], family);
    }
  }

  lemma ChainSurvivesAppend(tokens: seq<RefreshToken>, rows: seq<Id>, issued: RefreshToken)
    requires IsChain(tokens, rows)
    ensures IsChain(tokens + [issued], rows)
  {
    ChainSurvives(tokens, tokens + [issued], rows);
  }

  lemma NewFamilyIsChain(tokens: seq<RefreshToken>, families: nat, issued: RefreshToken, family: Id)
    requires FamiliesOk(tokens, families) && issued.family == families && issued.usedAt.None? && issued.replacedBy.None?
    ensures IsChain(tokens + [issued], Members(tokens + [issued], family))
  {
    MembersAppend(tokens, issued, family);
    if family == families {
      UnknownFamilyIsEmpty(tokens, family);
      assert Members(tokens + [issued], family) == [|tokens|];
    } else {
      assert IsChain(tokens, Members(tokens, family));
      ChainSurvivesAppend(tokens, Members(tokens, family), issued);
      assert Members(tokens, family) + [] == Members(tokens, family);
    }
  }

  lemma RotatedIsOk(tokens: seq<RefreshToken>, families: nat, raw: Id, now: Instant, issued: RefreshToken)
    requires FamiliesOk(tokens, families) && raw < |tokens| && tokens[raw].usedAt.None?
    requires issued.family == tokens[raw].family && issued.credential == tokens[raw].credential
    requires issued.usedAt.None? && issued.replacedBy.None?
    ensures FamiliesOk(Used(tokens, raw, now) + [issued], families)
  {
    var after := Used(tokens, raw, now) + [issued];
    forall family ensures IsChain(after, Members(after, family)) {
      RotationExtends(tokens, families, raw, now, issued, family);
    }
  }

  lemma RotateKeeps(a: Auth, raw: Id, ttl: int)
    requires Inv(a)
    ensures Inv(Rotate(a, raw, ttl).0)
  {
    var after := Rotate(a, raw, ttl).0;
    if raw < |a.tokens| {
      if Rotate(a, raw, ttl).1.Ok? {
        RotatedIsOk(a.tokens, a.families, raw, a.now, after.tokens[|a.tokens|]);
      } else {
        SameLinksKeep(a.tokens, after.tokens, a.families);
      }
    }
  }

  lemma LoginKeeps(a: Auth, c: Id, passwordMatches: bool, ttl: int)
    requires Inv(a)
    ensures Inv(Login(a, c, passwordMatches, ttl).0)
  {
    if Login(a, c, passwordMatches, ttl).1.Ok? {
      var issued := RefreshToken(c, a.families, a.now + ttl, None, None, None);
      forall family ensures IsChain(a.tokens + [issued], Members(a.tokens + [issued], family)) {
        NewFamilyIsChain(a.tokens, a.families, issued, family);
      }
    }
  }

  lemma LogoutKeeps(a: Auth, c: Id, jti: Id, raw: Id)
    requires Inv(a)
    ensures Inv(Logout(a, c, jti, raw).0)
  {
    SameLinksKeep(a.tokens, Logout(a, c, jti, raw).0.tokens, a.families);
  }

  lemma DisableKeeps(a: Auth, c: Id)
    requires Inv(a)
    ensures Inv(DisableUser(a, c).0)
  {
    SameLinksKeep(a.tokens, DisableUser(a, c).0.tokens, a.families);
  }

  lemma AccessKeeps(a: Auth, event: EventId, c: Id, status: AccessStatus, occurredAt: Instant)
    requires Inv(a)
    ensures Inv(ApplyAccessEvent(a, event, c, status, occurredAt).0)
  {
    SameLinksKeep(a.tokens, ApplyAccessEvent(a, event, c, status, occurredAt).0.tokens, a.families);
  }

  lemma StepKeeps(a: Auth, op: Op)
    requires Inv(a)
    ensures Inv(Step(a, op))
  {
    match op {
      case LoginOp(c, passwordMatches, ttl) => LoginKeeps(a, c, passwordMatches, ttl);
      case RotateOp(raw, ttl) => RotateKeeps(a, raw, ttl);
      case LogoutOp(c, jti, raw) => LogoutKeeps(a, c, jti, raw);
      case DisableOp(c) => DisableKeeps(a, c);
      case AccessOp(event, c, status, occurredAt) => AccessKeeps(a, event, c, status, occurredAt);
      case _ =>
    }
  }

  lemma {:induction false} RunKeeps(a: Auth, ops: seq<Op>)
    requires Inv(a)
    ensures Inv(StepAll(a, ops))
  {
    if |ops| == 0 {
    } else {
      RunKeeps(a, ops[..|ops| - 1]);
      StepKeeps(StepAll(a, ops[..|ops| - 1]), ops[|ops| - 1]);
    }
  }

  // ---- what holds in every run ----

  /** Every family is one replacement chain of a single credential, and exactly one of its tokens,
      the last of the chain, has never been used. */
  lemma {:induction false} FamiliesAreChains(now: Instant, ops: seq<Op>, family: Id)
    ensures var tokens := StepAll(EmptyAuth(now), ops).tokens;
            var rows := Members(tokens, family);
            && IsChain(tokens, rows)
            && (forall i: Id :: i in rows <==> i < |tokens| && tokens[i].family == family)
            && (|rows| > 0 ==> forall i :: i in rows ==> (tokens[i].usedAt.None? <==> i == rows[|rows| - 1]))
  {
    EmptyOk(now);
    RunKeeps(EmptyAuth(now), ops);
    ChainHasOneHead(StepAll(EmptyAuth(now), ops), family);
  }

  lemma ChainHasOneHead(a: Auth, family: Id)
    requires Inv(a)
    ensures var rows := Members(a.tokens, family);
            && IsChain(a.tokens, rows)
            && (forall i: Id :: i in rows <==> i < |a.tokens| && a.tokens[i].family == family)
            && (|rows| > 0 ==> forall i :: i in rows ==> (a.tokens[i].usedAt.None? <==> i == rows[|rows| - 1]))
  {
    var rows := Members(a.tokens, family);
    MembersAre(a.tokens, family);
    forall i | i in rows ensures a.tokens[i].usedAt.None? <==> i == rows[|rows| - 1] {
      if a.tokens[i].usedAt.None? {
        UnusedIsHead(a.tokens, a.families, i);
      }
    }
  }

  /** No run leaves an inactive account with a refresh token that has not been revoked. */
  lemma {:induction false} InactiveHasNoToken(now: Instant, ops: seq<Op>, i: Id)
    requires i < |StepAll(EmptyAuth(now), ops).tokens|
    ensures var a := StepAll(EmptyAuth(now), ops);
            a.tokens[i].credential < |a.credentials|
            && (!a.credentials[a.tokens[i].credential].active ==> a.tokens[i].revokedAt.Some?)
  {
    EmptyOk(now);
    RunKeeps(EmptyAuth(now), ops);
  }

  // ---- reuse ----

  /** Every token of the family is revoked, and the family id will not be handed out again. */
  ghost predicate Dead(a: Auth, family: Id) {
    family < a.families &&
      forall i :: 0 <= i < |a.tokens| && a.tokens[i].family == family ==> a.tokens[i].revokedAt.Some?
  }

  predicate Spent(token: RefreshToken) {
    token.usedAt.Some? || token.revokedAt.Some?
  }

  /** Presenting a used or revoked token is refused and kills its family. */
  lemma ReuseKills(a: Auth, raw: Id, ttl: int)
    requires Inv(a) && raw < |a.tokens| && Spent(a.tokens[raw])
    ensures Rotate(a, raw, ttl).1 == Err(RefreshReuse)
    ensures Dead(Rotate(a, raw, ttl).0, a.tokens[raw].family)
  {
  }

  lemma DeadStays(a: Auth, op: Op, family: Id)
    requires Dead(a, family)
    ensures Dead(Step(a, op), family)
  {
  }

  lemma {:induction false} DeadForever(a: Auth, ops: seq<Op>, family: Id)
    requires Dead(a, family)
    ensures Dead(StepAll(a, ops), family)
  {
    if |ops| == 0 {
    } else {
      DeadForever(a, ops[..|ops| - 1], family);
      DeadStays(StepAll(a, ops[..|ops| - 1]), ops[|ops| - 1], family);
    }
  }

  /** Once a used or revoked token has been presented, no rotation of any token of its family ever
      succeeds again, whatever happens in between. */
  lemma {:induction false} ReuseEndsFamily(a: Auth, raw: Id, ttl: int, ops: seq<Op>, later: Id, laterTtl: int)
    requires Inv(a) && raw < |a.tokens| && Spent(a.tokens[raw])
    requires var after := StepAll(Step(a, RotateOp(raw, ttl)), ops);
             later < |after.tokens| && after.tokens[later].family == a.tokens[raw].family
    ensures Rotate(StepAll(Step(a, RotateOp(raw, ttl)), ops), later, laterTtl).1.Err?
  {
    ReuseKills(a, raw, ttl);
    DeadForever(Step(a, RotateOp(raw, ttl)), ops, a.tokens[raw].family);
  }

  /** A token works at most once: after a successful rotation, presenting it again is reuse. */
  lemma RotatedTokenIsSpent(a: Auth, raw: Id, ttl: int)
    requires Rotate(a, raw, ttl).1.Ok?
    ensures var after := Rotate(a, raw, ttl).0;
            && Spent(after.tokens[raw])
            && Rotate(after, raw, ttl).1 == Err(RefreshReuse)
  {
  }

  // ---- logout ----

  /** Logging out with a token of one's own ends its family exactly if the access token was not recorded
      before, or the family had ended already. */
  lemma LogoutEndsFamily(a: Auth, c: Id, jti: Id, raw: Id)
    requires Inv(a) && raw < |a.tokens| && a.tokens[raw].credential == c
    ensures Dead(Logout(a, c, jti, raw).0, a.tokens[raw].family) <==>
            jti !in a.revokedAccess || Dead(a, a.tokens[raw].family)
  {
  }

  /** A caller who authenticates always ends the family, and the access token opens nothing afterwards. */
  lemma AuthenticatedLogout(a: Auth, c: Id, jti: Id, raw: Id)
    requires Inv(a) && raw < |a.tokens| && a.tokens[raw].credential == c && Authenticate(a, c, jti).Ok?
    ensures var after := Logout(a, c, jti, raw).0;
            Dead(after, a.tokens[raw].family) && Authenticate(after, c, jti).Err?
  {
    LogoutEndsFamily(a, c, jti, raw);
  }

  /** Two logouts that both authenticated before either committed: the later one's family survives if it
      is another family that was still alive. */
  lemma ConcurrentLogoutLeavesFamily(a: Auth, c: Id, jti: Id, first: Id, second: Id)
    requires Inv(a) && first < |a.tokens| && second < |a.tokens|
    requires a.tokens[first].credential == c && a.tokens[second].credential == c && jti !in a.revokedAccess
    ensures Dead(Logout(Logout(a, c, jti, first).0, c, jti, second).0, a.tokens[second].family) <==>
            a.tokens[second].family == a.tokens[first].family || Dead(a, a.tokens[second].family)
  {
    var after := Logout(a, c, jti, first).0;
    LogoutKeeps(a, c, jti, first);
    LogoutEndsFamily(after, c, jti, second);
  }

  /** A state with one account that has two live sessions. */
  function TwoSessions(): Auth {
    var session := (family: nat) => RefreshToken(0, family, 10, None, None, None);
    Auth(0, [NewCredential(Candidate).(emailVerified := true)], [session(0), session(1)], 2, {})
  }

  lemma TwoSessionsAreReachable()
    ensures Reachable(TwoSessions())
  {
    var empty := EmptyAuth(0);
    var registered := Step(empty, RegisterOp(Candidate));
    var verified := Step(registered, VerifyEmailOp(0));
    var once := Step(verified, LoginOp(0, true, 10));
    EmptyIsReachable(0);
    ReachableStep(empty, RegisterOp(Candidate));
    ReachableStep(registered, VerifyEmailOp(0));
    ReachableStep(verified, LoginOp(0, true, 10));
    ReachableStep(once, LoginOp(0, true, 10));
    assert Step(once, LoginOp(0, true, 10)) == TwoSessions();
  }

  /** It does happen: both calls authenticate, and the second session outlives both logouts. */
  lemma ConcurrentLogoutHappens()
    ensures Reachable(TwoSessions()) && Authenticate(TwoSessions(), 0, 0).Ok?
    ensures !Dead(Logout(Logout(TwoSessions(), 0, 0, 0).0, 0, 0, 1).0, 1)
  {
    TwoSessionsAreReachable();
    ReachableOk(TwoSessions());
    assert TwoSessions().tokens[1].family == 1 && TwoSessions().tokens[1].revokedAt.None?;
    ConcurrentLogoutLeavesFamily(TwoSessions(), 0, 0, 0, 1);
  }

  // ---- reachable states ----

  ghost predicate Reachable(a: Auth) {
    exists now, ops :: StepAll(EmptyAuth(now), ops) == a
  }

  lemma EmptyIsReachable(now: Instant)
    ensures Reachable(EmptyAuth(now))
  {
    assert StepAll(EmptyAuth(now), []) == EmptyAuth(now);
  }

  lemma ReachableStep(a: Auth, op: Op)
    requires Reachable(a)
    ensures Reachable(Step(a, op))
  {
    var now, ops :| StepAll(EmptyAuth(now), ops) == a;
    assert (ops + [op])[..|ops|] == ops;
    assert StepAll(EmptyAuth(now), ops + [op]) == Step(a, op);
  }

  lemma ReachableOk(a: Auth)
    requires Reachable(a)
    ensures Inv(a)
  {
    var now, ops :| StepAll(EmptyAuth(now), ops) == a;
    EmptyOk(now);
    RunKeeps(EmptyAuth(now), ops);
  }
}
