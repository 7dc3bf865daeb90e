/** Every org keeps an active owner. */
module IdentityOwners {
  import opened Wrappers
  import opened Identity
  import opened IdentitySteps
  import opened IdentityTables
  import IdentityTokens

  // An owner who is not on a temporary password, and so can hold a session.
  predicate ActiveOwner(db: Db, orgId: Id, u: Id) {
    u in db.users && db.users[u].orgId == orgId && db.users[u].role == OWNER && !db.users[u].mustChangePassword
  }

  predicate HasOwner(db: Db, orgId: Id) {
    exists u | u in db.users :: ActiveOwner(db, orgId, u)
  }

  predicate Owned(db: Db) { forall o | o in db.orgs :: HasOwner(db, o) }

  predicate AssignsByKey(r: Request) { r.Member? && r.op.AssignRole? && r.credential.Key? }

  // An assignRole whose role was not read from its caller's own row as it is handled.
  predicate AssignsOnOldRole(r: Request) { AssignsByKey(r) || (r.Forwarded? && r.op.AssignRole?) }

  // One request of a session keeps some active owner of every org that had one.
  lemma {:induction false} StepKeepsOwner(db: Db, secrets: Secrets, r: Request, o: Id, u: Id)
    requires ActiveOwner(db, o, u) && !AssignsOnOldRole(r)
    ensures HasOwner(Step(db, secrets, r), o)
  {
    hide Step, VerifyToken, Check, CheckPublic, ContextOf;
    var after := Step(db, secrets, r);
    UserAfter(db, secrets, r, u);
    if !ActiveOwner(after, o, u) {
      // Only an assignRole can take the role away, and then its caller is another active owner.
      ContextRank(db, secrets, r);
      AssignRoleReach(db, secrets, r);
      assert ActiveOwner(after, o, r.credential.jwt.sub);
    }
  }

  lemma {:induction false} StepKeepsOwned(db: Db, secrets: Secrets, r: Request)
    requires Owned(db) && !AssignsOnOldRole(r)
    ensures Owned(Step(db, secrets, r))
  {
    hide Step, VerifyToken, Check, CheckPublic, ContextOf;
    var after := Step(db, secrets, r);
    forall o | o in after.orgs ensures HasOwner(after, o) {
      if Admitted(db, secrets, r) && r.pub.SignUp? {
        SignUpEffect(db, secrets, r);
      } else {
        OrgsOnlyBySignUp(db, secrets, r);
      }
      if o in db.orgs {
        var u :| u in db.users && ActiveOwner(db, o, u);
        StepKeepsOwner(db, secrets, r, o, u);
      } else {
        assert ActiveOwner(after, o, r.pub.newId);
      }
    }
  }

  // While roles are assigned only on roles read as the request is handled, if every org has an active owner then
  // every org keeps one.
  lemma {:induction false} EveryOrgKeepsAnOwner(db: Db, rs: seq<Arrival>)
    requires Owned(db) && forall i | 0 <= i < |rs| :: !AssignsOnOldRole(rs[i].request)
    ensures Owned(Run(db, rs))
    decreases |rs|
  {
    if rs != [] {
      StepKeepsOwned(db, rs[0].secrets, rs[0].request);
      EveryOrgKeepsAnOwner(Step(db, rs[0].secrets, rs[0].request), rs[1..]);
    }
  }

  lemma {:induction false} ReachableOrgsAreOwned(rs: seq<Arrival>)
    requires forall i | 0 <= i < |rs| :: !AssignsOnOldRole(rs[i].request)
    ensures Owned(Run(EMPTY, rs))
  {
    EveryOrgKeepsAnOwner(EMPTY, rs);
  }

  // ---- One request under any context -------------------------------------------------------------------

  // An owner's context, its user's role since possibly lowered, lowers the one active owner there is.
  predicate DemotesLastOwner(db: Db, ctx: Context, op: MemberOp, o: Id) {
    && op.AssignRole? && ctx.orgId == o && OWNER in ctx.roles && op.userId != ctx.userId
    && op.role.Some? && op.role != Some(OWNER)
    && ActiveOwner(db, o, op.userId)
    && forall u | u in db.users && ActiveOwner(db, o, u) :: u == op.userId
  }

  lemma {:induction false} InviteKeepsOwner(db: Db, now: int, ctx: Context, op: MemberOp, o: Id, u: Id)
    requires op.InviteUser? && Check(db, ctx, op).None? && op.newId !in db.users && ActiveOwner(db, o, u)
    ensures ActiveOwner(Apply(db, now, ctx, op), o, u)
  {
    InviteUserRows(db, now, ctx, op.email, op.displayName, op.role.value, op.newId, op.tempPassword, op.sent, u);
    hide AfterInviteUser, FindUser, MaxRank, Text.Trim;
  }

  lemma {:induction false} AssignIsOwners(ctx: Context, db: Db, op: MemberOp)
    requires op.AssignRole? && Check(db, ctx, op).None? && db.users[op.userId].role == OWNER
    ensures OWNER in ctx.roles && MaxRank(ctx.roles) == Rank(OWNER)
  {
    MaxRankIsMaximum(ctx.roles);
    hide MaxRank;
  }

  lemma {:induction false} AssignLosesOwnerIff(db: Db, now: int, ctx: Context, op: MemberOp, o: Id)
    requires HasOwner(db, o) && Check(db, ctx, op).None? && op.AssignRole?
    ensures !HasOwner(Apply(db, now, ctx, op), o) <==> DemotesLastOwner(db, ctx, op, o)
  {
    var after := Apply(db, now, ctx, op);
    var v := op.userId;
    assert v in db.users && db.users[v].orgId == ctx.orgId && op.role.Some?;
    assert after.users == db.users[v := db.users[v].(role := op.role.value)];
    if db.users[v].role == OWNER {
      AssignIsOwners(ctx, db, op);
      assert op.userId == ctx.userId ==> op.role == Some(OWNER);
    }
    hide Apply, Check;
    var u :| u in db.users && ActiveOwner(db, o, u);
    if u != v {
      assert ActiveOwner(after, o, u);
    } else if w :| w in db.users && ActiveOwner(db, o, w) && w != v {
      assert ActiveOwner(after, o, w);
    } else if op.role == Some(OWNER) {
      assert ActiveOwner(after, o, v);
    }
  }

  // Whatever context a request that passes its checks runs under, verified however long ago: it takes an org's
  // last active owner away exactly when it is an owner of that org lowering them.
  lemma {:induction false} OwnerLostUnderContextIff(db: Db, now: int, ctx: Context, op: MemberOp, o: Id)
    requires HasOwner(db, o) && Check(db, ctx, op).None? && (op.InviteUser? ==> op.newId !in db.users)
    ensures !HasOwner(Apply(db, now, ctx, op), o) <==> DemotesLastOwner(db, ctx, op, o)
  {
    if op.AssignRole? {
      AssignLosesOwnerIff(db, now, ctx, op, o);
    } else {
      var u :| u in db.users && ActiveOwner(db, o, u);
      if op.InviteUser? {
        InviteKeepsOwner(db, now, ctx, op, o, u);
      } else {
        hide AfterInviteViewer, AfterRevokeViewer, AfterCreateApiKey, AfterRevokeApiKey, Check;
        assert Apply(db, now, ctx, op).users == db.users;
      }
      assert ActiveOwner(Apply(db, now, ctx, op), o, u);
    }
  }

  // ---- One request verified as it is handled -------------------------------------------------------------

  // A valid OWNER key lowering the last active owner, whom it was not created by.
  predicate KeyDemotesLastOwner(db: Db, secrets: Secrets, r: Request, o: Id) {
    && AssignsByKey(r)
    && VerifyToken(db, secrets, r.now, r.credential).StaffContext?
    && (var key := db.keys[ApiKeyId(r.credential.rest).value];
        && key.orgId == o && key.role == OWNER && key.createdBy != r.op.userId)
    && r.op.role.Some? && r.op.role != Some(OWNER)
    && ActiveOwner(db, o, r.op.userId)
    && forall u | u in db.users && ActiveOwner(db, o, u) :: u == r.op.userId
  }

  lemma {:induction false} KeyDemotes(db: Db, secrets: Secrets, r: Request, o: Id)
    requires KeyDemotesLastOwner(db, secrets, r, o)
    ensures Granted(db, secrets, r)
  {
    SingleRank(OWNER);
  }

  lemma {:induction false} DemoterIsKey(db: Db, secrets: Secrets, r: Request, o: Id)
    requires Granted(db, secrets, r) && r.Member?
    ensures DemotesLastOwner(db, ContextOf(db, secrets, r).value, r.op, o) <==> KeyDemotesLastOwner(db, secrets, r, o)
  {
    ContextRank(db, secrets, r);
    var ctx := ContextOf(db, secrets, r).value;
    assert VerifyToken(db, secrets, r.now, r.credential).StaffContext?;
    assert OWNER in ctx.roles <==> ctx.roles[0] == OWNER;
    hide VerifyToken, ContextOf, Check, FreshIds, MaxRank, ApiKeyId;
    if r.credential.Bearer? && ctx.orgId == o && ctx.roles[0] == OWNER {
      assert ActiveOwner(db, o, ctx.userId);
    }
  }

  // An owner's session verified as it is handled makes them an active owner; an API key keeps the role its creator
  // may have lost, and a context signed earlier the role its user may have lost. Those are the only ways to take an
  // org's last active owner away.
  lemma {:induction false} OwnerLostIff(db: Db, secrets: Secrets, r: Request, o: Id)
    requires HasOwner(db, o)
    ensures !HasOwner(Step(db, secrets, r), o)
            <==> KeyDemotesLastOwner(db, secrets, r, o)
                 || (r.Forwarded? && Granted(db, secrets, r) && DemotesLastOwner(db, r.context, r.op, o))
  {
    StepIs(db, secrets, r);
    if KeyDemotesLastOwner(db, secrets, r, o) { KeyDemotes(db, secrets, r, o); }
    if Granted(db, secrets, r) {
      if r.Member? { DemoterIsKey(db, secrets, r, o); }
      OwnerLostUnderContextIff(db, r.now, ContextOf(db, secrets, r).value, r.op, o);
    } else {
      var u :| u in db.users && ActiveOwner(db, o, u);
      hide KeyDemotesLastOwner, Step, Check, CheckPublic, ContextOf, Apply, ApplyPublic;
      if Admitted(db, secrets, r) { StepKeepsOwner(db, secrets, r, o, u); }
    }
  }

  // ---- A run that orphans an org ---------------------------------------------------------------------

  // a signs up, makes an OWNER key and invites b as OWNER; b takes the invite and demotes a; then the key,
  // still an OWNER, demotes b.
  const A := User("a@acme", "A", "o", OWNER, Some(Hash("password a")), false, None)
  const B := User("b@acme", "B", "o", OWNER, Some(Hash("password b")), false, None)
  const INVITED_B := B.(passwordHash := Some(Hash("temporary")), mustChangePassword := true,
                        passwordExpiresAt := Some(TEMP_PASSWORD_TTL))
  const KEY := ApiKey("ci", Hash(GenerateApiKey("k", "s")), OWNER, "o", "a", None, false)

  function SessionOf(secrets: Secrets, id: Id, op: MemberOp): Request {
    Member(Bearer(SignToken(secrets, 0, id)), 0, op)
  }

  const SIGN_UP := Public(0, SignUp("a@acme", "password a", "A", "acme", "a", "o"))
  const MAKE_KEY := CreateApiKey("ci", Some(OWNER), None, "k", "s")
  const INVITE := InviteUser("b@acme", "B", Some(OWNER), "b", "temporary", true)
  const TAKE_INVITE := Public(0, ChangePassword("b@acme", "temporary", "password b"))
  const DEMOTE_A := AssignRole("a", Some(VIEWER))
  const DEMOTE_B := Member(Key("k_s"), 0, AssignRole("b", Some(VIEWER)))

  function TwoOwnersRun(secrets: Secrets): seq<Arrival> {
    [Arrival(secrets, SIGN_UP), Arrival(secrets, SessionOf(secrets, "a", MAKE_KEY)),
     Arrival(secrets, SessionOf(secrets, "a", INVITE)), Arrival(secrets, TAKE_INVITE)]
  }

  function OrphaningRun(secrets: Secrets): seq<Arrival> {
    TwoOwnersRun(secrets) + [Arrival(secrets, SessionOf(secrets, "b", DEMOTE_A)), Arrival(secrets, DEMOTE_B)]
  }

  // The tables, as far as the run reads them.
  predicate Holds(db: Db, users: map<Id, User>, emails: map<string, Id>, keys: map<Id, ApiKey>) {
    db.orgs.Keys == {"o"} && db.users == users && db.userByEmail == emails && db.keys == keys && db.viewers == map[]
  }

  lemma {:induction false} SessionContext(db: Db, secrets: Secrets, id: Id, op: MemberOp)
    requires id in db.users && !db.users[id].mustChangePassword
    ensures ContextOf(db, secrets, SessionOf(secrets, id, op))
              == Some(Context(id, db.users[id].orgId, [db.users[id].role]))
    ensures MaxRank([db.users[id].role]) == Rank(db.users[id].role)
  {
    SingleRank(db.users[id].role);
  }

  lemma {:induction false} ASignsUp(secrets: Secrets)
    ensures Holds(Step(EMPTY, secrets, SIGN_UP), map["a" := A], map["a@acme" := "a"], map[])
  {
    Text.TrimKeepsTrimmed("A");
    hide Text.Trim, Slug.FreeSlug;
  }

  lemma {:induction false} AMakesKey(db: Db, secrets: Secrets)
    requires Holds(db, map["a" := A], map["a@acme" := "a"], map[])
    ensures Holds(Step(db, secrets, SessionOf(secrets, "a", MAKE_KEY)), map["a" := A], map["a@acme" := "a"],
              map["k" := KEY])
  {
    Text.TrimKeepsTrimmed("ci");
    SessionContext(db, secrets, "a", MAKE_KEY);
    hide Text.Trim, ContextOf, GenerateApiKey, MaxRank;
  }

  lemma {:induction false} AInvitesB(db: Db, secrets: Secrets)
    requires Holds(db, map["a" := A], map["a@acme" := "a"], map["k" := KEY])
    ensures Holds(Step(db, secrets, SessionOf(secrets, "a", INVITE)), map["a" := A, "b" := INVITED_B],
                  map["a@acme" := "a", "b@acme" := "b"], map["k" := KEY])
  {
    Text.TrimKeepsTrimmed("B");
    SessionContext(db, secrets, "a", INVITE);
    assert "b@acme"[1] == '@';
    assert FindUser(db, "b@acme").None?;
    hide Text.Trim, ContextOf, GenerateApiKey, MaxRank;
  }

  lemma {:induction false} BTakesInvite(db: Db, secrets: Secrets)
    requires Holds(db, map["a" := A, "b" := INVITED_B], map["a@acme" := "a", "b@acme" := "b"], map["k" := KEY])
    ensures Holds(Step(db, secrets, TAKE_INVITE), map["a" := A, "b" := B],
                  map["a@acme" := "a", "b@acme" := "b"], map["k" := KEY])
  {
    hide GenerateApiKey;
    assert FindUser(db, "b@acme") == Some("b");
  }

  lemma {:induction false} BDemotesA(db: Db, secrets: Secrets)
    requires Holds(db, map["a" := A, "b" := B], map["a@acme" := "a", "b@acme" := "b"], map["k" := KEY])
    ensures Holds(Step(db, secrets, SessionOf(secrets, "b", DEMOTE_A)), map["a" := A.(role := VIEWER), "b" := B],
                  map["a@acme" := "a", "b@acme" := "b"], map["k" := KEY])
  {
    SessionContext(db, secrets, "b", DEMOTE_A);
    hide ContextOf, GenerateApiKey, MaxRank;
  }

  lemma {:induction false} KeyDemotesB(db: Db, secrets: Secrets)
    requires Holds(db, map["a" := A.(role := VIEWER), "b" := B], map["a@acme" := "a", "b@acme" := "b"], map["k" := KEY])
    ensures !HasOwner(Step(db, secrets, DEMOTE_B), "o") && "o" in Step(db, secrets, DEMOTE_B).orgs
  {
    IdentityTokens.KeyIdRoundTrip("k", "s");
    assert "k" + "_" + "s" == "k_s";
    assert API_KEY_PREFIX + "k_s" == GenerateApiKey("k", "s");
    assert ActiveOwner(db, "o", "b");
    hide Step, ApiKeyId, GenerateApiKey;
    OwnerLostIff(db, secrets, DEMOTE_B, "o");
    OrgsOnlyBySignUp(db, secrets, DEMOTE_B);
  }

  lemma {:induction false} TwoOwners(secrets: Secrets)
    ensures Holds(Run(EMPTY, TwoOwnersRun(secrets)), map["a" := A, "b" := B],
                  map["a@acme" := "a", "b@acme" := "b"], map["k" := KEY])
  {
    hide Step, Holds;
    var rs := TwoOwnersRun(secrets);
    assert rs[..0] + [rs[0]] == rs[..1] && rs[..1] + [rs[1]] == rs[..2];
    assert rs[..2] + [rs[2]] == rs[..3] && rs[..3] + [rs[3]] == rs;
    ASignsUp(secrets);
    RunAppend(EMPTY, rs[..0], rs[0]);
    AMakesKey(Run(EMPTY, rs[..1]), secrets);
    RunAppend(EMPTY, rs[..1], rs[1]);
    AInvitesB(Run(EMPTY, rs[..2]), secrets);
    RunAppend(EMPTY, rs[..2], rs[2]);
    BTakesInvite(Run(EMPTY, rs[..3]), secrets);
    RunAppend(EMPTY, rs[..3], rs[3]);
  }

  // From the empty tables, under any secrets, this run leaves an org without an owner.
  lemma {:induction false} OldKeyOrphansOrg(secrets: Secrets)
    ensures var db := Run(EMPTY, OrphaningRun(secrets)); "o" in db.orgs && !HasOwner(db, "o")
  {
    TwoOwners(secrets);
    hide Step, Holds, HasOwner;
    var rs, last := TwoOwnersRun(secrets), OrphaningRun(secrets)[4..];
    var db := Run(EMPTY, rs);
    BDemotesA(db, secrets);
    KeyDemotesB(Step(db, secrets, SessionOf(secrets, "b", DEMOTE_A)), secrets);
    RunAppend(EMPTY, rs, last[0]);
    RunAppend(EMPTY, rs + [last[0]], last[1]);
    assert OrphaningRun(secrets) == rs + [last[0]] + [last[1]];
  }

  // ---- Two owners at once --------------------------------------------------------------------------------

  // Two owners, the only ones, both verified before either request is handled, demote each other.
  lemma {:induction false} MutualDemotion(db: Db, now: int, o: Id, a: Id, b: Id)
    requires a != b && ActiveOwner(db, o, a) && ActiveOwner(db, o, b)
    requires forall u | u in db.users && ActiveOwner(db, o, u) :: u == a || u == b
    ensures var byA, byB := Context(a, o, [OWNER]), Context(b, o, [OWNER]);
            && Check(db, byA, AssignRole(b, Some(VIEWER))).None?
            && var next := Apply(db, now, byA, AssignRole(b, Some(VIEWER)));
               && Check(next, byB, AssignRole(a, Some(VIEWER))).None?
               && !HasOwner(Apply(next, now, byB, AssignRole(a, Some(VIEWER))), o)
  {
    SingleRank(OWNER);
    var next := Apply(db, now, Context(a, o, [OWNER]), AssignRole(b, Some(VIEWER)));
    assert next.users == db.users[b := db.users[b].(role := VIEWER)];
    assert ActiveOwner(next, o, a);
    AssignLosesOwnerIff(next, now, Context(b, o, [OWNER]), AssignRole(a, Some(VIEWER)), o);
  }

  function Demotion(from: Id, whom: Id): Request {
    Forwarded(Context(from, "o", [OWNER]), 0, AssignRole(whom, Some(VIEWER)))
  }

  lemma {:induction false} ForwardedStep(db: Db, secrets: Secrets, from: Id, whom: Id)
    requires Check(db, Context(from, "o", [OWNER]), AssignRole(whom, Some(VIEWER))).None?
    ensures Step(db, secrets, Demotion(from, whom))
            == Apply(db, 0, Context(from, "o", [OWNER]), AssignRole(whom, Some(VIEWER)))
    ensures Step(db, secrets, Demotion(from, whom)).orgs == db.orgs
  {
    hide Check, Apply, CheckPublic, ApplyPublic;
    OrgsOnlyBySignUp(db, secrets, Demotion(from, whom));
  }

  lemma {:induction false} DemotionsOrphan(db: Db, secrets: Secrets)
    requires Holds(db, map["a" := A, "b" := B], map["a@acme" := "a", "b@acme" := "b"], map["k" := KEY])
    ensures var end := Step(Step(db, secrets, Demotion("a", "b")), secrets, Demotion("b", "a"));
            "o" in end.orgs && !HasOwner(end, "o")
  {
    MutualDemotion(db, 0, "o", "a", "b");
    hide Step, HasOwner, Apply, Check, Demotion, GenerateApiKey;
    ForwardedStep(db, secrets, "a", "b");
    ForwardedStep(Step(db, secrets, Demotion("a", "b")), secrets, "b", "a");
  }

  // Such a run exists, with no key involved: in the state the run above reaches with two owners, a's and b's
  // contexts are both signed before either demotion is handled.
  lemma {:induction false} EarlierContextsOrphanOrg(secrets: Secrets)
    ensures var db := Run(EMPTY, TwoOwnersRun(secrets));
            && ContextOf(db, secrets, SessionOf(secrets, "a", AssignRole("b", Some(VIEWER))))
               == Some(Context("a", "o", [OWNER]))
            && ContextOf(db, secrets, SessionOf(secrets, "b", DEMOTE_A)) == Some(Context("b", "o", [OWNER]))
    ensures var end := Run(EMPTY, TwoOwnersRun(secrets) + [Arrival(secrets, Demotion("a", "b"))]
                                  + [Arrival(secrets, Demotion("b", "a"))]);
            "o" in end.orgs && !HasOwner(end, "o")
  {
    TwoOwners(secrets);
    var rs := TwoOwnersRun(secrets);
    var db := Run(EMPTY, rs);
    assert db.users["a"] == A && db.users["b"] == B;
    hide Run, Step, HasOwner, TwoOwnersRun, Holds, Demotion, VerifyToken;
    SessionContext(db, secrets, "a", AssignRole("b", Some(VIEWER)));
    SessionContext(db, secrets, "b", DEMOTE_A);
    DemotionsOrphan(db, secrets);
    RunAppend(EMPTY, rs, Arrival(secrets, Demotion("a", "b")));
    RunAppend(EMPTY, rs + [Arrival(secrets, Demotion("a", "b"))], Arrival(secrets, Demotion("b", "a")));
  }
}
