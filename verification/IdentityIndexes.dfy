/** The unique indexes on user email and org slug over every run, and the audit log as the record of the run. */
module IdentityIndexes {
  import opened Wrappers
  import opened Identity
  import opened IdentitySteps
  import opened IdentityTables

  // ---- Emails ------------------------------------------------------------------------------------------

  predicate EmailLeadsHome(db: Db, e: string) {
    e in db.userByEmail ==> db.userByEmail[e] in db.users && db.users[db.userByEmail[e]].email == e
  }

  predicate Found(db: Db, u: Id) { u in db.users ==> FindUser(db, db.users[u].email) == Some(u) }

  // The unique index on email leads to the user with that email and back.
  ghost predicate UsersOk(db: Db) { (forall e :: EmailLeadsHome(db, e)) && (forall u :: Found(db, u)) }

  // The email a request adds a user for.
  predicate Adds(db: Db, secrets: Secrets, r: Request, e: string, u: Id) {
    || (Granted(db, secrets, r) && r.op.InviteUser? && FindUser(db, r.op.email).None? && e == r.op.email
        && u == r.op.newId)
    || (Admitted(db, secrets, r) && r.pub.SignUp? && FindUser(db, r.pub.email).None? && e == r.pub.email
        && u == r.pub.newId)
  }

  lemma {:induction false} InviteIndex(db: Db, now: int, ctx: Context, op: MemberOp)
    requires op.InviteUser? && op.role.Some?
    ensures var after := AfterInviteUser(db, now, ctx, op.email, op.displayName, op.role.value, op.newId,
                                        op.tempPassword, op.sent);
            if FindUser(db, op.email).Some? then
              after.userByEmail == db.userByEmail && after.users.Keys == db.users.Keys
            else
              && after.userByEmail == db.userByEmail[op.email := op.newId]
              && after.users.Keys == db.users.Keys + {op.newId}
              && after.users[op.newId].email == op.email
  {
    hide FindUser, Text.Trim, Audits;
  }

  lemma {:induction false} SignUpIndex(db: Db, email: string, password: string, displayName: string, slugBase: string,
                                       newId: Id, newOrgId: Id)
    ensures var after := AfterSignUp(db, email, password, displayName, slugBase, newId, newOrgId);
            var slug := Slug.FreeSlug(db.orgBySlug.Keys, slugBase);
            && after.userByEmail == db.userByEmail[email := newId] && after.users.Keys == db.users.Keys + {newId}
            && after.users[newId]
               == User(email, Text.Trim(displayName), newOrgId, OWNER, Some(Hash(password)), false, None)
            && after.orgs == db.orgs[newOrgId := slug] && after.orgBySlug == db.orgBySlug[slug := newOrgId]
  {
    hide Text.Trim, Audits, Slug.FreeSlug;
  }

  // Only an invite or a signup with an email not yet known adds to the index.
  lemma {:induction false} UserIndexAfter(db: Db, secrets: Secrets, r: Request)
    ensures var after := Step(db, secrets, r);
            || (after.userByEmail == db.userByEmail && after.users.Keys == db.users.Keys)
            || (exists e, u :: Adds(db, secrets, r, e, u) && after.userByEmail == db.userByEmail[e := u]
                               && after.users.Keys == db.users.Keys + {u} && after.users[u].email == e)
  {
    StepIs(db, secrets, r);
    if !TouchesUsers(r) {
      UsersUntouched(db, secrets, r);
    } else if Granted(db, secrets, r) && r.op.InviteUser? {
      GrantedRoleBelowRank(db, secrets, r);
      InviteIndex(db, r.now, ContextOf(db, secrets, r).value, r.op);
      hide Step, ContextOf, Check, CheckPublic, FreshIds, FindUser, AfterInviteUser;
      assert FindUser(db, r.op.email).None? ==> Adds(db, secrets, r, r.op.email, r.op.newId);
    } else if Admitted(db, secrets, r) && r.pub.SignUp? {
      SignUpIndex(db, r.pub.email, r.pub.password, r.pub.displayName, r.pub.slugBase, r.pub.newId, r.pub.newOrgId);
      hide Step, ContextOf, Check, FreshIds, FindUser, AfterSignUp;
      assert Adds(db, secrets, r, r.pub.email, r.pub.newId);
    } else {
      hide Step, ContextOf, Check, CheckPublic, FreshIds, FindUser, AfterAssignRole, AfterChangePassword;
    }
  }

  lemma {:induction false} EmailAfter(db: Db, secrets: Secrets, r: Request, e: string)
    requires UsersOk(db)
    ensures EmailLeadsHome(Step(db, secrets, r), e)
  {
    hide Step, ContextOf, Check, CheckPublic, FreshIds, FindUser, Granted, Admitted;
    var after := Step(db, secrets, r);
    UserIndexAfter(db, secrets, r);
    assert EmailLeadsHome(db, e);
    if e in db.userByEmail { UserAfter(db, secrets, r, db.userByEmail[e]); }
  }

  lemma {:induction false} FoundAfter(db: Db, secrets: Secrets, r: Request, u: Id)
    requires UsersOk(db)
    ensures Found(Step(db, secrets, r), u)
  {
    hide Step, ContextOf, Check, CheckPublic, FreshIds, Granted, Admitted;
    var after := Step(db, secrets, r);
    UserIndexAfter(db, secrets, r);
    assert Found(db, u);
    if u in db.users { UserAfter(db, secrets, r, u); }
  }

  lemma {:induction false} StepKeepsUsersOk(db: Db, secrets: Secrets, r: Request)
    requires UsersOk(db)
    ensures UsersOk(Step(db, secrets, r))
  {
    hide Step, EmailLeadsHome, Found;
    forall e ensures EmailLeadsHome(Step(db, secrets, r), e) { EmailAfter(db, secrets, r, e); }
    forall u ensures Found(Step(db, secrets, r), u) { FoundAfter(db, secrets, r, u); }
  }

  // ---- Slugs ---------------------------------------------------------------------------------------------

  // Every org is the one its slug leads to, and the other way round.
  predicate OrgsOk(db: Db) {
    && (forall o | o in db.orgs :: db.orgs[o] in db.orgBySlug && db.orgBySlug[db.orgs[o]] == o)
    && (forall s | s in db.orgBySlug :: db.orgBySlug[s] in db.orgs && db.orgs[db.orgBySlug[s]] == s)
  }

  lemma {:induction false} StepKeepsOrgsOk(db: Db, secrets: Secrets, r: Request)
    requires OrgsOk(db)
    ensures OrgsOk(Step(db, secrets, r))
  {
    if Admitted(db, secrets, r) && r.pub.SignUp? {
      StepIs(db, secrets, r);
      SignUpIndex(db, r.pub.email, r.pub.password, r.pub.displayName, r.pub.slugBase, r.pub.newId, r.pub.newOrgId);
      assert r.pub.newOrgId !in db.orgs && Slug.FreeSlug(db.orgBySlug.Keys, r.pub.slugBase) !in db.orgBySlug;
      hide Step, ContextOf, Check, CheckPublic, FreshIds, FindUser, AfterSignUp, Slug.FreeSlug;
    } else {
      OrgsOnlyBySignUp(db, secrets, r);
      hide Step, Granted, Admitted;
    }
  }

  // ---- Both, in every reachable state -----------------------------------------------------------------------

  ghost predicate TablesOk(db: Db) { DbOk(db) && UsersOk(db) && OrgsOk(db) }

  lemma {:induction false} RunKeepsTablesOk(db: Db, rs: seq<Arrival>)
    requires TablesOk(db)
    ensures TablesOk(Run(db, rs))
    decreases |rs|
  {
    hide Step, DbOk, UsersOk, OrgsOk;
    if rs != [] {
      StepKeepsDbOk(db, rs[0].secrets, rs[0].request);
      StepKeepsUsersOk(db, rs[0].secrets, rs[0].request);
      StepKeepsOrgsOk(db, rs[0].secrets, rs[0].request);
      RunKeepsTablesOk(Step(db, rs[0].secrets, rs[0].request), rs[1..]);
    }
  }

  lemma {:induction false} ReachableTablesOk(rs: seq<Arrival>)
    ensures TablesOk(Run(EMPTY, rs))
  {
    RunKeepsTablesOk(EMPTY, rs);
  }

  // Two users of a reachable state never share an email, and two orgs never a slug.
  lemma {:induction false} NoDoubles(rs: seq<Arrival>)
    ensures var db := Run(EMPTY, rs);
            && (forall u, w | u in db.users && w in db.users && db.users[u].email == db.users[w].email :: u == w)
            && (forall o, p | o in db.orgs && p in db.orgs && db.orgs[o] == db.orgs[p] :: o == p)
  {
    ReachableTablesOk(rs);
    var db := Run(EMPTY, rs);
    hide Run, DbOk;
    forall u, w | u in db.users && w in db.users && db.users[u].email == db.users[w].email ensures u == w {
      assert Found(db, u) && Found(db, w);
    }
  }

  // ---- The audit log -------------------------------------------------------------------------------------------

  // What a request that is carried out leaves in the log.
  function EventsOf(db: Db, secrets: Secrets, r: Request): seq<AuditEvent> {
    if Granted(db, secrets, r) then
      var ctx := ContextOf(db, secrets, r).value;
      match r.op
      case InviteUser(email, _, _, newId, _, sent) =>
        var found := FindUser(db, email);
        if !sent then []
        else if found.Some? then [AuditEvent(ctx.orgId, ctx.userId, "user.reinvite", found.value)]
        else [AuditEvent(ctx.orgId, ctx.userId, "user.invite", newId)]
      case AssignRole(userId, _) => [AuditEvent(ctx.orgId, ctx.userId, "user.assign_role", userId)]
      case InviteViewer(email, newId, sent) =>
        var found := FindViewer(db, ctx.orgId, email);
        if !sent then []
        else if found.Some? then [AuditEvent(ctx.orgId, ctx.userId, "viewer.reinvite", found.value)]
        else [AuditEvent(ctx.orgId, ctx.userId, "viewer.invite", newId)]
      case RevokeViewer(viewerId) => [AuditEvent(ctx.orgId, ctx.userId, "viewer.revoke", viewerId)]
      case CreateApiKey(_, _, _, newId, _) => [AuditEvent(ctx.orgId, ctx.userId, "apikey.create", newId)]
      case RevokeApiKey(keyId) =>
        if db.keys[keyId].revoked then [] else [AuditEvent(ctx.orgId, ctx.userId, "apikey.revoke", keyId)]
    else if Admitted(db, secrets, r) then
      match r.pub
      case SignUp(_, _, _, _, newId, newOrgId) => [AuditEvent(newOrgId, newId, "user.sign_up", newId)]
      case ChangePassword(email, _, _) =>
        var id := FindUser(db, email).value;
        [AuditEvent(db.users[id].orgId, id, "user.change_password", id)]
      case ActivateViewer(_, _, _) => []
    else []
  }

  function Trail(db: Db, rs: seq<Arrival>): seq<AuditEvent>
    decreases |rs|
  {
    if rs == [] then []
    else EventsOf(db, rs[0].secrets, rs[0].request) + Trail(Step(db, rs[0].secrets, rs[0].request), rs[1..])
  }

  lemma {:induction false} InviteLogs(db: Db, secrets: Secrets, r: Request)
    requires Granted(db, secrets, r) && (r.op.InviteUser? || r.op.InviteViewer?)
    ensures Step(db, secrets, r).audit == db.audit + EventsOf(db, secrets, r)
  {
    StepIs(db, secrets, r);
    hide Step, ContextOf, FreshIds, FindUser, FindViewer, Text.Trim, Check, Audits;
  }

  lemma {:induction false} MemberLogs(db: Db, secrets: Secrets, r: Request)
    requires Granted(db, secrets, r) && (r.op.AssignRole? || r.op.RevokeViewer?)
    ensures Step(db, secrets, r).audit == db.audit + EventsOf(db, secrets, r)
  {
    StepIs(db, secrets, r);
    hide Step, ContextOf, FreshIds, MaxRank, Text.Trim, Audits, AfterInviteUser, AfterInviteViewer, AfterCreateApiKey,
         AfterRevokeApiKey, Check;
  }

  lemma {:induction false} KeyLogs(db: Db, secrets: Secrets, r: Request)
    requires Granted(db, secrets, r) && (r.op.CreateApiKey? || r.op.RevokeApiKey?)
    ensures Step(db, secrets, r).audit == db.audit + EventsOf(db, secrets, r)
  {
    StepIs(db, secrets, r);
    assert r.op.RevokeApiKey? ==> r.op.keyId in db.keys;
    hide Step, ContextOf, FreshIds, MaxRank, Text.Trim, Audits, AfterInviteUser, AfterInviteViewer, AfterAssignRole,
         AfterRevokeViewer, Check;
  }

  lemma {:induction false} PublicLogs(db: Db, secrets: Secrets, r: Request)
    requires Admitted(db, secrets, r)
    ensures Step(db, secrets, r).audit == db.audit + EventsOf(db, secrets, r)
  {
    StepIs(db, secrets, r);
    hide Step, ContextOf, FreshIds, Text.Trim, Slug.FreeSlug, Audits, Genuine, Check, FindViewer;
  }

  lemma {:induction false} StepLogs(db: Db, secrets: Secrets, r: Request)
    ensures Step(db, secrets, r).audit == db.audit + EventsOf(db, secrets, r)
  {
    if Granted(db, secrets, r) && (r.op.InviteUser? || r.op.InviteViewer?) {
      InviteLogs(db, secrets, r);
    } else if Granted(db, secrets, r) && (r.op.CreateApiKey? || r.op.RevokeApiKey?) {
      KeyLogs(db, secrets, r);
    } else if Granted(db, secrets, r) {
      MemberLogs(db, secrets, r);
    } else if Admitted(db, secrets, r) {
      PublicLogs(db, secrets, r);
    } else {
      StepIs(db, secrets, r);
      hide Step, Granted, Admitted;
    }
  }

  // The log of every state is exactly the events of the requests carried out, one after the other.
  lemma {:induction false} AuditIsTheTrail(db: Db, rs: seq<Arrival>)
    ensures Run(db, rs).audit == db.audit + Trail(db, rs)
    decreases |rs|
  {
    hide Step, EventsOf;
    if rs != [] {
      StepLogs(db, rs[0].secrets, rs[0].request);
      AuditIsTheTrail(Step(db, rs[0].secrets, rs[0].request), rs[1..]);
    }
  }
}
