/** What one request can do to a row, op by op; the theorems about runs are built from these. */
module IdentitySteps {
  import opened Wrappers
  import opened Identity

  lemma {:induction false} SingleRank(r: Role)
    ensures MaxRank([r]) == Rank(r)
  {
    assert [r][1..] == [];
  }

  // The roles of a verified context are the one role of its credential.
  lemma {:induction false} ContextRank(db: Db, secrets: Secrets, r: Request)
    requires r.Member? && ContextOf(db, secrets, r).Some?
    ensures var ctx := ContextOf(db, secrets, r).value;
            && |ctx.roles| == 1 && MaxRank(ctx.roles) == Rank(ctx.roles[0])
            && (r.credential.Key? ==> var id := ApiKeyId(r.credential.rest);
                                      id.Some? && id.value in db.keys && ctx.orgId == db.keys[id.value].orgId
                                      && ctx.roles[0] == db.keys[id.value].role
                                      && ctx.userId == db.keys[id.value].createdBy)
            && (r.credential.Bearer? ==> ctx.userId == r.credential.jwt.sub && ctx.userId in db.users
                                         && !db.users[ctx.userId].mustChangePassword
                                         && ctx.orgId == db.users[ctx.userId].orgId
                                         && ctx.roles[0] == db.users[ctx.userId].role)
  {
    hide ApiKeyId;
    SingleRank(ContextOf(db, secrets, r).value.roles[0]);
  }

  // A member request that is carried out: verified, its checks passed.
  predicate Granted(db: Db, secrets: Secrets, r: Request) {
    && !r.Public? && FreshIds(db, r)
    && ContextOf(db, secrets, r).Some? && Check(db, ContextOf(db, secrets, r).value, r.op).None?
  }

  predicate Admitted(db: Db, secrets: Secrets, r: Request) {
    r.Public? && FreshIds(db, r) && CheckPublic(db, secrets, r.now, r.pub).None?
  }

  lemma {:induction false} StepIs(db: Db, secrets: Secrets, r: Request)
    ensures Granted(db, secrets, r) ==> Step(db, secrets, r) == Apply(db, r.now, ContextOf(db, secrets, r).value, r.op)
    ensures Admitted(db, secrets, r) ==> Step(db, secrets, r) == ApplyPublic(db, secrets, r.now, r.pub)
    ensures !Granted(db, secrets, r) && !Admitted(db, secrets, r) ==> Step(db, secrets, r) == db
  {
    hide Check, CheckPublic, Apply, ApplyPublic, ContextOf, FreshIds;
  }

  // The ways a request can change an existing user, never the org or the email.
  predicate UserChange(db: Db, secrets: Secrets, r: Request, before: User, after: User, u: Id) {
    && after.orgId == before.orgId && after.email == before.email
    && (|| after == before
        // changePassword: the user's own role, off the temporary password
        || (Admitted(db, secrets, r) && r.pub.ChangePassword? && FindUser(db, r.pub.email) == Some(u)
            && after.role == before.role && !after.mustChangePassword
            && before.passwordHash == Some(Hash(r.pub.currentPassword))
                && after.passwordHash == Some(Hash(r.pub.newPassword)))
        // inviteUser again: only a member of the caller's org still on a temporary password
        || (Granted(db, secrets, r) && r.op.InviteUser? && before.mustChangePassword && after.mustChangePassword
            && before.orgId == ContextOf(db, secrets, r).value.orgId && Some(after.role) == r.op.role)
        // assignRole: the role alone
        || (Granted(db, secrets, r) && r.op.AssignRole? && r.op.userId == u
            && r.op.role.Some? && after == before.(role := r.op.role.value)))
  }

  // Which rows an invite writes: the member found by email, or else a new one.
  lemma {:induction false} InviteUserRows(db: Db, now: int, ctx: Context, email: string, displayName: string,
                                          role: Role, newId: Id, tempPassword: string, sent: bool, u: Id)
    ensures var found := FindUser(db, email);
            var users := AfterInviteUser(db, now, ctx, email, displayName, role, newId, tempPassword, sent).users;
            if found == Some(u) then
              u in users && users[u].orgId == db.users[u].orgId && users[u].email == db.users[u].email
              && users[u].role == role && users[u].mustChangePassword
            else if found.None? && u == newId then
              u in users && users[u].orgId == ctx.orgId && users[u].email == email && users[u].role == role
                  && users[u].mustChangePassword
            else (u in users <==> u in db.users) && (u in db.users ==> users[u] == db.users[u])
  {
    hide FindUser, Text.Trim;
  }

  lemma {:induction false} InviteViewerRows(db: Db, now: int, ctx: Context, email: string, newId: Id, sent: bool, v: Id)
    ensures var found := FindViewer(db, ctx.orgId, email);
            var viewers := AfterInviteViewer(db, now, ctx, email, newId, sent).viewers;
            if found == Some(v) then
              v in viewers && viewers[v] == db.viewers[v].(invitedAt := now, revokedAt := None)
            else if found.None? && v == newId then
              v in viewers && viewers[v] == Viewer(ctx.orgId, email, None, now, None, None)
            else (v in viewers <==> v in db.viewers) && (v in db.viewers ==> viewers[v] == db.viewers[v])
  {
    hide FindViewer;
  }

  lemma {:induction false} UserAfterInvite(db: Db, secrets: Secrets, r: Request, u: Id)
    requires Granted(db, secrets, r) && r.op.InviteUser? && u in db.users
    ensures var after := Step(db, secrets, r);
            u in after.users && UserChange(db, secrets, r, db.users[u], after.users[u], u)
  {
    StepIs(db, secrets, r);
    InviteUserRows(db, r.now, ContextOf(db, secrets, r).value, r.op.email, r.op.displayName, r.op.role.value,
                   r.op.newId, r.op.tempPassword, r.op.sent, u);
    hide Step, ContextOf, Text.Trim, FindUser, AfterInviteUser;
  }

  lemma {:induction false} UserAfterAssign(db: Db, secrets: Secrets, r: Request, u: Id)
    requires Granted(db, secrets, r) && r.op.AssignRole? && u in db.users
    ensures var after := Step(db, secrets, r);
            u in after.users && UserChange(db, secrets, r, db.users[u], after.users[u], u)
  {
    StepIs(db, secrets, r);
    hide Step, ContextOf;
  }

  lemma {:induction false} UserAfterPassword(db: Db, secrets: Secrets, r: Request, u: Id)
    requires Admitted(db, secrets, r) && r.pub.ChangePassword? && u in db.users
    ensures var after := Step(db, secrets, r);
            u in after.users && UserChange(db, secrets, r, db.users[u], after.users[u], u)
  {
    StepIs(db, secrets, r);
    hide Step, ContextOf;
  }

  lemma {:induction false} UserAfterSignUp(db: Db, secrets: Secrets, r: Request, u: Id)
    requires Admitted(db, secrets, r) && r.pub.SignUp? && u in db.users
    ensures var after := Step(db, secrets, r);
            u in after.users && UserChange(db, secrets, r, db.users[u], after.users[u], u)
  {
    StepIs(db, secrets, r);
    hide Step, ContextOf, Text.Trim, FindUser;
  }

  // Every other op leaves the users table as it is.
  predicate TouchesUsers(r: Request) {
    if !r.Public? then r.op.InviteUser? || r.op.AssignRole? else r.pub.SignUp? || r.pub.ChangePassword?
  }

  lemma {:induction false} UsersUntouched(db: Db, secrets: Secrets, r: Request)
    requires !TouchesUsers(r)
    ensures Step(db, secrets, r).users == db.users && Step(db, secrets, r).userByEmail == db.userByEmail
  {
    StepIs(db, secrets, r);
    hide Step, ContextOf, Check, CheckPublic, FindUser, FindViewer;
    hide AfterInviteUser, AfterAssignRole, AfterInviteViewer, AfterRevokeViewer, AfterCreateApiKey;
    hide AfterRevokeApiKey, AfterSignUp, AfterChangePassword, AfterActivateViewer;
  }

  lemma {:induction false} UserAfter(db: Db, secrets: Secrets, r: Request, u: Id)
    requires u in db.users
    ensures var after := Step(db, secrets, r);
            u in after.users && UserChange(db, secrets, r, db.users[u], after.users[u], u)
  {
    StepIs(db, secrets, r);
    hide Step, Apply, ApplyPublic, Check, CheckPublic, ContextOf;
    if !TouchesUsers(r) {
      UsersUntouched(db, secrets, r);
    } else if Granted(db, secrets, r) {
      if r.op.InviteUser? { UserAfterInvite(db, secrets, r, u); } else { UserAfterAssign(db, secrets, r, u); }
    } else if Admitted(db, secrets, r) {
      if r.pub.SignUp? { UserAfterSignUp(db, secrets, r, u); } else { UserAfterPassword(db, secrets, r, u); }
    }
  }

  predicate InvitedHere(db: Db, secrets: Secrets, r: Request, user: User, u: Id) {
    && Granted(db, secrets, r) && r.op.InviteUser? && user.mustChangePassword && u == r.op.newId
    && user.orgId == ContextOf(db, secrets, r).value.orgId && Some(user.role) == r.op.role
  }

  predicate SignedUpHere(db: Db, secrets: Secrets, r: Request, user: User, u: Id) {
    && Admitted(db, secrets, r) && r.pub.SignUp? && user.role == OWNER && !user.mustChangePassword
    && u == r.pub.newId && user.orgId == r.pub.newOrgId && user.orgId !in db.orgs
  }

  lemma {:induction false} NewInvited(db: Db, secrets: Secrets, r: Request, u: Id)
    requires Granted(db, secrets, r) && r.op.InviteUser?
    requires u !in db.users && u in Step(db, secrets, r).users
    ensures InvitedHere(db, secrets, r, Step(db, secrets, r).users[u], u)
  {
    StepIs(db, secrets, r);
    GrantedRoleBelowRank(db, secrets, r);
    InviteUserRows(db, r.now, ContextOf(db, secrets, r).value, r.op.email, r.op.displayName, r.op.role.value,
                   r.op.newId, r.op.tempPassword, r.op.sent, u);
    hide Step, ContextOf, Text.Trim, FindUser, AfterInviteUser, Check;
  }

  lemma {:induction false} NewSignedUp(db: Db, secrets: Secrets, r: Request, u: Id)
    requires Admitted(db, secrets, r) && r.pub.SignUp?
    requires u !in db.users && u in Step(db, secrets, r).users
    ensures SignedUpHere(db, secrets, r, Step(db, secrets, r).users[u], u)
  {
    StepIs(db, secrets, r);
    hide Step, ContextOf, FindUser, Text.Trim;
  }

  // A new user is invited into the caller's org on a temporary password, or signs up as the owner of a new org.
  lemma {:induction false} NewUser(db: Db, secrets: Secrets, r: Request, u: Id)
    requires u !in db.users && u in Step(db, secrets, r).users
    ensures var user := Step(db, secrets, r).users[u];
            InvitedHere(db, secrets, r, user, u) || SignedUpHere(db, secrets, r, user, u)
  {
    StepIs(db, secrets, r);
    hide Step, ContextOf, Check, CheckPublic, InvitedHere, SignedUpHere, AfterAssignRole, AfterChangePassword;
    if !TouchesUsers(r) {
      UsersUntouched(db, secrets, r);
    } else if Granted(db, secrets, r) && r.op.InviteUser? {
      NewInvited(db, secrets, r, u);
    } else if Admitted(db, secrets, r) && r.pub.SignUp? {
      NewSignedUp(db, secrets, r, u);
    }
  }

  lemma {:induction false} OrgsOnlyBySignUp(db: Db, secrets: Secrets, r: Request)
    requires !(Admitted(db, secrets, r) && r.pub.SignUp?)
    ensures Step(db, secrets, r).orgs == db.orgs && Step(db, secrets, r).orgBySlug == db.orgBySlug
  {
    StepIs(db, secrets, r);
    hide Step, ContextOf, Check, CheckPublic, FindUser, FindViewer;
    hide AfterInviteUser, AfterAssignRole, AfterInviteViewer, AfterRevokeViewer, AfterCreateApiKey;
    hide AfterRevokeApiKey, AfterSignUp, AfterChangePassword, AfterActivateViewer;
  }

  lemma {:induction false} SignUpEffect(db: Db, secrets: Secrets, r: Request)
    requires Admitted(db, secrets, r) && r.pub.SignUp?
    ensures var after := Step(db, secrets, r);
            && after.orgs.Keys == db.orgs.Keys + {r.pub.newOrgId} && r.pub.newOrgId !in db.orgs
            && (forall o | o in db.orgs :: after.orgs[o] == db.orgs[o])
            && r.pub.newId in after.users
            && (var owner := after.users[r.pub.newId];
                owner.orgId == r.pub.newOrgId && owner.role == OWNER && !owner.mustChangePassword)
  {
    StepIs(db, secrets, r);
    hide Step, ContextOf, VerifyToken, Genuine;
  }

  // Granting a role takes a rank at least as high.
  lemma {:induction false} GrantedRoleBelowRank(db: Db, secrets: Secrets, r: Request)
    requires Granted(db, secrets, r) && (r.op.InviteUser? || r.op.AssignRole? || r.op.CreateApiKey?)
    ensures r.op.role.Some? && Rank(r.op.role.value) <= MaxRank(ContextOf(db, secrets, r).value.roles)
  {
    hide VerifyToken, ContextOf;
  }

  // assignRole reaches down its own org only, and never demotes its caller.
  lemma {:induction false} AssignRoleReach(db: Db, secrets: Secrets, r: Request)
    requires Granted(db, secrets, r) && r.op.AssignRole?
    ensures var ctx := ContextOf(db, secrets, r).value;
            && r.op.userId in db.users && db.users[r.op.userId].orgId == ctx.orgId
            && Rank(db.users[r.op.userId].role) <= MaxRank(ctx.roles) && MaxRank(ctx.roles) >= Rank(ADMIN)
            && (r.op.userId == ctx.userId ==> Rank(r.op.role.value) >= MaxRank(ctx.roles))
            && Step(db, secrets, r).users == db.users[r.op.userId := db.users[r.op.userId].(role := r.op.role.value)]
  {
    MaxRankIsMaximum(ContextOf(db, secrets, r).value.roles);
    StepIs(db, secrets, r);
    hide Step, ContextOf, VerifyToken, MaxRank;
  }

  // ---- Keys and viewers ------------------------------------------------------------------------------

  predicate TouchesKeys(r: Request) { !r.Public? && (r.op.CreateApiKey? || r.op.RevokeApiKey?) }

  lemma {:induction false} KeysUntouched(db: Db, secrets: Secrets, r: Request)
    requires !TouchesKeys(r)
    ensures Step(db, secrets, r).keys == db.keys
  {
    StepIs(db, secrets, r);
    hide Step, ContextOf, Check, CheckPublic, FindUser, FindViewer;
    hide AfterInviteUser, AfterAssignRole, AfterInviteViewer, AfterRevokeViewer;
    hide AfterSignUp, AfterChangePassword, AfterActivateViewer;
  }

  lemma {:induction false} KeysStay(db: Db, secrets: Secrets, r: Request)
    ensures db.keys.Keys <= Step(db, secrets, r).keys.Keys
  {
    StepIs(db, secrets, r);
    hide Step, ContextOf, Check, CheckPublic, FindUser, FindViewer, Audits, AfterCreateApiKey, AfterRevokeApiKey;
    if !TouchesKeys(r) { KeysUntouched(db, secrets, r); }
  }

  // Keys are only ever created, in the caller's org, and revoked, by a caller of their org.
  predicate KeyChange(db: Db, secrets: Secrets, r: Request, after: ApiKey, k: Id) {
    if k in db.keys then
      after == db.keys[k]
      || (after == db.keys[k].(revoked := true) && Granted(db, secrets, r)
          && ContextOf(db, secrets, r).value.orgId == db.keys[k].orgId)
    else
      Granted(db, secrets, r) && r.op.CreateApiKey? && k == r.op.newId
      && after.orgId == ContextOf(db, secrets, r).value.orgId
      && Some(after.role) == r.op.role && !after.revoked
  }

  lemma {:induction false} KeyAfterCreate(db: Db, secrets: Secrets, r: Request, k: Id)
    requires Granted(db, secrets, r) && r.op.CreateApiKey? && k in Step(db, secrets, r).keys
    ensures KeyChange(db, secrets, r, Step(db, secrets, r).keys[k], k)
  {
    StepIs(db, secrets, r);
    GrantedRoleBelowRank(db, secrets, r);
    hide Step, ContextOf, Text.Trim, Check;
  }

  lemma {:induction false} KeyAfterRevoke(db: Db, secrets: Secrets, r: Request, k: Id)
    requires Granted(db, secrets, r) && r.op.RevokeApiKey? && k in Step(db, secrets, r).keys
    ensures KeyChange(db, secrets, r, Step(db, secrets, r).keys[k], k)
  {
    StepIs(db, secrets, r);
    hide Step, ContextOf, MaxRank;
  }

  lemma {:induction false} KeyAfter(db: Db, secrets: Secrets, r: Request, k: Id)
    requires k in Step(db, secrets, r).keys
    ensures KeyChange(db, secrets, r, Step(db, secrets, r).keys[k], k)
  {
    hide Step, ContextOf, Check, CheckPublic, Apply, ApplyPublic;
    StepIs(db, secrets, r);
    if !TouchesKeys(r) {
      KeysUntouched(db, secrets, r);
    } else if Granted(db, secrets, r) {
      if r.op.CreateApiKey? { KeyAfterCreate(db, secrets, r, k); } else { KeyAfterRevoke(db, secrets, r, k); }
    }
  }

  predicate EntryLeadsHome(db: Db, o: Id, e: string) {
    (o, e) in db.viewerByEmail ==>
      var v := db.viewerByEmail[(o, e)];
      v in db.viewers && db.viewers[v].orgId == o && db.viewers[v].email == e
  }

  predicate Indexed(db: Db, v: Id) {
    v in db.viewers ==>
      FindViewer(db, db.viewers[v].orgId, db.viewers[v].email) == Some(v)
  }

  // The unique index on (org, email) leads to the viewer of that org and email and back; no id is both a user
  // and a viewer.
  ghost predicate DbOk(db: Db) {
    && (forall o, e :: EntryLeadsHome(db, o, e))
    && (forall v :: Indexed(db, v))
    && db.users.Keys !! db.viewers.Keys
  }

  // The ways a request can change an existing viewer, never the org or the email.
  predicate ViewerChange(db: Db, secrets: Secrets, r: Request, before: Viewer, after: Viewer, v: Id) {
    && after.orgId == before.orgId && after.email == before.email
    && (|| after == before
        || (Granted(db, secrets, r) && r.op.InviteViewer? && ContextOf(db, secrets, r).value.orgId == before.orgId
            && r.op.email == before.email && (before.activatedAt.None? || before.revokedAt.Some?)
            && after == before.(invitedAt := r.now, revokedAt := None))
        || (Granted(db, secrets, r) && r.op.RevokeViewer? && r.op.viewerId == v
            && ContextOf(db, secrets, r).value.orgId == before.orgId && after == before.(revokedAt := Some(r.now)))
        || (Admitted(db, secrets, r) && r.pub.ActivateViewer? && r.pub.token.sub == v
            && before.activatedAt.None? && before.revokedAt.None?
            && after == before.(passwordHash := Some(Hash(r.pub.password)), activatedAt := Some(r.now))))
  }

  predicate TouchesViewers(r: Request) {
    if !r.Public? then r.op.InviteViewer? || r.op.RevokeViewer? else r.pub.ActivateViewer?
  }

  lemma {:induction false} ViewersUntouched(db: Db, secrets: Secrets, r: Request)
    requires !TouchesViewers(r)
    ensures Step(db, secrets, r).viewers == db.viewers && Step(db, secrets, r).viewerByEmail == db.viewerByEmail
  {
    StepIs(db, secrets, r);
    hide Step, ContextOf, Check, CheckPublic, FindUser, FindViewer;
    hide AfterInviteUser, AfterAssignRole, AfterCreateApiKey, AfterRevokeApiKey, AfterSignUp, AfterChangePassword;
  }

  lemma {:induction false} ViewerAfterInvite(db: Db, secrets: Secrets, r: Request, v: Id)
    requires DbOk(db) && Granted(db, secrets, r) && r.op.InviteViewer? && v in db.viewers
    ensures var after := Step(db, secrets, r);
            v in after.viewers && ViewerChange(db, secrets, r, db.viewers[v], after.viewers[v], v)
  {
    assert EntryLeadsHome(db, ContextOf(db, secrets, r).value.orgId, r.op.email);
    StepIs(db, secrets, r);
    InviteViewerRows(db, r.now, ContextOf(db, secrets, r).value, r.op.email, r.op.newId, r.op.sent, v);
    hide Step, ContextOf, AfterInviteViewer;
  }

  lemma {:induction false} ViewerAfterOther(db: Db, secrets: Secrets, r: Request, v: Id)
    requires (Granted(db, secrets, r) && r.op.RevokeViewer?) || (Admitted(db, secrets, r) && r.pub.ActivateViewer?)
    requires v in db.viewers
    ensures var after := Step(db, secrets, r);
            v in after.viewers && ViewerChange(db, secrets, r, db.viewers[v], after.viewers[v], v)
  {
    StepIs(db, secrets, r);
    hide Step, ContextOf, FindUser, FindViewer, MaxRank;
  }

  lemma {:induction false} ViewerAfter(db: Db, secrets: Secrets, r: Request, v: Id)
    requires DbOk(db) && v in db.viewers
    ensures var after := Step(db, secrets, r);
            v in after.viewers && ViewerChange(db, secrets, r, db.viewers[v], after.viewers[v], v)
  {
    StepIs(db, secrets, r);
    hide Step, Apply, ApplyPublic, Check, CheckPublic, ContextOf, DbOk;
    if !TouchesViewers(r) {
      ViewersUntouched(db, secrets, r);
    } else if Granted(db, secrets, r) && r.op.InviteViewer? {
      ViewerAfterInvite(db, secrets, r, v);
    } else if Granted(db, secrets, r) || Admitted(db, secrets, r) {
      ViewerAfterOther(db, secrets, r, v);
    }
  }

  lemma {:induction false} NewViewer(db: Db, secrets: Secrets, r: Request, v: Id)
    requires v !in db.viewers && v in Step(db, secrets, r).viewers
    ensures Granted(db, secrets, r) && r.op.InviteViewer? && v == r.op.newId
    ensures Step(db, secrets, r).viewers[v]
            == Viewer(ContextOf(db, secrets, r).value.orgId, r.op.email, None, r.now, None, None)
  {
    StepIs(db, secrets, r);
    hide Step, ContextOf, Check, CheckPublic, FindUser, FindViewer;
    hide AfterInviteViewer, AfterRevokeViewer, AfterActivateViewer;
    if !TouchesViewers(r) {
      ViewersUntouched(db, secrets, r);
    } else if Granted(db, secrets, r) && r.op.InviteViewer? {
      InviteViewerRows(db, r.now, ContextOf(db, secrets, r).value, r.op.email, r.op.newId, r.op.sent, v);
    }
  }
}
