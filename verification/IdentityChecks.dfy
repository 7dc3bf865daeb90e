/** Who may do what: the answer of every RPC's checks, in terms of the roles and the rows alone. */
module IdentityChecks {
  import opened Wrappers
  import opened Identity
  import opened IdentityIndexes
  import opened IdentitySteps

  predicate IsAdmin(roles: seq<Role>) { ADMIN in roles || OWNER in roles }

  // A role can be granted from it upward.
  predicate CanGrant(roles: seq<Role>, role: Role) {
    match role
    case VIEWER => roles != []
    case EDITOR => EDITOR in roles || ADMIN in roles || OWNER in roles
    case ADMIN => ADMIN in roles || OWNER in roles
    case OWNER => OWNER in roles
  }

  predicate Blank(s: string) { forall c | c in s :: Text.IsSpace(c) }

  lemma {:induction false} BlankIff(s: string)
    ensures Text.Trim(s) == "" <==> Blank(s)
  {
    var k := Text.TrimStartSplits(s);
    var t := Text.TrimStart(s);
    var m := Text.TrimEndSplits(t);
    assert t != "" ==> !Text.IsSpace(t[0]) && m > 0;
    assert Text.Trim(s) != "" ==> t[m - 1] in s && !Text.IsSpace(t[m - 1]);
    assert Text.Trim(s) == "" ==> k == |s|;
    assert k == |s| ==> forall i | 0 <= i < |s| :: Text.IsSpace(s[i]);
  }

  lemma {:induction false} RankMeans(roles: seq<Role>, role: Role)
    ensures Rank(role) <= MaxRank(roles) <==> CanGrant(roles, role)
    ensures MaxRank(roles) >= Rank(ADMIN) <==> IsAdmin(roles)
  {
    MaxRankIsMaximum(roles);
    hide MaxRank;
    if roles != [] {
      var top :| top in roles && Rank(top) == MaxRank(roles);
      assert top in {VIEWER, EDITOR, ADMIN, OWNER};
    }
  }

  // ---- Rows, without the indexes ---------------------------------------------------------------------------

  lemma {:induction false} FindUserIff(db: Db, email: string, u: Id)
    requires UsersOk(db)
    ensures FindUser(db, email) == Some(u) <==> u in db.users && db.users[u].email == email
  {
    assert EmailLeadsHome(db, email) && Found(db, u);
  }

  lemma {:induction false} FindViewerIff(db: Db, o: Id, email: string, v: Id)
    requires DbOk(db)
    ensures FindViewer(db, o, email) == Some(v)
            <==> v in db.viewers && db.viewers[v].orgId == o && db.viewers[v].email == email
  {
    assert EntryLeadsHome(db, o, email) && Indexed(db, v);
  }

  predicate EmailTaken(db: Db, email: string) { exists u | u in db.users :: db.users[u].email == email }

  // Some account with that email that is not a pending one of the org.
  predicate EmailTakenFrom(db: Db, orgId: Id, email: string) {
    exists u | u in db.users ::
      db.users[u].email == email && !(db.users[u].orgId == orgId && db.users[u].mustChangePassword)
  }

  predicate LiveViewer(db: Db, orgId: Id, email: string) {
    exists v | v in db.viewers ::
      && db.viewers[v].orgId == orgId && db.viewers[v].email == email
      && db.viewers[v].activatedAt.Some? && db.viewers[v].revokedAt.None?
  }

  lemma {:induction false} TakenIff(db: Db, orgId: Id, email: string)
    requires UsersOk(db)
    ensures FindUser(db, email).Some? <==> EmailTaken(db, email)
    ensures (FindUser(db, email).Some? && !(db.users[FindUser(db, email).value].orgId == orgId
                                            && db.users[FindUser(db, email).value].mustChangePassword))
            <==> EmailTakenFrom(db, orgId, email)
  {
    var found := FindUser(db, email);
    if found.Some? { FindUserIff(db, email, found.value); }
    hide UsersOk, FindUser;
    if u :| u in db.users && db.users[u].email == email { FindUserIff(db, email, u); }
    if u :| u in db.users && db.users[u].email == email
            && !(db.users[u].orgId == orgId && db.users[u].mustChangePassword) {
      FindUserIff(db, email, u);
    }
  }

  lemma {:induction false} LiveIff(db: Db, orgId: Id, email: string)
    requires DbOk(db)
    ensures var found := FindViewer(db, orgId, email);
            (found.Some? && db.viewers[found.value].activatedAt.Some? && db.viewers[found.value].revokedAt.None?)
            <==> LiveViewer(db, orgId, email)
  {
    var found := FindViewer(db, orgId, email);
    if found.Some? { FindViewerIff(db, orgId, email, found.value); }
    hide DbOk, FindViewer;
    if v :| && v in db.viewers && db.viewers[v].orgId == orgId && db.viewers[v].email == email
            && db.viewers[v].activatedAt.Some? && db.viewers[v].revokedAt.None?
    {
      FindViewerIff(db, orgId, email, v);
    }
  }

  // ---- Members ---------------------------------------------------------------------------------------------

  lemma {:induction false} InviteUserChecks(db: Db, ctx: Context, op: MemberOp)
    requires UsersOk(db) && op.InviteUser?
    ensures var refused := Check(db, ctx, op);
            var wellFormed := '@' in op.email && !Blank(op.displayName) && op.role.Some?;
            && (refused == Some(PermissionDenied)
                <==> !IsAdmin(ctx.roles) || (wellFormed && !CanGrant(ctx.roles, op.role.value)))
            && (refused == Some(InvalidArgument) <==> IsAdmin(ctx.roles) && !wellFormed)
            && (refused == Some(AlreadyExists)
                <==> && IsAdmin(ctx.roles) && wellFormed && CanGrant(ctx.roles, op.role.value)
                     && EmailTakenFrom(db, ctx.orgId, op.email))
            && (refused.Some? ==> refused.value in {PermissionDenied, InvalidArgument, AlreadyExists})
  {
    BlankIff(op.displayName);
    RankMeans(ctx.roles, if op.role.Some? then op.role.value else VIEWER);
    TakenIff(db, ctx.orgId, op.email);
    hide UsersOk, FindUser, MaxRank, Text.Trim, Blank, EmailTakenFrom, EmailTaken, CanGrant, IsAdmin;
  }

  lemma {:induction false} AssignRoleChecks(db: Db, ctx: Context, op: MemberOp)
    requires op.AssignRole?
    ensures var refused := Check(db, ctx, op);
            var here := op.userId in db.users && db.users[op.userId].orgId == ctx.orgId;
            && (refused == Some(NotFound) <==> IsAdmin(ctx.roles) && !here)
            && (refused == Some(InvalidArgument) <==> IsAdmin(ctx.roles) && here && op.role.None?)
            && (refused == Some(PermissionDenied)
                <==> || !IsAdmin(ctx.roles)
                     || (&& here && op.role.Some?
                         && (|| !CanGrant(ctx.roles, op.role.value) || !CanGrant(ctx.roles, db.users[op.userId].role)
                             || (op.userId == ctx.userId && Rank(op.role.value) < MaxRank(ctx.roles)))))
            && (refused.Some? ==> refused.value in {NotFound, InvalidArgument, PermissionDenied})
  {
    RankMeans(ctx.roles, if op.role.Some? then op.role.value else VIEWER);
    if op.userId in db.users { RankMeans(ctx.roles, db.users[op.userId].role); }
    hide MaxRank, CanGrant;
  }

  lemma {:induction false} InviteViewerChecks(db: Db, ctx: Context, op: MemberOp)
    requires DbOk(db) && op.InviteViewer?
    ensures var refused := Check(db, ctx, op);
            && (refused == Some(PermissionDenied) <==> !IsAdmin(ctx.roles))
            && (refused == Some(InvalidArgument) <==> IsAdmin(ctx.roles) && '@' !in op.email)
            && (refused == Some(AlreadyExists)
                <==> IsAdmin(ctx.roles) && '@' in op.email && LiveViewer(db, ctx.orgId, op.email))
            && (refused.Some? ==> refused.value in {PermissionDenied, InvalidArgument, AlreadyExists})
  {
    RankMeans(ctx.roles, VIEWER);
    LiveIff(db, ctx.orgId, op.email);
    hide DbOk, FindViewer, MaxRank, LiveViewer, IsAdmin;
  }

  lemma {:induction false} OtherMemberChecks(db: Db, ctx: Context, op: MemberOp)
    requires op.RevokeViewer? || op.CreateApiKey? || op.RevokeApiKey?
    ensures var refused := Check(db, ctx, op);
            match op
            case RevokeViewer(v) =>
              && (refused == Some(PermissionDenied) <==> !IsAdmin(ctx.roles))
              && (refused == Some(NotFound)
                  <==> IsAdmin(ctx.roles) && !(v in db.viewers && db.viewers[v].orgId == ctx.orgId))
              && (refused.Some? ==> refused.value in {PermissionDenied, NotFound})
            case CreateApiKey(name, role, _, _, _) =>
              && (refused == Some(InvalidArgument) <==> Blank(name) || role.None?)
              && (refused == Some(PermissionDenied) <==> !Blank(name) && role.Some? && !CanGrant(ctx.roles, role.value))
              && (refused.Some? ==> refused.value in {InvalidArgument, PermissionDenied})
            case RevokeApiKey(k) =>
              && (refused.Some? <==> !(k in db.keys && db.keys[k].orgId == ctx.orgId))
              && (refused.Some? ==> refused.value == NotFound)
            case _ => true
  {
    if op.CreateApiKey? {
      BlankIff(op.name);
      RankMeans(ctx.roles, if op.role.Some? then op.role.value else VIEWER);
    } else {
      RankMeans(ctx.roles, VIEWER);
    }
    hide MaxRank, Text.Trim, Blank, CanGrant, IsAdmin;
  }

  // ---- Public entry points -------------------------------------------------------------------------------------

  lemma {:induction false} SignUpChecks(db: Db, secrets: Secrets, now: int, op: PublicOp)
    requires UsersOk(db) && op.SignUp?
    ensures var refused := CheckPublic(db, secrets, now, op);
            var wellFormed := '@' in op.email && |op.password| >= 8 && !Blank(op.displayName);
            && (refused == Some(InvalidArgument) <==> !wellFormed)
            && (refused == Some(AlreadyExists) <==> wellFormed && EmailTaken(db, op.email))
            && (refused.Some? ==> refused.value in {InvalidArgument, AlreadyExists})
  {
    BlankIff(op.displayName);
    TakenIff(db, "", op.email);
    hide UsersOk, FindUser, Text.Trim, Blank, EmailTakenFrom, EmailTaken;
  }

  // The user with that email and that password, off an expired temporary one.
  predicate Knows(db: Db, now: int, email: string, password: string) {
    exists u | u in db.users ::
      && db.users[u].email == email && db.users[u].passwordHash == Some(Hash(password))
      && !(db.users[u].mustChangePassword && db.users[u].passwordExpiresAt.Some?
          && db.users[u].passwordExpiresAt.value < now)
  }

  lemma {:induction false} ChangePasswordChecks(db: Db, secrets: Secrets, now: int, op: PublicOp)
    requires UsersOk(db) && op.ChangePassword?
    ensures var refused := CheckPublic(db, secrets, now, op);
            && (refused == Some(InvalidArgument) <==> |op.newPassword| < 8)
            && (refused == Some(Unauthenticated)
                <==> |op.newPassword| >= 8 && !Knows(db, now, op.email, op.currentPassword))
            && (refused.Some? ==> refused.value in {InvalidArgument, Unauthenticated})
  {
    var found := FindUser(db, op.email);
    if found.Some? { FindUserIff(db, op.email, found.value); }
    hide UsersOk, FindUser;
    if u :| && u in db.users && db.users[u].email == op.email
            && db.users[u].passwordHash == Some(Hash(op.currentPassword))
            && !(&& db.users[u].mustChangePassword && db.users[u].passwordExpiresAt.Some?
                 && db.users[u].passwordExpiresAt.value < now)
    {
      FindUserIff(db, op.email, u);
    }
  }

  lemma {:induction false} ActivateViewerChecks(db: Db, secrets: Secrets, now: int, op: PublicOp)
    requires OrgsOk(db) && op.ActivateViewer?
    ensures var refused := CheckPublic(db, secrets, now, op);
            var t := op.token;
            var genuine := && t.kind == Some(ViewerActivate) && now < t.exp
                           && (t.secret == secrets.current || (secrets.previous != "" && t.secret == secrets.previous));
            var here := && t.sub in db.viewers && db.viewers[t.sub].orgId in db.orgs
                        && db.orgs[db.viewers[t.sub].orgId] == op.orgSlug;
            && (refused == Some(InvalidArgument) <==> |op.password| < 8)
            && (refused == Some(Unauthenticated) <==> |op.password| >= 8 && !genuine)
            && (refused == Some(NotFound) <==> |op.password| >= 8 && genuine && !here)
            && (refused == Some(PermissionDenied)
                <==> |op.password| >= 8 && genuine && here && db.viewers[t.sub].revokedAt.Some?)
            && (refused == Some(AlreadyExists)
                <==> |op.password| >= 8 && genuine && here && db.viewers[t.sub].revokedAt.None?
                     && db.viewers[t.sub].activatedAt.Some?)
            && (refused.Some? ==>
                  refused.value in {InvalidArgument, Unauthenticated, NotFound, PermissionDenied, AlreadyExists})
  {
    if op.token.sub in db.viewers && op.orgSlug in db.orgBySlug {
      var o := db.viewers[op.token.sub].orgId;
      assert o in db.orgs ==> db.orgBySlug[db.orgs[o]] == o;
    }
  }

  // ---- Sessions -----------------------------------------------------------------------------------------------

  // What a login answers, and a session in use: whose it is, and whether it is good.
  lemma {:induction false} LoginAnswers(db: Db, secrets: Secrets, now: int, email: string, password: string)
    requires UsersOk(db)
    ensures var login := UserLogin(db, secrets, now, email, password);
            && (login.LoginRefused? <==> !Knows(db, now, email, password))
            && (login.PasswordChangeRequired?
                <==> exists u | u in db.users ::
                       && db.users[u].email == email && db.users[u].passwordHash == Some(Hash(password))
                       && db.users[u].mustChangePassword
                       && (db.users[u].passwordExpiresAt.Some? ==> now <= db.users[u].passwordExpiresAt.value))
            && (login.LoggedIn? ==> login.token == Jwt(secrets.current, Some(Staff), login.token.sub, now + 28800))
  {
    var found := FindUser(db, email);
    if found.Some? { FindUserIff(db, email, found.value); }
    hide UsersOk, FindUser;
    forall u | u in db.users && db.users[u].email == email ensures found == Some(u) { FindUserIff(db, email, u); }
  }

  lemma SessionIsGoodIff(db: Db, secrets: Secrets, now: int, t: Jwt)
    ensures var genuine := && now < t.exp
                           && (t.secret == secrets.current || (secrets.previous != "" && t.secret == secrets.previous));
            && (VerifyToken(db, secrets, now, Bearer(t)).StaffContext?
                <==> && genuine && t.kind != Some(ViewerSession)
                     && t.sub in db.users && !db.users[t.sub].mustChangePassword)
            && (VerifyToken(db, secrets, now, Bearer(t)).ViewerContext?
                <==> && genuine && t.kind == Some(ViewerSession)
                     && t.sub in db.viewers && db.viewers[t.sub].activatedAt.Some? && db.viewers[t.sub].revokedAt.None?)
  {
  }

  // ---- Signing up ------------------------------------------------------------------------------------------------

  // A signup founds an org of its own under the first free slug, whose owner logs in at once with their password.
  lemma {:induction false} SignedUpGetsIn(db: Db, secrets: Secrets, r: Request)
    requires OrgsOk(db) && Admitted(db, secrets, r) && r.pub.SignUp?
    ensures var after, op := Step(db, secrets, r), r.pub;
            var login := UserLogin(after, secrets, r.now, op.email, op.password);
            && after.users[op.newId].displayName == Text.Trim(op.displayName)
            && (exists k: nat :: Slug.FirstFree(db.orgs.Values, op.slugBase, k)
                                 && after.orgs[op.newOrgId] == Slug.Candidate(op.slugBase, k))
            && login.LoggedIn?
            && VerifyToken(after, secrets, r.now, Bearer(login.token))
                == StaffContext(Context(op.newId, op.newOrgId, [OWNER]))
  {
    var op := r.pub;
    StepIs(db, secrets, r);
    SignUpIndex(db, op.email, op.password, op.displayName, op.slugBase, op.newId, op.newOrgId);
    SlugsAreKeys(db);
    var k := Slug.FreeSuffix(db.orgBySlug.Keys, op.slugBase);
    assert Slug.FirstFree(db.orgs.Values, op.slugBase, k);
    hide Step, ContextOf, Check, CheckPublic, FreshIds, AfterSignUp, Text.Trim, Slug.FreeSuffix,
         Slug.FirstFree, Slug.Candidate;
  }

  lemma {:induction false} SlugsAreKeys(db: Db)
    requires OrgsOk(db)
    ensures db.orgs.Values == db.orgBySlug.Keys
  {
    forall s ensures s in db.orgs.Values <==> s in db.orgBySlug.Keys {
      if s in db.orgBySlug { assert db.orgs[db.orgBySlug[s]] == s; }
    }
  }
}
