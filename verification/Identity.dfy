/** The identity service: orgs, users, API keys, viewers and the audit log, with the checks and the effect of
    every RPC that changes them. Each RPC is atomic. Password hashes and token signatures are ideal: a hash
    verifies exactly the password it was made from, and a token carries the secret it was signed with. */
module Identity {
  import opened Wrappers
  import opened Text
  import Slug

  type Id = string

  datatype Role = VIEWER | EDITOR | ADMIN | OWNER

  function Rank(r: Role): nat {
    match r
    case VIEWER => 1
    case EDITOR => 2
    case ADMIN => 3
    case OWNER => 4
  }

  datatype Hash = Hash(of: string)

  datatype User = User(
    email: string,
    displayName: string,
    orgId: Id,
    role: Role,
    passwordHash: Option<Hash>,
    mustChangePassword: bool,
    passwordExpiresAt: Option<int>)

  datatype ApiKey = ApiKey(name: string, secretHash: Hash, role: Role, orgId: Id, createdBy: Id,
                           expiresAt: Option<int>, revoked: bool)

  datatype Viewer = Viewer(
    orgId: Id,
    email: string,
    passwordHash: Option<Hash>,
    invitedAt: int,
    activatedAt: Option<int>,
    revokedAt: Option<int>)

  datatype AuditEvent = AuditEvent(orgId: Id, actorUserId: Id, action: string, resourceId: Id)

  // The tables, and the unique indexes on org slug, user email and (org, viewer email).
  datatype Db = Db(
    orgs: map<Id, string>,
    orgBySlug: map<string, Id>,
    users: map<Id, User>,
    userByEmail: map<string, Id>,
    keys: map<Id, ApiKey>,
    viewers: map<Id, Viewer>,
    viewerByEmail: map<(Id, string), Id>,
    audit: seq<AuditEvent>)

  const EMPTY := Db(map[], map[], map[], map[], map[], map[], map[], [])

  const TEMP_PASSWORD_TTL := 24 * 3600
  const SESSION_TTL := 8 * 3600
  const VIEWER_SESSION_TTL := 30 * 24 * 3600
  const ACTIVATION_TTL := 7 * 24 * 3600

  datatype Error = InvalidArgument | PermissionDenied | NotFound | AlreadyExists | Unauthenticated | Internal

  // ---- Tokens ------------------------------------------------------------------------------------

  datatype Kind = Staff | ViewerSession | ViewerActivate

  // `kind` is absent on tokens from before it was added.
  datatype Jwt = Jwt(secret: string, kind: Option<Kind>, sub: Id, exp: int)

  // JWT_SECRET and JWT_SECRET_PREVIOUS; "" is unset.
  datatype Secrets = Secrets(current: string, previous: string)

  function SignToken(secrets: Secrets, now: int, userId: Id): Jwt {
    Jwt(secrets.current, Some(Staff), userId, now + SESSION_TTL)
  }

  function SignViewerToken(secrets: Secrets, now: int, viewerId: Id): Jwt {
    Jwt(secrets.current, Some(ViewerSession), viewerId, now + VIEWER_SESSION_TTL)
  }

  function SignActivationToken(secrets: Secrets, now: int, viewerId: Id): Jwt {
    Jwt(secrets.current, Some(ViewerActivate), viewerId, now + ACTIVATION_TTL)
  }

  // jwtVerify under the current secret, and on any failure under the previous one.
  predicate Genuine(secrets: Secrets, now: int, t: Jwt) {
    (t.secret == secrets.current || (secrets.previous != "" && t.secret == secrets.previous)) && now < t.exp
  }

  predicate GenuineActivation(secrets: Secrets, now: int, t: Jwt) {
    Genuine(secrets, now, t) && t.kind == Some(ViewerActivate)
  }

  // ---- verifyToken ---------------------------------------------------------------------------------

  const API_KEY_PREFIX := "vfk_"

  function GenerateApiKey(keyId: Id, random: string): string {
    API_KEY_PREFIX + keyId + "_" + random
  }

  // `rest` is the key text after its prefix.
  function ApiKeyId(rest: string): Option<Id> {
    var sep := IndexOf(rest, '_');
    if sep > 0 then Some(rest[..sep]) else None
  }

  // A token that starts with the key prefix is a key, with what follows the prefix; any other is a JWT.
  datatype Credential = Bearer(jwt: Jwt) | Key(rest: string)

  datatype Context = Context(userId: Id, orgId: Id, roles: seq<Role>)

  datatype Verified = Invalid | StaffContext(ctx: Context) | ViewerContext(viewerId: Id, orgId: Id)

  // Role and org come from the row, not from the token.
  function VerifyToken(db: Db, secrets: Secrets, now: int, credential: Credential): Verified {
    match credential
    case Key(rest) =>
      var id := ApiKeyId(rest);
      if id.None? || id.value !in db.keys then Invalid
      else
        var key := db.keys[id.value];
        if key.revoked || (key.expiresAt.Some? && key.expiresAt.value < now)
            || key.secretHash != Hash(API_KEY_PREFIX + rest) then
          Invalid
        else StaffContext(Context(key.createdBy, key.orgId, [key.role]))
    case Bearer(t) =>
      if !Genuine(secrets, now, t) then Invalid
      else if t.kind == Some(ViewerSession) then
        if t.sub !in db.viewers || db.viewers[t.sub].activatedAt.None? || db.viewers[t.sub].revokedAt.Some? then Invalid
        else ViewerContext(t.sub, db.viewers[t.sub].orgId)
      else if t.sub !in db.users || db.users[t.sub].mustChangePassword then Invalid
      else StaffContext(Context(t.sub, db.users[t.sub].orgId, [db.users[t.sub].role]))
  }

  // ---- Requests -------------------------------------------------------------------------------------

  // RPCs behind a signed context. `sent` is whether the invite email went out; ids and temporary passwords
  // come from the generators.
  datatype MemberOp =
    | InviteUser(email: string, displayName: string, role: Option<Role>, newId: Id, tempPassword: string, sent: bool)
    | AssignRole(userId: Id, role: Option<Role>)
    | InviteViewer(email: string, newId: Id, sent: bool)
    | RevokeViewer(viewerId: Id)
    | CreateApiKey(name: string, role: Option<Role>, expiresAt: Option<int>, newId: Id, random: string)
    | RevokeApiKey(keyId: Id)

  // Entry points without one. `slugBase` is the slug of the org name.
  datatype PublicOp =
    | SignUp(email: string, password: string, displayName: string, slugBase: string, newId: Id, newOrgId: Id)
    | ChangePassword(email: string, currentPassword: string, newPassword: string)
    | ActivateViewer(orgSlug: string, token: Jwt, password: string)

  function MaxRank(roles: seq<Role>): nat {
    if roles == [] then 0
    else
      var rest := MaxRank(roles[1..]);
      if Rank(roles[0]) > rest then Rank(roles[0]) else rest
  }

  // MaxRank is the maximum of 0 and the ranks.
  lemma {:induction false} MaxRankIsMaximum(roles: seq<Role>)
    ensures MaxRank(roles) == 0 <==> roles == []
    ensures forall r | r in roles :: Rank(r) <= MaxRank(roles)
    ensures roles != [] ==> exists r | r in roles :: Rank(r) == MaxRank(roles)
  {
    if roles != [] {
      MaxRankIsMaximum(roles[1..]);
      assert forall r | r in roles[1..] :: r in roles;
      if MaxRank(roles) != Rank(roles[0]) {
        var r :| r in roles[1..] && Rank(r) == MaxRank(roles[1..]);
        assert r in roles;
      } else {
        assert roles[0] in roles;
      }
    }
  }

  function FindUser(db: Db, email: string): (id: Option<Id>)
    ensures id.Some? ==> id.value in db.users
  {
    if email in db.userByEmail && db.userByEmail[email] in db.users then Some(db.userByEmail[email]) else None
  }

  function FindViewer(db: Db, orgId: Id, email: string): (id: Option<Id>)
    ensures id.Some? ==> id.value in db.viewers
  {
    if (orgId, email) in db.viewerByEmail && db.viewerByEmail[(orgId, email)] in db.viewers then
      Some(db.viewerByEmail[(orgId, email)])
    else None
  }

  // The viewer an invite is for: the one already there, or the new one.
  function InvitedViewerId(db: Db, orgId: Id, email: string, newId: Id): Id {
    var found := FindViewer(db, orgId, email);
    if found.Some? then found.value else newId
  }

  // The generators never hand out an id twice, and user, viewer, key and org ids never coincide.
  predicate Unused(db: Db, id: Id) {
    id !in db.users && id !in db.viewers && id !in db.keys && id !in db.orgs
  }

  // ---- The checks of each RPC, in the order it makes them ----------------------------------------------

  function Check(db: Db, ctx: Context, op: MemberOp): Option<Error> {
    var rank := MaxRank(ctx.roles);
    match op
    case InviteUser(email, displayName, role, _, _, _) =>
      if rank < Rank(ADMIN) then Some(PermissionDenied)
      else if '@' !in email || Trim(displayName) == "" then Some(InvalidArgument)
      else if role.None? then Some(InvalidArgument)
      else if Rank(role.value) > rank then Some(PermissionDenied)
      else
        var found := FindUser(db, email);
        if found.Some? && !(db.users[found.value].orgId == ctx.orgId && db.users[found.value].mustChangePassword) then
          Some(AlreadyExists)
        else None
    case AssignRole(userId, role) =>
      if ADMIN !in ctx.roles && OWNER !in ctx.roles then Some(PermissionDenied)
      else if userId !in db.users || db.users[userId].orgId != ctx.orgId then Some(NotFound)
      else if role.None? then Some(InvalidArgument)
      else if Rank(role.value) > rank || Rank(db.users[userId].role) > rank then Some(PermissionDenied)
      else if userId == ctx.userId && Rank(role.value) < rank then Some(PermissionDenied)
      else None
    case InviteViewer(email, _, _) =>
      if rank < Rank(ADMIN) then Some(PermissionDenied)
      else if '@' !in email then Some(InvalidArgument)
      else
        var found := FindViewer(db, ctx.orgId, email);
        if found.Some? && db.viewers[found.value].activatedAt.Some? && db.viewers[found.value].revokedAt.None? then
          Some(AlreadyExists)
        else None
    case RevokeViewer(viewerId) =>
      if rank < Rank(ADMIN) then Some(PermissionDenied)
      else if viewerId !in db.viewers || db.viewers[viewerId].orgId != ctx.orgId then Some(NotFound)
      else None
    case CreateApiKey(name, role, _, _, _) =>
      if Trim(name) == "" then Some(InvalidArgument)
      else if role.None? then Some(InvalidArgument)
      else if Rank(role.value) > rank then Some(PermissionDenied)
      else None
    case RevokeApiKey(keyId) =>
      if keyId !in db.keys || db.keys[keyId].orgId != ctx.orgId then Some(NotFound) else None
  }

  function CheckPublic(db: Db, secrets: Secrets, now: int, op: PublicOp): Option<Error> {
    match op
    case SignUp(email, password, displayName, _, _, _) =>
      if '@' !in email || |password| < 8 || Trim(displayName) == "" then Some(InvalidArgument)
      else if FindUser(db, email).Some? then Some(AlreadyExists)
      else None
    case ChangePassword(email, currentPassword, newPassword) =>
      if |newPassword| < 8 then Some(InvalidArgument)
      else
        var found := FindUser(db, email);
        if found.None? || db.users[found.value].passwordHash != Some(Hash(currentPassword)) then Some(Unauthenticated)
        else
          var user := db.users[found.value];
          if user.mustChangePassword && user.passwordExpiresAt.Some? && user.passwordExpiresAt.value < now then
            Some(Unauthenticated)
          else None
    case ActivateViewer(orgSlug, token, password) =>
      if |password| < 8 then Some(InvalidArgument)
      else if !GenuineActivation(secrets, now, token) then Some(Unauthenticated)
      else if token.sub !in db.viewers || orgSlug !in db.orgBySlug
          || db.viewers[token.sub].orgId != db.orgBySlug[orgSlug] then
        Some(NotFound)
      else if db.viewers[token.sub].revokedAt.Some? then Some(PermissionDenied)
      else if db.viewers[token.sub].activatedAt.Some? then Some(AlreadyExists)
      else None
  }

  // ---- What each RPC writes once its checks pass --------------------------------------------------------

  function Logged(db: Db, ctx: Context, action: string, resourceId: Id): Db {
    db.(audit := db.audit + [AuditEvent(ctx.orgId, ctx.userId, action, resourceId)])
  }

  // The row is written before the email; when that fails no audit event follows.
  function LoggedIf(sent: bool, db: Db, ctx: Context, action: string, resourceId: Id): Db {
    if sent then Logged(db, ctx, action, resourceId) else db
  }

  // At most one event follows, and it is of the given org.
  predicate Audits(before: Db, after: Db, orgId: Id) {
    || after.audit == before.audit
    || (|after.audit| > 0 && after.audit[..|after.audit| - 1] == before.audit
        && after.audit[|after.audit| - 1].orgId == orgId)
  }

  // Re-inviting a pending member rotates the temporary password and sets the new role.
  function AfterInviteUser(db: Db, now: int, ctx: Context, email: string, displayName: string, role: Role, newId: Id,
                           tempPassword: string, sent: bool): (after: Db)
    ensures Audits(db, after, ctx.orgId)
    ensures after.orgs == db.orgs && after.orgBySlug == db.orgBySlug && after.keys == db.keys
            && after.viewers == db.viewers && after.viewerByEmail == db.viewerByEmail
  {
    match FindUser(db, email)
    case Some(id) =>
      var expiresAt := Some(now + TEMP_PASSWORD_TTL);
      var user := db.users[id].(displayName := Trim(displayName), passwordHash := Some(Hash(tempPassword)),
                                mustChangePassword := true, passwordExpiresAt := expiresAt, role := role);
      LoggedIf(sent, db.(users := db.users[id := user]), ctx, "user.reinvite", id)
    case None =>
      var user := User(email, Trim(displayName), ctx.orgId, role, Some(Hash(tempPassword)), true,
          Some(now + TEMP_PASSWORD_TTL));
      LoggedIf(sent, db.(users := db.users[newId := user], userByEmail := db.userByEmail[email := newId]), ctx,
          "user.invite", newId)
  }

  function AfterAssignRole(db: Db, ctx: Context, userId: Id, role: Role): (after: Db)
    requires userId in db.users
    ensures Audits(db, after, ctx.orgId)
    ensures after.users.Keys == db.users.Keys
    ensures after.orgs == db.orgs && after.orgBySlug == db.orgBySlug && after.userByEmail == db.userByEmail
            && after.keys == db.keys && after.viewers == db.viewers && after.viewerByEmail == db.viewerByEmail
  {
    Logged(db.(users := db.users[userId := db.users[userId].(role := role)]), ctx, "user.assign_role", userId)
  }

  // Re-inviting clears a revocation and keeps the password.
  function AfterInviteViewer(db: Db, now: int, ctx: Context, email: string, newId: Id, sent: bool): (after: Db)
    ensures Audits(db, after, ctx.orgId)
    ensures after.orgs == db.orgs && after.orgBySlug == db.orgBySlug && after.users == db.users
            && after.userByEmail == db.userByEmail && after.keys == db.keys
  {
    match FindViewer(db, ctx.orgId, email)
    case Some(id) =>
      var viewer := db.viewers[id].(invitedAt := now, revokedAt := None);
      LoggedIf(sent, db.(viewers := db.viewers[id := viewer]), ctx, "viewer.reinvite", id)
    case None =>
      var viewer := Viewer(ctx.orgId, email, None, now, None, None);
      LoggedIf(sent, db.(viewers := db.viewers[newId := viewer],
          viewerByEmail := db.viewerByEmail[(ctx.orgId, email) := newId]),
               ctx, "viewer.invite", newId)
  }

  function AfterRevokeViewer(db: Db, now: int, ctx: Context, viewerId: Id): (after: Db)
    requires viewerId in db.viewers
    ensures Audits(db, after, ctx.orgId)
    ensures after.viewers.Keys == db.viewers.Keys
    ensures after.orgs == db.orgs && after.orgBySlug == db.orgBySlug && after.users == db.users
            && after.userByEmail == db.userByEmail && after.keys == db.keys
            && after.viewerByEmail == db.viewerByEmail
  {
    Logged(db.(viewers := db.viewers[viewerId := db.viewers[viewerId].(revokedAt := Some(now))]), ctx,
        "viewer.revoke", viewerId)
  }

  function AfterCreateApiKey(db: Db, ctx: Context, name: string, role: Role, expiresAt: Option<int>, newId: Id,
                             random: string): (after: Db)
    ensures Audits(db, after, ctx.orgId)
    ensures db.keys.Keys <= after.keys.Keys
    ensures after.orgs == db.orgs && after.orgBySlug == db.orgBySlug && after.users == db.users
            && after.userByEmail == db.userByEmail && after.viewers == db.viewers
            && after.viewerByEmail == db.viewerByEmail
  {
    var key := ApiKey(Trim(name), Hash(GenerateApiKey(newId, random)), role, ctx.orgId, ctx.userId, expiresAt, false);
    Logged(db.(keys := db.keys[newId := key]), ctx, "apikey.create", newId)
  }

  function AfterRevokeApiKey(db: Db, ctx: Context, keyId: Id): (after: Db)
    requires keyId in db.keys
    ensures Audits(db, after, ctx.orgId)
    ensures db.keys.Keys <= after.keys.Keys
    ensures after.orgs == db.orgs && after.orgBySlug == db.orgBySlug && after.users == db.users
            && after.userByEmail == db.userByEmail && after.viewers == db.viewers
            && after.viewerByEmail == db.viewerByEmail
  {
    if db.keys[keyId].revoked then db
    else Logged(db.(keys := db.keys[keyId := db.keys[keyId].(revoked := true)]), ctx, "apikey.revoke", keyId)
  }

  function AfterSignUp(db: Db, email: string, password: string, displayName: string, slugBase: string,
                       newId: Id, newOrgId: Id): (after: Db)
    ensures Audits(db, after, newOrgId)
    ensures after.keys == db.keys && after.viewers == db.viewers && after.viewerByEmail == db.viewerByEmail
  {
    var slug := Slug.FreeSlug(db.orgBySlug.Keys, slugBase);
    var user := User(email, Trim(displayName), newOrgId, OWNER, Some(Hash(password)), false, None);
    Logged(db.(orgs := db.orgs[newOrgId := slug], orgBySlug := db.orgBySlug[slug := newOrgId],
               users := db.users[newId := user], userByEmail := db.userByEmail[email := newId]),
           Context(newId, newOrgId, [OWNER]), "user.sign_up", newId)
  }

  function AfterChangePassword(db: Db, id: Id, newPassword: string): (after: Db)
    requires id in db.users
    ensures Audits(db, after, db.users[id].orgId)
    ensures after.users.Keys == db.users.Keys
    ensures after.orgs == db.orgs && after.orgBySlug == db.orgBySlug && after.userByEmail == db.userByEmail
            && after.keys == db.keys && after.viewers == db.viewers && after.viewerByEmail == db.viewerByEmail
  {
    var user := db.users[id];
    Logged(db.(users := db.users[id := user.(passwordHash := Some(Hash(newPassword)), mustChangePassword := false,
        passwordExpiresAt := None)]),
           Context(id, user.orgId, [user.role]), "user.change_password", id)
  }

  function AfterActivateViewer(db: Db, now: int, id: Id, password: string): (after: Db)
    requires id in db.viewers
    ensures Audits(db, after, db.viewers[id].orgId)
    ensures after.viewers.Keys == db.viewers.Keys
    ensures after.orgs == db.orgs && after.orgBySlug == db.orgBySlug && after.users == db.users
            && after.userByEmail == db.userByEmail && after.keys == db.keys
            && after.viewerByEmail == db.viewerByEmail
  {
    db.(viewers := db.viewers[id := db.viewers[id].(passwordHash := Some(Hash(password)), activatedAt := Some(now))])
  }

  function Apply(db: Db, now: int, ctx: Context, op: MemberOp): Db
    requires Check(db, ctx, op).None?
  {
    match op
    case InviteUser(email, displayName, role, newId, tempPassword, sent) =>
      AfterInviteUser(db, now, ctx, email, displayName, role.value, newId, tempPassword, sent)
    case AssignRole(userId, role) => AfterAssignRole(db, ctx, userId, role.value)
    case InviteViewer(email, newId, sent) => AfterInviteViewer(db, now, ctx, email, newId, sent)
    case RevokeViewer(viewerId) => AfterRevokeViewer(db, now, ctx, viewerId)
    case CreateApiKey(name, role, expiresAt, newId, random) =>
      AfterCreateApiKey(db, ctx, name, role.value, expiresAt, newId, random)
    case RevokeApiKey(keyId) => AfterRevokeApiKey(db, ctx, keyId)
  }

  function ApplyPublic(db: Db, secrets: Secrets, now: int, op: PublicOp): Db
    requires CheckPublic(db, secrets, now, op).None?
  {
    match op
    case SignUp(email, password, displayName, slugBase, newId, newOrgId) =>
      AfterSignUp(db, email, password, displayName, slugBase, newId, newOrgId)
    case ChangePassword(email, _, newPassword) => AfterChangePassword(db, FindUser(db, email).value, newPassword)
    case ActivateViewer(_, token, password) => AfterActivateViewer(db, now, token.sub, password)
  }

  // ---- One request, and runs of them ---------------------------------------------------------------------

  // A member request is verified against the tables as it is handled, or comes under a context signed earlier:
  // the gateway's signature on it is good for five minutes, whatever the tables say by then.
  datatype Request =
    | Member(credential: Credential, now: int, op: MemberOp)
    | Forwarded(context: Context, now: int, op: MemberOp)
    | Public(now: int, pub: PublicOp)

  predicate FreshIds(db: Db, r: Request) {
    match r
    case Public(_, pub) =>
      pub.SignUp? ==> Unused(db, pub.newId) && Unused(db, pub.newOrgId) && pub.newId != pub.newOrgId
    case _ =>
      var op := r.op;
      op.InviteUser? || op.InviteViewer? || op.CreateApiKey? ==> Unused(db, op.newId)
  }

  // The context a request runs under.
  function ContextOf(db: Db, secrets: Secrets, r: Request): Option<Context> {
    match r
    case Public(_, _) => None
    case Forwarded(context, _, _) => Some(context)
    case Member(credential, now, _) =>
      var v := VerifyToken(db, secrets, now, credential);
      if v.StaffContext? then Some(v.ctx) else None
  }

  function Step(db: Db, secrets: Secrets, r: Request): Db {
    if !FreshIds(db, r) then db
    else
      match r
      case Public(now, pub) =>
        if CheckPublic(db, secrets, now, pub).Some? then db else ApplyPublic(db, secrets, now, pub)
      case _ =>
        var ctx := ContextOf(db, secrets, r);
        if ctx.None? || Check(db, ctx.value, r.op).Some? then db else Apply(db, r.now, ctx.value, r.op)
  }

  // A request and the secrets of the instance that handles it; a rotation changes them between requests.
  datatype Arrival = Arrival(secrets: Secrets, request: Request)

  function Run(db: Db, rs: seq<Arrival>): Db
    decreases |rs|
  {
    if rs == [] then db else Run(Step(db, rs[0].secrets, rs[0].request), rs[1..])
  }

  // ---- RPCs that only read ----------------------------------------------------------------------------------

  datatype Login = LoginRefused | PasswordChangeRequired | LoggedIn(token: Jwt)

  function UserLogin(db: Db, secrets: Secrets, now: int, email: string, password: string): Login {
    var found := FindUser(db, email);
    if found.None? || db.users[found.value].passwordHash != Some(Hash(password)) then LoginRefused
    else
      var user := db.users[found.value];
      if user.mustChangePassword then
        if user.passwordExpiresAt.Some? && user.passwordExpiresAt.value < now then LoginRefused
        else PasswordChangeRequired
      else LoggedIn(SignToken(secrets, now, found.value))
  }

  function ViewerLogin(db: Db, secrets: Secrets, now: int, orgSlug: string, email: string, password: string): Login {
    if orgSlug !in db.orgBySlug then LoginRefused
    else
      var found := FindViewer(db, db.orgBySlug[orgSlug], email);
      if found.None? || db.viewers[found.value].passwordHash != Some(Hash(password))
          || db.viewers[found.value].revokedAt.Some? then
        LoginRefused
      else LoggedIn(SignViewerToken(secrets, now, found.value))
  }
}
