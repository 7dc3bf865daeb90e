/** The RPC handlers that write: each makes its checks in the source's order, writes its rows, and ends up exactly
    where the specification in Identity says. */
module AuthService {
  import opened Wrappers
  import opened Text
  import opened Identity

  // The invite email failed after the row was written.
  predicate Unsent(op: MemberOp) { (op.InviteUser? || op.InviteViewer?) && !op.sent }

  // A member request answered as specified: refused with the first check that fails and nothing written, or
  // carried out.
  predicate Answered(before: Db, after: Db, now: int, ctx: Context, op: MemberOp, error: Option<Error>) {
    match Check(before, ctx, op)
    case Some(e) => error == Some(e) && after == before
    case None => after == Apply(before, now, ctx, op) && error == if Unsent(op) then Some(Internal) else None
  }

  predicate AnsweredPublic(before: Db, after: Db, secrets: Secrets, now: int, op: PublicOp,
                           reply: Result<Jwt, Error>, token: Jwt)
  {
    match CheckPublic(before, secrets, now, op)
    case Some(e) => reply == Err(e) && after == before
    case None => after == ApplyPublic(before, secrets, now, op) && reply == Ok(token)
  }

  // What concurrent signups did to this one: nothing; or they took its slug between its check and its insert, so
  // that it tried once more with a random suffix; or that failed on a unique constraint as well.
  datatype Race = NoRace | LostOnce(suffix: string) | LostTwice(suffix: string)

  function SlugBase(orgName: string, displayName: string, lower: string -> string, race: Race): string {
    var name := if Trim(orgName) != "" then Trim(orgName) else Trim(displayName) + "'s org";
    var base := Slug.Slugify(name, lower);
    if race.NoRace? then base else base + "-" + race.suffix
  }

  // A signup's slug is made of the words of the org's name, or else of "<display name>'s org"; after a lost race it
  // carries the random suffix.
  lemma {:induction false} SlugIsTheOrgName(orgName: string, displayName: string, lower: string -> string, race: Race)
    ensures var name := if Trim(orgName) == "" then Trim(displayName) + "'s org" else Trim(orgName);
            var words := Slug.Words(lower(name));
            var slug := SlugBase(orgName, displayName, lower, race);
            && (race.NoRace? && words != [] ==> slug == Join(words, "-"))
            && (race.NoRace? && words == [] ==> slug == "org")
            && (!race.NoRace? ==> slug == SlugBase(orgName, displayName, lower, NoRace) + "-" + race.suffix)
  {
    Slug.SlugifyJoinsWords(if Trim(orgName) != "" then Trim(orgName) else Trim(displayName) + "'s org", lower);
    hide Trim, Slug.Words, Join, Slug.Slugify;
  }

  // Math.max(...ctx.roles.map(rank), 0)
  method HighestRank(roles: seq<Role>) returns (rank: nat)
    ensures rank == MaxRank(roles)
    ensures rank == 0 <==> roles == []
    ensures forall r | r in roles :: Rank(r) <= rank
    ensures roles != [] ==> exists r | r in roles :: Rank(r) == rank
  {
    rank := 0;
    var i := |roles|;
    while i > 0
      invariant 0 <= i <= |roles| && rank == MaxRank(roles[i..])
    {
      i := i - 1;
      assert roles[i..][1..] == roles[i + 1..];
      if Rank(roles[i]) > rank { rank := Rank(roles[i]); }
    }
    assert roles[0..] == roles;
    MaxRankIsMaximum(roles);
  }

  class AuthService {
    var db: Db
    var secrets: Secrets

    constructor (secrets: Secrets)
      ensures db == EMPTY && this.secrets == secrets
    {
      db := EMPTY;
      this.secrets := secrets;
    }

    method Record(orgId: Id, actor: Id, action: string, resourceId: Id)
      modifies this`db
      ensures db == old(db).(audit := old(db.audit) + [AuditEvent(orgId, actor, action, resourceId)])
    {
      db := db.(audit := db.audit + [AuditEvent(orgId, actor, action, resourceId)]);
    }

    method InviteUser(ctx: Context, now: int, email: string, displayName: string, role: Option<Role>, newId: Id,
                      tempPassword: string, sent: bool) returns (error: Option<Error>)
      modifies this`db
      ensures Answered(old(db), db, now, ctx,
                       MemberOp.InviteUser(email, displayName, role, newId, tempPassword, sent), error)
    {
      var inviterRank := HighestRank(ctx.roles);
      if inviterRank < Rank(ADMIN) { return Some(PermissionDenied); }
      if '@' !in email || Trim(displayName) == "" { return Some(InvalidArgument); }
      if role.None? { return Some(InvalidArgument); }
      if Rank(role.value) > inviterRank { return Some(PermissionDenied); }
      var existing := FindUser(db, email);
      if existing.Some? {
        var found := db.users[existing.value];
        if !(found.orgId == ctx.orgId && found.mustChangePassword) { return Some(AlreadyExists); }
      }
      var expiresAt := now + TEMP_PASSWORD_TTL;
      var id, action := newId, "user.invite";
      if existing.Some? {
        id, action := existing.value, "user.reinvite";
        var user := db.users[id].(displayName := Trim(displayName), passwordHash := Some(Hash(tempPassword)),
                                  mustChangePassword := true, passwordExpiresAt := Some(expiresAt), role := role.value);
        db := db.(users := db.users[id := user]);
      } else {
        var user := User(email, Trim(displayName), ctx.orgId, role.value, Some(Hash(tempPassword)), true,
            Some(expiresAt));
        db := db.(users := db.users[id := user], userByEmail := db.userByEmail[email := id]);
      }
      if !sent { return Some(Internal); }
      Record(ctx.orgId, ctx.userId, action, id);
      return None;
    }

    method AssignRole(ctx: Context, now: int, userId: Id, role: Option<Role>) returns (error: Option<Error>)
      modifies this`db
      ensures Answered(old(db), db, now, ctx, MemberOp.AssignRole(userId, role), error)
    {
      if ADMIN !in ctx.roles && OWNER !in ctx.roles { return Some(PermissionDenied); }
      if userId !in db.users { return Some(NotFound); }
      var target := db.users[userId];
      if target.orgId != ctx.orgId { return Some(NotFound); }
      if role.None? { return Some(InvalidArgument); }
      var actorRank := HighestRank(ctx.roles);
      if Rank(role.value) > actorRank || Rank(target.role) > actorRank { return Some(PermissionDenied); }
      if userId == ctx.userId && Rank(role.value) < actorRank { return Some(PermissionDenied); }
      db := db.(users := db.users[userId := target.(role := role.value)]);
      Record(ctx.orgId, ctx.userId, "user.assign_role", userId);
      return None;
    }

    // The activation token goes into the email, whether or not that can be sent.
    method InviteViewer(ctx: Context, now: int, email: string, newId: Id, sent: bool)
      returns (error: Option<Error>, emailed: Option<Jwt>)
      modifies this`db
      ensures Answered(old(db), db, now, ctx, MemberOp.InviteViewer(email, newId, sent), error)
      ensures emailed == if Check(old(db), ctx, MemberOp.InviteViewer(email, newId, sent)).Some? then None
                         else Some(SignActivationToken(secrets, now, InvitedViewerId(old(db), ctx.orgId, email, newId)))
    {
      var inviterRank := HighestRank(ctx.roles);
      if inviterRank < Rank(ADMIN) { return Some(PermissionDenied), None; }
      if '@' !in email { return Some(InvalidArgument), None; }
      var existing := FindViewer(db, ctx.orgId, email);
      if existing.Some? {
        var found := db.viewers[existing.value];
        if found.activatedAt.Some? && found.revokedAt.None? { return Some(AlreadyExists), None; }
      }
      var id, action := newId, "viewer.invite";
      if existing.Some? {
        id, action := existing.value, "viewer.reinvite";
        db := db.(viewers := db.viewers[id := db.viewers[id].(invitedAt := now, revokedAt := None)]);
      } else {
        db := db.(viewers := db.viewers[id := Viewer(ctx.orgId, email, None, now, None, None)],
                  viewerByEmail := db.viewerByEmail[(ctx.orgId, email) := id]);
      }
      emailed := Some(SignActivationToken(secrets, now, id));
      if !sent { return Some(Internal), emailed; }
      Record(ctx.orgId, ctx.userId, action, id);
      error := None;
    }

    method RevokeViewer(ctx: Context, now: int, viewerId: Id) returns (error: Option<Error>)
      modifies this`db
      ensures Answered(old(db), db, now, ctx, MemberOp.RevokeViewer(viewerId), error)
    {
      var inviterRank := HighestRank(ctx.roles);
      if inviterRank < Rank(ADMIN) { return Some(PermissionDenied); }
      if viewerId !in db.viewers { return Some(NotFound); }
      var viewer := db.viewers[viewerId];
      if viewer.orgId != ctx.orgId { return Some(NotFound); }
      db := db.(viewers := db.viewers[viewerId := viewer.(revokedAt := Some(now))]);
      Record(ctx.orgId, ctx.userId, "viewer.revoke", viewerId);
      return None;
    }

    // On success the caller is handed the key itself; only its hash is kept.
    method CreateApiKey(ctx: Context, now: int, name: string, role: Option<Role>, expiresAt: Option<int>,
                        newId: Id, random: string)
      returns (error: Option<Error>, secret: string)
      modifies this`db
      ensures Answered(old(db), db, now, ctx, MemberOp.CreateApiKey(name, role, expiresAt, newId, random), error)
      ensures error.None? ==> newId in db.keys && db.keys[newId].secretHash == Hash(secret)
    {
      if Trim(name) == "" { return Some(InvalidArgument), ""; }
      if role.None? { return Some(InvalidArgument), ""; }
      var creatorRank := HighestRank(ctx.roles);
      if Rank(role.value) > creatorRank { return Some(PermissionDenied), ""; }
      secret := GenerateApiKey(newId, random);
      var key := ApiKey(Trim(name), Hash(secret), role.value, ctx.orgId, ctx.userId, expiresAt, false);
      db := db.(keys := db.keys[newId := key]);
      Record(ctx.orgId, ctx.userId, "apikey.create", newId);
      error := None;
    }

    method RevokeApiKey(ctx: Context, now: int, keyId: Id) returns (error: Option<Error>)
      modifies this`db
      ensures Answered(old(db), db, now, ctx, MemberOp.RevokeApiKey(keyId), error)
    {
      if keyId !in db.keys { return Some(NotFound); }
      var key := db.keys[keyId];
      if key.orgId != ctx.orgId { return Some(NotFound); }
      if !key.revoked {
        db := db.(keys := db.keys[keyId := key.(revoked := true)]);
        Record(ctx.orgId, ctx.userId, "apikey.revoke", keyId);
      }
      return None;
    }

    // `lower` is the host language's toLowerCase.
    method SignUp(now: int, email: string, password: string, displayName: string, orgName: string,
                  lower: string -> string, race: Race, newId: Id, newOrgId: Id)
      returns (reply: Result<Jwt, Error>)
      modifies this`db
      ensures var base := SlugBase(orgName, displayName, lower, race);
              var op := PublicOp.SignUp(email, password, displayName, base, newId, newOrgId);
              if race.LostTwice? && CheckPublic(old(db), secrets, now, op).None? then
                reply == Err(Internal) && db == old(db)
              else
                AnsweredPublic(old(db), db, secrets, now, op, reply, SignToken(secrets, now, newId))
    {
      if '@' !in email || |password| < 8 || Trim(displayName) == "" { return Err(InvalidArgument); }
      var existing := FindUser(db, email);
      if existing.Some? { return Err(AlreadyExists); }
      var name := Trim(orgName);
      if name == "" { name := Trim(displayName) + "'s org"; }
      var base := Slug.Slugify(name, lower);
      if !race.NoRace? { base := base + "-" + race.suffix; }
      if race.LostTwice? { return Err(Internal); }
      var slug, _ := Slug.FindFreeSlug(db.orgBySlug.Keys, base);
      db := db.(orgs := db.orgs[newOrgId := slug], orgBySlug := db.orgBySlug[slug := newOrgId]);
      var user := User(email, Trim(displayName), newOrgId, OWNER, Some(Hash(password)), false, None);
      db := db.(users := db.users[newId := user], userByEmail := db.userByEmail[email := newId]);
      Record(newOrgId, newId, "user.sign_up", newId);
      return Ok(SignToken(secrets, now, newId));
    }

    method ChangePassword(now: int, email: string, currentPassword: string,
                          newPassword: string) returns (reply: Result<Jwt, Error>)
      modifies this`db
      ensures var found := FindUser(old(db), email);
              AnsweredPublic(old(db), db, secrets, now, PublicOp.ChangePassword(email, currentPassword, newPassword),
                             reply, SignToken(secrets, now, if found.Some? then found.value else ""))
    {
      if |newPassword| < 8 { return Err(InvalidArgument); }
      var found := FindUser(db, email);
      if found.None? { return Err(Unauthenticated); }
      var id, user := found.value, db.users[found.value];
      if user.passwordHash != Some(Hash(currentPassword)) { return Err(Unauthenticated); }
      if user.mustChangePassword && user.passwordExpiresAt.Some? && user.passwordExpiresAt.value < now {
        return Err(Unauthenticated);
      }
      db := db.(users := db.users[id := user.(passwordHash := Some(Hash(newPassword)), mustChangePassword := false,
                                              passwordExpiresAt := None)]);
      Record(user.orgId, id, "user.change_password", id);
      return Ok(SignToken(secrets, now, id));
    }

    method ActivateViewer(now: int, orgSlug: string, token: Jwt, password: string) returns (reply: Result<Jwt, Error>)
      modifies this`db
      ensures AnsweredPublic(old(db), db, secrets, now, PublicOp.ActivateViewer(orgSlug, token, password), reply,
                             SignViewerToken(secrets, now, token.sub))
    {
      if |password| < 8 { return Err(InvalidArgument); }
      if !GenuineActivation(secrets, now, token) { return Err(Unauthenticated); }
      if token.sub !in db.viewers || orgSlug !in db.orgBySlug { return Err(NotFound); }
      var viewer := db.viewers[token.sub];
      if viewer.orgId != db.orgBySlug[orgSlug] { return Err(NotFound); }
      if viewer.revokedAt.Some? { return Err(PermissionDenied); }
      if viewer.activatedAt.Some? { return Err(AlreadyExists); }
      var activated := viewer.(passwordHash := Some(Hash(password)), activatedAt := Some(now));
      db := db.(viewers := db.viewers[token.sub := activated]);
      return Ok(SignViewerToken(secrets, now, token.sub));
    }
  }
}
