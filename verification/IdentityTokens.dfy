/** What the tokens and keys the service hands out are good for, in every later state. */
module IdentityTokens {
  import opened Wrappers
  import opened Identity
  import opened IdentitySteps
  import opened IdentityTables

  // Tokens are signed for a row of the table their kind belongs to.
  predicate Issued(db: Db, t: Jwt) {
    match t.kind
    case Some(Staff) => t.sub in db.users
    case Some(_) => t.sub in db.viewers
    case None => t.sub in db.users
  }

  lemma {:induction false} IssuedStays(db: Db, rs: seq<Arrival>, t: Jwt)
    requires DbOk(db) && Issued(db, t)
    ensures DbOk(Run(db, rs)) && Issued(Run(db, rs), t)
    decreases |rs|
  {
    hide Step, DbOk;
    if rs != [] {
      StepKeepsDbOk(db, rs[0].secrets, rs[0].request);
      if t.sub in db.users { UserAfter(db, rs[0].secrets, rs[0].request, t.sub); }
      if t.sub in db.viewers { ViewerAfter(db, rs[0].secrets, rs[0].request, t.sub); }
      IssuedStays(Step(db, rs[0].secrets, rs[0].request), rs[1..], t);
    }
  }

  // The RPCs that sign tokens: both logins, the developer login, and some of the requests.
  datatype Call =
    | UserLoginCall(email: string, password: string)
    | ViewerLoginCall(orgSlug: string, viewerEmail: string, viewerPassword: string)
    | DevTokenCall(devEmail: string)
    | Write(request: Request)

  function After(db: Db, secrets: Secrets, call: Call): Db {
    if call.Write? then Step(db, secrets, call.request) else db
  }

  function LoginToken(login: Login): Option<Jwt> {
    if login.LoggedIn? then Some(login.token) else None
  }

  // The token a call replies with, or sends out by email.
  function HandedOut(db: Db, secrets: Secrets, now: int, call: Call): Option<Jwt> {
    match call
    case UserLoginCall(email, password) => LoginToken(UserLogin(db, secrets, now, email, password))
    case ViewerLoginCall(orgSlug, email, password) =>
      LoginToken(ViewerLogin(db, secrets, now, orgSlug, email, password))
    case DevTokenCall(email) =>
      var found := FindUser(db, email);
      if found.Some? then Some(SignToken(secrets, now, found.value)) else None
    case Write(r) =>
      if Granted(db, secrets, r) && r.op.InviteViewer? then
        var o := ContextOf(db, secrets, r).value.orgId;
        Some(SignActivationToken(secrets, r.now, InvitedViewerId(db, o, r.op.email, r.op.newId)))
      else if Admitted(db, secrets, r) then
        match r.pub
        case SignUp(_, _, _, _, newId, _) => Some(SignToken(secrets, r.now, newId))
        case ChangePassword(email, _, _) => Some(SignToken(secrets, r.now, FindUser(db, email).value))
        case ActivateViewer(_, token, _) => Some(SignViewerToken(secrets, r.now, token.sub))
      else None
  }

  lemma {:induction false} LoginsIssue(db: Db, secrets: Secrets, now: int, call: Call)
    requires !call.Write?
    ensures var t := HandedOut(db, secrets, now, call); t.Some? ==> Issued(db, t.value)
  {
    hide FindUser, FindViewer;
  }

  lemma {:induction false} InviteIssues(db: Db, secrets: Secrets, r: Request)
    requires Granted(db, secrets, r) && r.op.InviteViewer?
    ensures var o := ContextOf(db, secrets, r).value.orgId;
            InvitedViewerId(db, o, r.op.email, r.op.newId) in Step(db, secrets, r).viewers
  {
    StepIs(db, secrets, r);
    var ctx := ContextOf(db, secrets, r).value;
    InviteViewerRows(db, r.now, ctx, r.op.email, r.op.newId, r.op.sent,
                     InvitedViewerId(db, ctx.orgId, r.op.email, r.op.newId));
    hide Step, ContextOf, Check, FreshIds, FindViewer, AfterInviteViewer;
  }

  lemma {:induction false} PublicIssues(db: Db, secrets: Secrets, now: int, r: Request)
    requires Admitted(db, secrets, r)
    ensures var t := HandedOut(db, secrets, now, Write(r)); t.Some? && Issued(Step(db, secrets, r), t.value)
  {
    hide Step, ContextOf, Check, FreshIds, FindUser;
    if r.pub.SignUp? {
      SignUpEffect(db, secrets, r);
    } else if r.pub.ChangePassword? {
      UserAfter(db, secrets, r, FindUser(db, r.pub.email).value);
    } else {
      ViewerAfterOther(db, secrets, r, r.pub.token.sub);
    }
  }

  // Every token handed out is for a row of the table its kind belongs to.
  lemma {:induction false} HandedOutIsIssued(db: Db, secrets: Secrets, now: int, call: Call)
    ensures var t := HandedOut(db, secrets, now, call); t.Some? ==> Issued(After(db, secrets, call), t.value)
  {
    if !call.Write? {
      LoginsIssue(db, secrets, now, call);
    } else if Granted(db, secrets, call.request) && call.request.op.InviteViewer? {
      InviteIssues(db, secrets, call.request);
    } else if Admitted(db, secrets, call.request) {
      PublicIssues(db, secrets, now, call.request);
    }
    hide Step, ContextOf, Check, CheckPublic, FreshIds, InvitedViewerId;
  }

  lemma {:induction false} KindsStayApart(db: Db, t: Jwt, later: Secrets, now: int)
    requires DbOk(db) && Issued(db, t)
    ensures var v := VerifyToken(db, later, now, Bearer(t));
            && (v.StaffContext? ==> (t.kind.None? || t.kind == Some(Staff)) && v.ctx.userId == t.sub)
            && (v.ViewerContext? ==> t.kind == Some(ViewerSession) && v.viewerId == t.sub)
            && (t.kind == Some(ViewerActivate) ==> v == Invalid && t.sub !in db.users)
    ensures forall slug, password :: t.kind != Some(ViewerActivate) ==>
              CheckPublic(db, later, now, ActivateViewer(slug, t, password)).Some?
  {
    hide Genuine;
  }

  // A token handed out in any reachable state is, in every later state and under any secrets, good for its own
  // user or its own viewer only, by its kind; an activation token opens no session, and no session token activates.
  lemma {:induction false} TokenKindsStayApart(before: seq<Arrival>, secrets: Secrets, now: int, call: Call,
                                               rs: seq<Arrival>, later: Secrets, when: int)
    requires HandedOut(Run(EMPTY, before), secrets, now, call).Some?
    ensures var db := Run(EMPTY, before);
            var t, after := HandedOut(db, secrets, now, call).value, Run(After(db, secrets, call), rs);
            var v := VerifyToken(after, later, when, Bearer(t));
            && (v.StaffContext? ==> t.kind == Some(Staff) && v.ctx.userId == t.sub)
            && (v.ViewerContext? ==> t.kind == Some(ViewerSession) && v.viewerId == t.sub)
            && (t.kind == Some(ViewerActivate) ==> v == Invalid)
            && (forall slug, password :: t.kind != Some(ViewerActivate) ==>
                  CheckPublic(after, later, when, ActivateViewer(slug, t, password)).Some?)
  {
    var db := Run(EMPTY, before);
    var t := HandedOut(db, secrets, now, call).value;
    assert DbOk(EMPTY) && t.kind.Some?;
    hide HandedOut, DbOk, Run, VerifyToken, CheckPublic, Issued, Step;
    RunKeepsDbOk(EMPTY, before);
    HandedOutIsIssued(db, secrets, now, call);
    if call.Write? { StepKeepsDbOk(db, secrets, call.request); }
    IssuedStays(After(db, secrets, call), rs, t);
    KindsStayApart(Run(After(db, secrets, call), rs), t, later, when);
  }

  // A login lets in exactly with the right password, off a temporary one, and its token verifies at once with
  // the role and org of the row.
  lemma {:induction false} UserLoginVerifies(db: Db, secrets: Secrets, now: int, email: string, password: string)
    ensures var login, found := UserLogin(db, secrets, now, email, password), FindUser(db, email);
            && (login.LoggedIn? <==> found.Some? && db.users[found.value].passwordHash == Some(Hash(password))
                                     && !db.users[found.value].mustChangePassword)
            && (login.LoggedIn? ==> VerifyToken(db, secrets, now, Bearer(login.token))
                                    == StaffContext(Context(found.value, db.users[found.value].orgId,
                                        [db.users[found.value].role])))
  {
    hide FindUser;
  }

  // A rotation moves the signing secret to previous.
  function Rotate(secrets: Secrets, second: string): Secrets { Secrets(second, secrets.current) }

  // Through one rotation a session lasts to its expiry, and a second, distinct one ends it.
  lemma SessionOutlivesOneRotation(secrets: Secrets, second: string, third: string, issued: int, now: int, id: Id)
    requires secrets.current != ""
    ensures var t := SignToken(secrets, issued, id);
            && (Genuine(secrets, now, t) <==> now < issued + 28800)
            && (Genuine(Rotate(secrets, second), now, t) <==> now < issued + 28800)
            && (Genuine(Rotate(Rotate(secrets, second), third), now, t)
                <==> now < issued + 28800 && (secrets.current == second || secrets.current == third))
  {
  }

  // A login's session follows its user: at any later time, after any requests and one rotation, it verifies until it
  // expires with whatever org and role the row then has, unless the user has been put on a temporary password. A
  // second rotation, to other secrets, ends it.
  lemma {:induction false} SessionFollowsItsUser(db: Db, secrets: Secrets, issued: int, email: string, password: string,
                                                 rs: seq<Arrival>, second: string, third: string, now: int)
    requires DbOk(db) && secrets.current != "" && UserLogin(db, secrets, issued, email, password).LoggedIn?
    ensures var t := UserLogin(db, secrets, issued, email, password).token;
            var after := Run(db, rs);
            && t.sub in after.users
            && VerifyToken(after, Rotate(secrets, second), now, Bearer(t))
               == (if now < issued + 28800 && !after.users[t.sub].mustChangePassword then
                     StaffContext(Context(t.sub, after.users[t.sub].orgId, [after.users[t.sub].role]))
                   else Invalid)
            && (secrets.current != second && secrets.current != third ==>
                  VerifyToken(after, Rotate(Rotate(secrets, second), third), now, Bearer(t)) == Invalid)
  {
    var t := UserLogin(db, secrets, issued, email, password).token;
    UserLoginVerifies(db, secrets, issued, email, password);
    SessionOutlivesOneRotation(secrets, second, third, issued, now, t.sub);
    assert t == SignToken(secrets, issued, t.sub) && Issued(db, t);
    IssuedStays(db, rs, t);
    hide Run, Genuine, DbOk, UserLogin, Rotate;
  }

  // ---- API keys -----------------------------------------------------------------------------------

  // The id is read back out of a key exactly when it is non-empty and free of underscores.
  lemma {:induction false} KeyIdRoundTrip(keyId: Id, random: string)
    ensures GenerateApiKey(keyId, random) == "vfk_" + keyId + "_" + random
    ensures GenerateApiKey(keyId, random)[|API_KEY_PREFIX|..] == keyId + "_" + random
    ensures ApiKeyId(keyId + "_" + random) == Some(keyId) <==> keyId != "" && '_' !in keyId
  {
    var rest := keyId + "_" + random;
    var sep := Text.IndexOf(rest, '_');
    assert rest[|keyId|] == '_';
    if '_' !in keyId {
      Text.IndexOfField(keyId, '_', random);
      assert rest[..|keyId|] == keyId;
    } else {
      var i :| 0 <= i < |keyId| && keyId[i] == '_';
      assert rest[i] == '_';
    }
  }

  lemma {:induction false} CreatedKeyIsStored(db: Db, secrets: Secrets, r: Request)
    requires Granted(db, secrets, r) && r.op.CreateApiKey?
    ensures var ctx, after := ContextOf(db, secrets, r).value, Step(db, secrets, r);
            r.op.role.Some?
            && r.op.newId in after.keys
            && after.keys[r.op.newId]
               == ApiKey(Text.Trim(r.op.name), Hash(GenerateApiKey(r.op.newId, r.op.random)), r.op.role.value,
                         ctx.orgId, ctx.userId, r.op.expiresAt, false)
  {
    StepIs(db, secrets, r);
    hide Step, ContextOf, Text.Trim, GenerateApiKey;
  }

  // The key a caller is handed acts as its creator, in their org, with the role they asked for, until it expires.
  lemma {:induction false} CreatedKeyVerifies(db: Db, secrets: Secrets, r: Request, later: Secrets, now: int)
    requires Granted(db, secrets, r) && r.op.CreateApiKey? && r.op.newId != "" && '_' !in r.op.newId
    ensures var ctx := ContextOf(db, secrets, r).value;
            var rest := GenerateApiKey(r.op.newId, r.op.random)[|API_KEY_PREFIX|..];
            VerifyToken(Step(db, secrets, r), later, now, Key(rest))
            == if r.op.expiresAt.Some? && r.op.expiresAt.value < now then Invalid
               else StaffContext(Context(ctx.userId, ctx.orgId, [r.op.role.value]))
  {
    CreatedKeyIsStored(db, secrets, r);
    KeyIdRoundTrip(r.op.newId, r.op.random);
    assert API_KEY_PREFIX + (r.op.newId + "_" + r.op.random) == GenerateApiKey(r.op.newId, r.op.random);
    hide Step, ContextOf, Text.Trim, Check, FreshIds, ApiKeyId, GenerateApiKey;
  }

  // A revoked key stays dead.
  lemma {:induction false} RevokedKeyStaysDead(db: Db, rs: seq<Arrival>, k: Id, rest: string,
                                               later: Secrets, now: int)
    requires k in db.keys && db.keys[k].revoked && ApiKeyId(rest) == Some(k)
    ensures k in Run(db, rs).keys && Run(db, rs).keys[k] == db.keys[k]
    ensures VerifyToken(Run(db, rs), later, now, Key(rest)) == Invalid
    decreases |rs|
  {
    hide Step, ContextOf, Check, FreshIds, ApiKeyId;
    if rs != [] {
      KeysStay(db, rs[0].secrets, rs[0].request);
      KeyAfter(db, rs[0].secrets, rs[0].request, k);
      RevokedKeyStaysDead(Step(db, rs[0].secrets, rs[0].request), rs[1..], k, rest, later, now);
    }
  }

  // A revoked key verifies in no later state, whatever follows.
  lemma {:induction false} RevokedKeyIsLockedOut(db: Db, secrets: Secrets, r: Request, rs: seq<Arrival>, rest: string,
                                                 later: Secrets, now: int)
    requires Granted(db, secrets, r) && r.op.RevokeApiKey? && ApiKeyId(rest) == Some(r.op.keyId)
    ensures VerifyToken(Run(Step(db, secrets, r), rs), later, now, Key(rest)) == Invalid
  {
    RevokeRevokesKey(db, secrets, r);
    hide Step, Run, ApiKeyId, VerifyToken, Granted;
    RevokedKeyStaysDead(Step(db, secrets, r), rs, r.op.keyId, rest, later, now);
  }

  lemma {:induction false} RevokeRevokesKey(db: Db, secrets: Secrets, r: Request)
    requires Granted(db, secrets, r) && r.op.RevokeApiKey?
    ensures var k, after := r.op.keyId, Step(db, secrets, r);
            k in db.keys && k in after.keys && after.keys[k] == db.keys[k].(revoked := true)
  {
    StepIs(db, secrets, r);
    hide Step, ContextOf, MaxRank;
  }

  // The key a granted request made: what is stored for it, revoked since or not.
  predicate MadeBy(db: Db, secrets: Secrets, r: Request, k: Id, key: ApiKey) {
    && Granted(db, secrets, r) && r.op.CreateApiKey? && r.op.newId == k && r.op.role.Some?
    && var ctx := ContextOf(db, secrets, r).value;
       key == ApiKey(Text.Trim(r.op.name), Hash(GenerateApiKey(k, r.op.random)), r.op.role.value, ctx.orgId, ctx.userId,
                     r.op.expiresAt, key.revoked)
  }

  lemma {:induction false} KeyOriginStep(db: Db, secrets: Secrets, r: Request, k: Id)
    requires k in Step(db, secrets, r).keys
    ensures var key := Step(db, secrets, r).keys[k];
            if k in db.keys then key == db.keys[k] || key == db.keys[k].(revoked := true)
            else MadeBy(db, secrets, r, k, key)
  {
    KeyAfter(db, secrets, r, k);
    hide Step, ContextOf, Check, FreshIds, GenerateApiKey, Text.Trim;
    if k !in db.keys { CreatedKeyIsStored(db, secrets, r); }
  }

  // Every key row of every reachable state was made by a granted request of the run.
  lemma {:induction false} KeyOrigin(rs: seq<Arrival>, k: Id) returns (n: nat)
    requires k in Run(EMPTY, rs).keys
    ensures n < |rs|
    ensures MadeBy(Run(EMPTY, rs[..n]), rs[n].secrets, rs[n].request, k, Run(EMPTY, rs).keys[k])
    decreases |rs|
  {
    hide Step, ContextOf, Granted, GenerateApiKey, Text.Trim;
    assert rs != [];
    n := |rs| - 1;
    var before, last := rs[..n], rs[n];
    assert rs == before + [last];
    RunAppend(EMPTY, before, last);
    KeyOriginStep(Run(EMPTY, before), last.secrets, last.request, k);
    if k in Run(EMPTY, before).keys {
      n := KeyOrigin(before, k);
      assert before[..n] == rs[..n];
    }
  }

  // Whatever key text verifies in a reachable state was handed out, letter by letter, by a granted request of the
  // run, and acts as that request's caller with the role it asked for.
  lemma {:induction false} KeyWasHandedOut(rs: seq<Arrival>, rest: string, later: Secrets, now: int) returns (n: nat)
    requires VerifyToken(Run(EMPTY, rs), later, now, Key(rest)) != Invalid
    ensures n < |rs|
    ensures var db, r := Run(EMPTY, rs[..n]), rs[n].request;
            && Granted(db, rs[n].secrets, r) && r.op.CreateApiKey? && r.op.role.Some?
            && "vfk_" + rest == GenerateApiKey(r.op.newId, r.op.random)
            && var ctx := ContextOf(db, rs[n].secrets, r).value;
               VerifyToken(Run(EMPTY, rs), later, now, Key(rest))
               == StaffContext(Context(ctx.userId, ctx.orgId, [r.op.role.value]))
  {
    hide Run, ContextOf, Granted, GenerateApiKey, Text.Trim, ApiKeyId;
    n := KeyOrigin(rs, ApiKeyId(rest).value);
  }

  // ---- From invite to session ------------------------------------------------------------------------

  lemma {:induction false} InviteIsFound(db: Db, now: int, ctx: Context, email: string, displayName: string,
                                         role: Role, newId: Id, tempPassword: string, sent: bool)
    ensures var after := AfterInviteUser(db, now, ctx, email, displayName, role, newId, tempPassword, sent);
            var id := if FindUser(db, email).Some? then FindUser(db, email).value else newId;
            && FindUser(after, email) == Some(id)
            && after.users[id].displayName == Text.Trim(displayName)
            && after.users[id].passwordHash == Some(Hash(tempPassword))
            && after.users[id].passwordExpiresAt == Some(now + 86400)
  {
    hide Text.Trim, Audits;
  }

  lemma {:induction false} InvitedUserRow(db: Db, secrets: Secrets, r: Request)
    requires Granted(db, secrets, r) && r.op.InviteUser?
    ensures var after, found := Step(db, secrets, r), FindUser(Step(db, secrets, r), r.op.email);
            && r.op.role.Some? && found.Some?
            && var user := after.users[found.value];
               user.orgId == ContextOf(db, secrets, r).value.orgId && user.role == r.op.role.value
               && user.displayName == Text.Trim(r.op.displayName) && user.mustChangePassword
               && user.passwordHash == Some(Hash(r.op.tempPassword))
               && user.passwordExpiresAt == Some(r.now + 86400)
  {
    StepIs(db, secrets, r);
    GrantedRoleBelowRank(db, secrets, r);
    var ctx, op, found := ContextOf(db, secrets, r).value, r.op, FindUser(db, r.op.email);
    InviteIsFound(db, r.now, ctx, op.email, op.displayName, op.role.value, op.newId, op.tempPassword, op.sent);
    InviteUserRows(db, r.now, ctx, op.email, op.displayName, op.role.value, op.newId, op.tempPassword, op.sent,
                   if found.Some? then found.value else op.newId);
    assert found.Some? ==> db.users[found.value].orgId == ctx.orgId;
    hide Step, ContextOf, Text.Trim, AfterInviteUser, FindUser, Audits;
  }

  // An invited member gets in exactly by changing the temporary password, within a day, to one of eight or more
  // characters; the session then has the invited role in the inviter's org.
  lemma {:induction false} InviteeGetsIn(db: Db, secrets: Secrets, r: Request, now: int, newPassword: string)
    requires Granted(db, secrets, r) && r.op.InviteUser?
    ensures var invited := Step(db, secrets, r);
            var change := ChangePassword(r.op.email, r.op.tempPassword, newPassword);
            && !UserLogin(invited, secrets, now, r.op.email, r.op.tempPassword).LoggedIn?
            && (CheckPublic(invited, secrets, now, change).None? <==>
                |newPassword| >= 8 && now <= r.now + 86400)
            && (CheckPublic(invited, secrets, now, change).None? ==>
                  var after := ApplyPublic(invited, secrets, now, change);
                  var login := UserLogin(after, secrets, now, r.op.email, newPassword);
                  login.LoggedIn? && login.token.kind == Some(Staff)
                  && VerifyToken(after, secrets, now, Bearer(login.token))
                     == StaffContext(Context(login.token.sub, ContextOf(db, secrets, r).value.orgId,
                         [r.op.role.value])))
  {
    InvitedUserRow(db, secrets, r);
    hide Step, ContextOf, Text.Trim, Check, FreshIds;
  }

  lemma {:induction false} InvitedViewerRow(db: Db, secrets: Secrets, r: Request)
    requires DbOk(db) && Granted(db, secrets, r) && r.op.InviteViewer?
    ensures var after, o := Step(db, secrets, r), ContextOf(db, secrets, r).value.orgId;
            && after.orgBySlug == db.orgBySlug
            && FindViewer(after, o, r.op.email).Some?
            && var v := FindViewer(after, o, r.op.email).value;
               after.viewers[v].orgId == o && after.viewers[v].revokedAt.None?
               && (after.viewers[v].activatedAt.Some? <==> v in db.viewers && db.viewers[v].activatedAt.Some?)
  {
    StepIs(db, secrets, r);
    var o := ContextOf(db, secrets, r).value.orgId;
    var found := FindViewer(db, o, r.op.email);
    assert EntryLeadsHome(db, o, r.op.email);
    ViewerIndexAfterInvite(db, r.now, ContextOf(db, secrets, r).value, r.op.email, r.op.newId, r.op.sent);
    InviteViewerRows(db, r.now, ContextOf(db, secrets, r).value, r.op.email, r.op.newId, r.op.sent,
                     if found.Some? then found.value else r.op.newId);
    hide Step, ContextOf, DbOk, AfterInviteViewer, Audits;
  }

  // An invited viewer not activated before gets in by the emailed activation token, within a week, under the
  // org's own slug, and can then log in with the password they chose.
  lemma {:induction false} InvitedViewerGetsIn(db: Db, secrets: Secrets, r: Request, orgSlug: string, now: int,
                                               password: string)
    requires DbOk(db) && Granted(db, secrets, r) && r.op.InviteViewer?
    requires orgSlug in db.orgBySlug && db.orgBySlug[orgSlug] == ContextOf(db, secrets, r).value.orgId
    ensures var invited := Step(db, secrets, r);
            var o := ContextOf(db, secrets, r).value.orgId;
            && FindViewer(invited, o, r.op.email).Some?
            && var v := FindViewer(invited, o, r.op.email).value;
               var activate := ActivateViewer(orgSlug, SignActivationToken(secrets, r.now, v), password);
               && (CheckPublic(invited, secrets, now, activate).None?
                   <==> |password| >= 8 && now < r.now + 604800 && invited.viewers[v].activatedAt.None?)
               && (CheckPublic(invited, secrets, now, activate).None? ==>
                     var after := ApplyPublic(invited, secrets, now, activate);
                     var login := ViewerLogin(after, secrets, now, orgSlug, r.op.email, password);
                     login.LoggedIn? && VerifyToken(after, secrets, now, Bearer(login.token)) == ViewerContext(v, o))
  {
    InvitedViewerRow(db, secrets, r);
    hide Step, ContextOf, DbOk, Check, FreshIds;
  }
}
