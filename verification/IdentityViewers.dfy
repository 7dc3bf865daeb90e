/** The life of a viewer account: invite, activation, sessions, revocation and re-invite; and what each kind of
    token is good for. */
module IdentityViewers {
  import opened Wrappers
  import opened Identity
  import opened IdentitySteps
  import opened IdentityTables

  predicate PasswordIffActivated(viewer: Viewer) { viewer.passwordHash.Some? <==> viewer.activatedAt.Some? }

  predicate ViewersOk(db: Db) { forall v | v in db.viewers :: PasswordIffActivated(db.viewers[v]) }

  lemma {:induction false} StepKeepsViewersOk(db: Db, secrets: Secrets, r: Request)
    requires DbOk(db) && ViewersOk(db)
    ensures ViewersOk(Step(db, secrets, r))
  {
    hide Step, ContextOf, Check, CheckPublic, FreshIds, DbOk;
    var after := Step(db, secrets, r);
    forall v | v in after.viewers ensures PasswordIffActivated(after.viewers[v]) {
      if v in db.viewers { ViewerAfter(db, secrets, r, v); } else { NewViewer(db, secrets, r, v); }
    }
  }

  // In every reachable state a viewer has a password exactly when they are activated.
  lemma {:induction false} RunKeepsViewersOk(db: Db, rs: seq<Arrival>)
    requires DbOk(db) && ViewersOk(db)
    ensures DbOk(Run(db, rs)) && ViewersOk(Run(db, rs))
    decreases |rs|
  {
    hide Step, DbOk, ViewersOk;
    if rs != [] {
      StepKeepsDbOk(db, rs[0].secrets, rs[0].request);
      StepKeepsViewersOk(db, rs[0].secrets, rs[0].request);
      RunKeepsViewersOk(Step(db, rs[0].secrets, rs[0].request), rs[1..]);
    }
  }

  lemma {:induction false} ReachableViewersOk(rs: seq<Arrival>)
    ensures DbOk(Run(EMPTY, rs)) && ViewersOk(Run(EMPTY, rs))
  {
    RunKeepsViewersOk(EMPTY, rs);
  }

  // ---- Activation --------------------------------------------------------------------------------

  predicate Activates(db: Db, secrets: Secrets, r: Request, v: Id) {
    Admitted(db, secrets, r) && r.pub.ActivateViewer? && r.pub.token.sub == v
  }

  function Activations(db: Db, rs: seq<Arrival>, v: Id): nat
    decreases |rs|
  {
    if rs == [] then 0
    else
      var rest := Activations(Step(db, rs[0].secrets, rs[0].request), rs[1..], v);
      if Activates(db, rs[0].secrets, rs[0].request, v) then 1 + rest else rest
  }

  predicate IsActivated(db: Db, v: Id) { v in db.viewers && db.viewers[v].activatedAt.Some? }

  // Only an activation activates, and never a second time.
  lemma {:induction false} ActivationStep(db: Db, secrets: Secrets, r: Request, v: Id)
    requires DbOk(db)
    ensures Activates(db, secrets, r, v) ==> !IsActivated(db, v)
    ensures IsActivated(Step(db, secrets, r), v) <==> IsActivated(db, v) || Activates(db, secrets, r, v)
    ensures IsActivated(db, v) ==> var after := Step(db, secrets, r).viewers[v];
                                   after.activatedAt == db.viewers[v].activatedAt
                                       && after.passwordHash == db.viewers[v].passwordHash
  {
    hide ContextOf, Check, Step, DbOk;
    StepIs(db, secrets, r);
    if v in db.viewers {
      ViewerAfter(db, secrets, r, v);
    } else if v in Step(db, secrets, r).viewers {
      NewViewer(db, secrets, r, v);
    }
  }

  // Activation succeeds at most once per viewer, and decides the password and time for good.
  lemma {:induction false} ActivatedAtMostOnce(db: Db, rs: seq<Arrival>, v: Id)
    requires DbOk(db)
    ensures Activations(db, rs, v)
            == if !IsActivated(db, v) && IsActivated(Run(db, rs), v) then 1 else 0
    ensures IsActivated(db, v) ==> var after := Run(db, rs);
                                   && IsActivated(after, v)
                                   && after.viewers[v].activatedAt == db.viewers[v].activatedAt
                                   && after.viewers[v].passwordHash == db.viewers[v].passwordHash
    decreases |rs|
  {
    hide Step, DbOk, Activates;
    if rs != [] {
      ActivationStep(db, rs[0].secrets, rs[0].request, v);
      StepKeepsDbOk(db, rs[0].secrets, rs[0].request);
      ActivatedAtMostOnce(Step(db, rs[0].secrets, rs[0].request), rs[1..], v);
    }
  }

  // ---- Sessions ------------------------------------------------------------------------------------

  // A viewer login lets in exactly the unrevoked viewers of that org with that password, and its token verifies
  // as that viewer of that org for thirty days.
  lemma {:induction false} ViewerLoginVerifies(db: Db, secrets: Secrets, now: int, orgSlug: string,
                                               email: string, password: string)
    requires DbOk(db) && ViewersOk(db)
    ensures var login := ViewerLogin(db, secrets, now, orgSlug, email, password);
            if login.LoggedIn? then
              && orgSlug in db.orgBySlug && login.token.sub in db.viewers
              && db.viewers[login.token.sub].email == email
              && forall later :: VerifyToken(db, secrets, later, Bearer(login.token))
                   == (if later < now + 2592000 then ViewerContext(login.token.sub, db.orgBySlug[orgSlug]) else Invalid)
            else
              forall v | v in db.viewers :: !(&& orgSlug in db.orgBySlug && db.viewers[v].orgId == db.orgBySlug[orgSlug]
                                              && db.viewers[v].email == email
                                                  && db.viewers[v].passwordHash == Some(Hash(password))
                                              && db.viewers[v].revokedAt.None?)
  {
    var login := ViewerLogin(db, secrets, now, orgSlug, email, password);
    if login.LoggedIn? {
      var o := db.orgBySlug[orgSlug];
      assert EntryLeadsHome(db, o, email);
      assert PasswordIffActivated(db.viewers[login.token.sub]);
    } else {
      forall v | v in db.viewers
        ensures !(&& orgSlug in db.orgBySlug && db.viewers[v].orgId == db.orgBySlug[orgSlug]
                  && db.viewers[v].email == email && db.viewers[v].passwordHash == Some(Hash(password))
                  && db.viewers[v].revokedAt.None?)
      {
        assert Indexed(db, v);
      }
    }
  }

  // ---- Revocation -----------------------------------------------------------------------------------

  predicate IsRevoked(db: Db, v: Id) { v in db.viewers && db.viewers[v].revokedAt.Some? }

  predicate Reinvites(db: Db, secrets: Secrets, r: Request, o: Id, email: string) {
    && Granted(db, secrets, r) && r.op.InviteViewer? && r.op.email == email
    && ContextOf(db, secrets, r).value.orgId == o
  }

  predicate NeverReinvited(db: Db, rs: seq<Arrival>, o: Id, email: string)
    decreases |rs|
  {
    rs == [] || (!Reinvites(db, rs[0].secrets, rs[0].request, o, email)
        && NeverReinvited(Step(db, rs[0].secrets, rs[0].request), rs[1..], o, email))
  }

  lemma {:induction false} RevokedStep(db: Db, secrets: Secrets, r: Request, v: Id)
    requires DbOk(db) && IsRevoked(db, v) && !Reinvites(db, secrets, r, db.viewers[v].orgId, db.viewers[v].email)
    ensures var after := Step(db, secrets, r);
            IsRevoked(after, v) && after.viewers[v].orgId == db.viewers[v].orgId
                && after.viewers[v].email == db.viewers[v].email
  {
    hide ContextOf, Check, CheckPublic, Step, DbOk;
    ViewerAfter(db, secrets, r, v);
  }

  lemma {:induction false} RevokedUntilReinvited(db: Db, rs: seq<Arrival>, v: Id)
    requires DbOk(db) && IsRevoked(db, v) && NeverReinvited(db, rs, db.viewers[v].orgId, db.viewers[v].email)
    ensures var after := Run(db, rs);
            && DbOk(after)
            && IsRevoked(after, v) && after.viewers[v].orgId == db.viewers[v].orgId
                && after.viewers[v].email == db.viewers[v].email
    decreases |rs|
  {
    hide Step, DbOk, Reinvites, IsRevoked;
    if rs != [] {
      RevokedStep(db, rs[0].secrets, rs[0].request, v);
      StepKeepsDbOk(db, rs[0].secrets, rs[0].request);
      RevokedUntilReinvited(Step(db, rs[0].secrets, rs[0].request), rs[1..], v);
    }
  }

  lemma AllIndexed(db: Db, v: Id)
    requires DbOk(db)
    ensures Indexed(db, v)
  {
  }

  // After a revoke, until a re-invite, no session of the viewer verifies, they cannot log in under that org's
  // slug, and no activation of theirs passes.
  lemma {:induction false} RevokedIsLockedOut(db: Db, secrets: Secrets, revoke: Request, rs: seq<Arrival>,
                                              v: Id, later: Secrets, now: int)
    requires DbOk(db) && Granted(db, secrets, revoke) && revoke.op.RevokeViewer? && revoke.op.viewerId == v
    requires v in db.viewers
    requires NeverReinvited(Step(db, secrets, revoke), rs, db.viewers[v].orgId, db.viewers[v].email)
    ensures var after := Run(Step(db, secrets, revoke), rs);
            && (forall t: Jwt | t.sub == v && t.kind == Some(ViewerSession) ::
                VerifyToken(after, later, now, Bearer(t)) == Invalid)
            && (forall slug, password | slug in after.orgBySlug && after.orgBySlug[slug] == db.viewers[v].orgId ::
                  ViewerLogin(after, later, now, slug, db.viewers[v].email, password) == LoginRefused)
            && (forall slug, t: Jwt, password | t.sub == v ::
                  CheckPublic(after, later, now, ActivateViewer(slug, t, password)).Some?)
  {
    hide Step, DbOk, Run, NeverReinvited, Check, ContextOf, FreshIds;
    StepKeepsDbOk(db, secrets, revoke);
    RevokeRevokes(db, secrets, revoke);
    RevokedUntilReinvited(Step(db, secrets, revoke), rs, v);
    var after := Run(Step(db, secrets, revoke), rs);
    AllIndexed(after, v);
  }

  lemma {:induction false} RevokeRevokes(db: Db, secrets: Secrets, r: Request)
    requires Granted(db, secrets, r) && r.op.RevokeViewer?
    ensures r.op.viewerId in db.viewers
    ensures var v, after := r.op.viewerId, Step(db, secrets, r);
            IsRevoked(after, v) && after.viewers[v].orgId == db.viewers[v].orgId
                && after.viewers[v].email == db.viewers[v].email
  {
    StepIs(db, secrets, r);
    hide Step, ContextOf, Text.Trim, FindUser, FindViewer;
  }

  // A re-invite reinstates: the sessions and the password from before the revocation work again.
  lemma {:induction false} ReinviteReinstates(db: Db, secrets: Secrets, r: Request, v: Id, later: Secrets, now: int,
                                              t: Jwt)
    requires DbOk(db) && IsActivated(db, v) && IsRevoked(db, v)
    requires Reinvites(db, secrets, r, db.viewers[v].orgId, db.viewers[v].email)
    requires Genuine(later, now, t) && t.kind == Some(ViewerSession) && t.sub == v
    ensures VerifyToken(db, later, now, Bearer(t)) == Invalid
    ensures VerifyToken(Step(db, secrets, r), later, now, Bearer(t)) == ViewerContext(v, db.viewers[v].orgId)
    ensures Step(db, secrets, r).viewers[v].passwordHash == db.viewers[v].passwordHash
  {
    StepIs(db, secrets, r);
    assert Indexed(db, v);
    InviteViewerRows(db, r.now, ContextOf(db, secrets, r).value, r.op.email, r.op.newId, r.op.sent, v);
    hide Step, DbOk, Check, ContextOf, FreshIds, Genuine, AfterInviteViewer, FindViewer;
  }
}
