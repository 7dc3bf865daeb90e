/** Org framing: a run leaves alone every org that none of its requests belongs to. */
module IdentityFraming {
  import opened Wrappers
  import opened Identity
  import opened IdentitySteps
  import opened IdentityTables
  import IdentityRank

  // What one org consists of.
  function UsersOf(db: Db, o: Id): map<Id, User> { map u | u in db.users && db.users[u].orgId == o :: db.users[u] }

  function KeysOf(db: Db, o: Id): map<Id, ApiKey> { map k | k in db.keys && db.keys[k].orgId == o :: db.keys[k] }

  function ViewersOf(db: Db, o: Id): map<Id, Viewer> {
    map v | v in db.viewers && db.viewers[v].orgId == o :: db.viewers[v]
  }

  function EventsOf(events: seq<AuditEvent>, o: Id): seq<AuditEvent> {
    if events == [] then []
    else
      var last := events[|events| - 1];
      EventsOf(events[..|events| - 1], o) + if last.orgId == o then [last] else []
  }

  ghost predicate SameOrg(before: Db, after: Db, o: Id) {
    && (o in after.orgs <==> o in before.orgs) && (o in before.orgs ==> after.orgs[o] == before.orgs[o])
    && UsersOf(after, o) == UsersOf(before, o)
    && KeysOf(after, o) == KeysOf(before, o)
    && ViewersOf(after, o) == ViewersOf(before, o)
    && EventsOf(after.audit, o) == EventsOf(before.audit, o)
  }

  // The org a request acts in, if it is carried out: its context's, the one it founds, or the one its user or
  // viewer is in.
  function OrgOf(db: Db, secrets: Secrets, r: Request): Option<Id> {
    if Granted(db, secrets, r) then Some(ContextOf(db, secrets, r).value.orgId)
    else if !Admitted(db, secrets, r) then None
    else
      match r.pub
      case SignUp(_, _, _, _, _, newOrgId) => Some(newOrgId)
      case ChangePassword(email, _, _) => Some(db.users[FindUser(db, email).value].orgId)
      case ActivateViewer(_, token, _) => Some(db.viewers[token.sub].orgId)
  }

  lemma {:induction false} UsersFramed(db: Db, secrets: Secrets, r: Request, o: Id)
    requires OrgOf(db, secrets, r) != Some(o)
    ensures UsersOf(Step(db, secrets, r), o) == UsersOf(db, o)
  {
    hide Step, ContextOf, Check, CheckPublic, FreshIds, FindUser;
    var after := Step(db, secrets, r);
    forall u | u in db.users || u in after.users
      ensures u in UsersOf(after, o) <==> u in UsersOf(db, o)
      ensures u in UsersOf(db, o) ==> u in after.users && after.users[u] == db.users[u]
    {
      if u in db.users {
        UserAfter(db, secrets, r, u);
        if Granted(db, secrets, r) && r.op.AssignRole? { AssignRoleReach(db, secrets, r); }
      } else {
        NewUser(db, secrets, r, u);
      }
    }
  }

  lemma {:induction false} KeysFramed(db: Db, secrets: Secrets, r: Request, o: Id)
    requires OrgOf(db, secrets, r) != Some(o)
    ensures KeysOf(Step(db, secrets, r), o) == KeysOf(db, o)
  {
    hide Step, ContextOf, Check, CheckPublic, FreshIds;
    var after := Step(db, secrets, r);
    KeysStay(db, secrets, r);
    forall k | k in after.keys
      ensures k in KeysOf(after, o) <==> k in KeysOf(db, o)
      ensures k in KeysOf(db, o) ==> after.keys[k] == db.keys[k]
    {
      KeyAfter(db, secrets, r, k);
    }
  }

  lemma {:induction false} ViewersFramed(db: Db, secrets: Secrets, r: Request, o: Id)
    requires DbOk(db) && OrgOf(db, secrets, r) != Some(o)
    ensures ViewersOf(Step(db, secrets, r), o) == ViewersOf(db, o)
  {
    hide Step, ContextOf, Check, CheckPublic, FreshIds, DbOk;
    var after := Step(db, secrets, r);
    forall v | v in db.viewers || v in after.viewers
      ensures v in ViewersOf(after, o) <==> v in ViewersOf(db, o)
      ensures v in ViewersOf(db, o) ==> v in after.viewers && after.viewers[v] == db.viewers[v]
    {
      if v in db.viewers {
        ViewerAfter(db, secrets, r, v);
      } else {
        NewViewer(db, secrets, r, v);
      }
    }
  }

  // At most one event is written, and it names the org the request acts in.
  lemma {:induction false} AuditAfter(db: Db, secrets: Secrets, r: Request)
    ensures var o := OrgOf(db, secrets, r);
            Step(db, secrets, r).audit == db.audit || (o.Some? && Audits(db, Step(db, secrets, r), o.value))
  {
    StepIs(db, secrets, r);
    hide Step, ContextOf, Check, CheckPublic, FreshIds, FindUser, FindViewer, Audits;
    hide AfterInviteUser, AfterAssignRole, AfterInviteViewer, AfterRevokeViewer, AfterCreateApiKey;
    hide AfterRevokeApiKey, AfterSignUp, AfterChangePassword, AfterActivateViewer;
  }

  lemma {:induction false} EventsFramed(db: Db, secrets: Secrets, r: Request, o: Id)
    requires OrgOf(db, secrets, r) != Some(o)
    ensures EventsOf(Step(db, secrets, r).audit, o) == EventsOf(db.audit, o)
  {
    hide Step, OrgOf;
    AuditAfter(db, secrets, r);
  }

  lemma {:induction false} OrgsFramed(db: Db, secrets: Secrets, r: Request, o: Id)
    requires OrgOf(db, secrets, r) != Some(o)
    ensures var after := Step(db, secrets, r);
            (o in after.orgs <==> o in db.orgs) && (o in db.orgs ==> after.orgs[o] == db.orgs[o])
  {
    hide Step, ContextOf, Check, CheckPublic, FreshIds;
    if o in db.orgs { IdentityRank.OrgsStay(db, secrets, r, o); }
    if Admitted(db, secrets, r) && r.pub.SignUp? {
      SignUpEffect(db, secrets, r);
    } else {
      OrgsOnlyBySignUp(db, secrets, r);
    }
  }

  predicate NeverIn(db: Db, rs: seq<Arrival>, o: Id)
    decreases |rs|
  {
    rs == [] ||
    (OrgOf(db, rs[0].secrets, rs[0].request) != Some(o)
     && NeverIn(Step(db, rs[0].secrets, rs[0].request), rs[1..], o))
  }

  // No run of other orgs' requests changes an org's users, keys, viewers or audit events.
  lemma {:induction false} OtherOrgsUntouched(db: Db, rs: seq<Arrival>, o: Id)
    requires DbOk(db) && NeverIn(db, rs, o)
    ensures SameOrg(db, Run(db, rs), o)
    decreases |rs|
  {
    hide Step, OrgOf, DbOk, UsersOf, KeysOf, ViewersOf, EventsOf;
    if rs != [] {
      UsersFramed(db, rs[0].secrets, rs[0].request, o);
      KeysFramed(db, rs[0].secrets, rs[0].request, o);
      ViewersFramed(db, rs[0].secrets, rs[0].request, o);
      EventsFramed(db, rs[0].secrets, rs[0].request, o);
      OrgsFramed(db, rs[0].secrets, rs[0].request, o);
      StepKeepsDbOk(db, rs[0].secrets, rs[0].request);
      OtherOrgsUntouched(Step(db, rs[0].secrets, rs[0].request), rs[1..], o);
    }
  }
}
