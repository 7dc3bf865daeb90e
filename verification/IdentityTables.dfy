/** The unique index on viewers, and the separation of user ids from viewer ids, over every run. */
module IdentityTables {
  import opened Identity
  import opened IdentitySteps

  lemma {:induction false} ViewerIndexAfterInvite(db: Db, now: int, ctx: Context, email: string, newId: Id, sent: bool)
    ensures var after := AfterInviteViewer(db, now, ctx, email, newId, sent);
            if FindViewer(db, ctx.orgId, email).Some? then
              after.viewerByEmail == db.viewerByEmail && after.viewers.Keys == db.viewers.Keys
            else
              after.viewerByEmail == db.viewerByEmail[(ctx.orgId, email) := newId]
                  && after.viewers.Keys == db.viewers.Keys + {newId}
  {
    hide FindViewer;
  }

  // Only an invite of a viewer not yet known adds to the index.
  lemma {:induction false} ViewerIndexAfter(db: Db, secrets: Secrets, r: Request)
    ensures var after := Step(db, secrets, r).viewerByEmail;
            || (after == db.viewerByEmail && Step(db, secrets, r).viewers.Keys == db.viewers.Keys)
            || (&& Granted(db, secrets, r) && r.op.InviteViewer?
                && var o := ContextOf(db, secrets, r).value.orgId;
                   FindViewer(db, o, r.op.email).None? && after == db.viewerByEmail[(o, r.op.email) := r.op.newId]
                   && r.op.newId !in db.viewers && Step(db, secrets, r).viewers.Keys == db.viewers.Keys + {r.op.newId})
  {
    StepIs(db, secrets, r);
    hide Step, ContextOf, Check, CheckPublic, FindUser, FindViewer;
    hide AfterInviteViewer, AfterRevokeViewer, AfterActivateViewer;
    if !TouchesViewers(r) {
      ViewersUntouched(db, secrets, r);
    } else if Granted(db, secrets, r) && r.op.InviteViewer? {
      ViewerIndexAfterInvite(db, r.now, ContextOf(db, secrets, r).value, r.op.email, r.op.newId, r.op.sent);
    }
  }

  lemma {:induction false} StepKeepsIdsApart(db: Db, secrets: Secrets, r: Request)
    requires DbOk(db)
    ensures Step(db, secrets, r).users.Keys !! Step(db, secrets, r).viewers.Keys
  {
    var after := Step(db, secrets, r);
    hide Step, ContextOf, Check, CheckPublic;
    forall x | x in after.users && x in after.viewers ensures false {
      if x !in db.users { NewUser(db, secrets, r, x); }
      if x !in db.viewers { NewViewer(db, secrets, r, x); UsersUntouched(db, secrets, r); }
      if x in db.viewers { ViewersUntouched(db, secrets, r); }
    }
  }

  lemma {:induction false} EntryAfter(db: Db, secrets: Secrets, r: Request, o: Id, e: string)
    requires DbOk(db)
    ensures EntryLeadsHome(Step(db, secrets, r), o, e)
  {
    hide Step, ContextOf, Check, CheckPublic, FreshIds, FindViewer;
    var after := Step(db, secrets, r);
    ViewerIndexAfter(db, secrets, r);
    assert EntryLeadsHome(db, o, e);
    if (o, e) in after.viewerByEmail {
      var v := after.viewerByEmail[(o, e)];
      if v in db.viewers {
        ViewerAfter(db, secrets, r, v);
      } else {
        NewViewer(db, secrets, r, v);
      }
    }
  }

  lemma {:induction false} IndexedAfter(db: Db, secrets: Secrets, r: Request, v: Id)
    requires DbOk(db)
    ensures Indexed(Step(db, secrets, r), v)
  {
    hide Step, ContextOf, Check, CheckPublic, FreshIds;
    var after := Step(db, secrets, r);
    ViewerIndexAfter(db, secrets, r);
    assert Indexed(db, v);
    if v in db.viewers {
      ViewerAfter(db, secrets, r, v);
    } else if v in after.viewers {
      NewViewer(db, secrets, r, v);
    }
  }

  lemma {:induction false} StepKeepsDbOk(db: Db, secrets: Secrets, r: Request)
    requires DbOk(db)
    ensures DbOk(Step(db, secrets, r))
  {
    hide Step, EntryLeadsHome, Indexed;
    StepKeepsIdsApart(db, secrets, r);
    forall o, e ensures EntryLeadsHome(Step(db, secrets, r), o, e) { EntryAfter(db, secrets, r, o, e); }
    forall v ensures Indexed(Step(db, secrets, r), v) { IndexedAfter(db, secrets, r, v); }
  }

  lemma {:induction false} RunKeepsDbOk(db: Db, rs: seq<Arrival>)
    requires DbOk(db)
    ensures DbOk(Run(db, rs))
    decreases |rs|
  {
    hide Step, DbOk;
    if rs != [] {
      StepKeepsDbOk(db, rs[0].secrets, rs[0].request);
      RunKeepsDbOk(Step(db, rs[0].secrets, rs[0].request), rs[1..]);
    }
  }

  lemma {:induction false} RunAppend(db: Db, rs: seq<Arrival>, last: Arrival)
    ensures Run(db, rs + [last]) == Step(Run(db, rs), last.secrets, last.request)
    decreases |rs|
  {
    hide Step;
    if rs == [] {
      assert rs + [last] == [last] && [last][1..] == [];
    } else {
      assert (rs + [last])[1..] == rs[1..] + [last];
      RunAppend(Step(db, rs[0].secrets, rs[0].request), rs[1..], last);
    }
  }
}
