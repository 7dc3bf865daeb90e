/** Rank and org framing: what the requests of one org, or of callers up to one rank, cannot change. */
module IdentityRank {
  import opened Identity
  import opened IdentitySteps

  // ---- Rank ----------------------------------------------------------------------------------------

  function UsersAbove(db: Db, o: Id, rank: nat): set<Id> {
    set u | u in db.users && db.users[u].orgId == o && Rank(db.users[u].role) > rank
  }

  function KeysAbove(db: Db, o: Id, rank: nat): set<Id> {
    set k | k in db.keys && db.keys[k].orgId == o && Rank(db.keys[k].role) > rank
  }

  // A request acting in org `o` is made by a user or key of rank at most `rank`.
  predicate Capped(db: Db, secrets: Secrets, r: Request, o: Id, rank: nat) {
    var ctx := ContextOf(db, secrets, r);
    ctx.Some? && ctx.value.orgId == o ==> MaxRank(ctx.value.roles) <= rank
  }

  predicate RunCapped(db: Db, rs: seq<Arrival>, o: Id, rank: nat)
    decreases |rs|
  {
    rs == [] ||
    (Capped(db, rs[0].secrets, rs[0].request, o, rank)
     && RunCapped(Step(db, rs[0].secrets, rs[0].request), rs[1..], o, rank))
  }

  lemma {:induction false} UserStaysBelow(db: Db, secrets: Secrets, r: Request, o: Id, rank: nat, u: Id)
    requires o in db.orgs && Capped(db, secrets, r, o, rank)
    requires u in UsersAbove(Step(db, secrets, r), o, rank)
    ensures u in UsersAbove(db, o, rank)
  {
    hide Step, ContextOf, Check, CheckPublic, FreshIds;
    if u in db.users {
      UserAfter(db, secrets, r, u);
      if Granted(db, secrets, r) && r.op.AssignRole? { AssignRoleReach(db, secrets, r); }
    } else {
      NewUser(db, secrets, r, u);
    }
    if Granted(db, secrets, r) && (r.op.InviteUser? || r.op.AssignRole?) { GrantedRoleBelowRank(db, secrets, r); }
  }

  lemma {:induction false} KeyStaysBelow(db: Db, secrets: Secrets, r: Request, o: Id, rank: nat, k: Id)
    requires Capped(db, secrets, r, o, rank)
    requires k in KeysAbove(Step(db, secrets, r), o, rank)
    ensures k in KeysAbove(db, o, rank)
  {
    hide Step, ContextOf, Check, CheckPublic, FreshIds;
    KeyAfter(db, secrets, r, k);
    if Granted(db, secrets, r) && r.op.CreateApiKey? { GrantedRoleBelowRank(db, secrets, r); }
  }

  // An active user above the cap keeps their role: assignRole cannot reach them, and a re-invite is only for
  // members on a temporary password.
  lemma {:induction false} ActiveAboveKeepsRole(db: Db, secrets: Secrets, r: Request, o: Id, rank: nat, u: Id)
    requires Capped(db, secrets, r, o, rank)
    requires u in UsersAbove(db, o, rank) && !db.users[u].mustChangePassword
    ensures var after := Step(db, secrets, r).users;
            u in after && after[u].orgId == o && after[u].role == db.users[u].role && !after[u].mustChangePassword
  {
    hide Step, ContextOf, Check, CheckPublic, FreshIds;
    UserAfter(db, secrets, r, u);
    if Granted(db, secrets, r) && r.op.AssignRole? { AssignRoleReach(db, secrets, r); }
  }

  // While an org's requests come from rank at most `rank`, no user or key above that rank appears in it.
  lemma {:induction false} RankNeverEscalates(db: Db, rs: seq<Arrival>, o: Id, rank: nat)
    requires o in db.orgs && RunCapped(db, rs, o, rank)
    ensures UsersAbove(Run(db, rs), o, rank) <= UsersAbove(db, o, rank)
    ensures KeysAbove(Run(db, rs), o, rank) <= KeysAbove(db, o, rank)
    decreases |rs|
  {
    hide Step, Capped, UsersAbove, KeysAbove;
    if rs != [] {
      var next := Step(db, rs[0].secrets, rs[0].request);
      OrgsStay(db, rs[0].secrets, rs[0].request, o);
      forall u | u in UsersAbove(next, o, rank) ensures u in UsersAbove(db, o, rank) {
        UserStaysBelow(db, rs[0].secrets, rs[0].request, o, rank, u);
      }
      forall k | k in KeysAbove(next, o, rank) ensures k in KeysAbove(db, o, rank) {
        KeyStaysBelow(db, rs[0].secrets, rs[0].request, o, rank, k);
      }
      RankNeverEscalates(next, rs[1..], o, rank);
    }
  }

  // And no active user above it loses their role.
  lemma {:induction false} ActiveAboveAreOutOfReach(db: Db, rs: seq<Arrival>, o: Id, rank: nat, u: Id)
    requires RunCapped(db, rs, o, rank)
    requires u in UsersAbove(db, o, rank) && !db.users[u].mustChangePassword
    ensures var after := Run(db, rs).users;
            u in after && after[u].orgId == o && after[u].role == db.users[u].role && !after[u].mustChangePassword
    decreases |rs|
  {
    hide Step, Capped;
    if rs != [] {
      ActiveAboveKeepsRole(db, rs[0].secrets, rs[0].request, o, rank, u);
      ActiveAboveAreOutOfReach(Step(db, rs[0].secrets, rs[0].request), rs[1..], o, rank, u);
    }
  }

  lemma {:induction false} OrgsStay(db: Db, secrets: Secrets, r: Request, o: Id)
    requires o in db.orgs
    ensures o in Step(db, secrets, r).orgs && Step(db, secrets, r).orgs[o] == db.orgs[o]
  {
    hide Step, ContextOf, Check, CheckPublic, FreshIds;
    if Admitted(db, secrets, r) && r.pub.SignUp? {
      SignUpEffect(db, secrets, r);
    } else {
      OrgsOnlyBySignUp(db, secrets, r);
    }
  }
}
