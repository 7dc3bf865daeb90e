/** The gateway-signed request context: canonical payload, signing, and verification under secret rotation. */
module SignedContext {
  import opened Wrappers
  import opened Text
  import opened Decimal
  import opened Hex
  import opened Ordering

  datatype Context = Context(
    userId: string,
    orgId: string,
    roles: seq<string>,
    traceId: string,
    issuedAtMs: int,
    signature: string)

  // HMAC-SHA256 as an uninterpreted function of secret and data.
  type Mac = (string, string) -> seq<byte>

  // CONTEXT_SIGNING_SECRET and CONTEXT_SIGNING_SECRET_PREVIOUS; "" is unset.
  datatype Secrets = Secrets(current: string, previous: string)

  const MAX_AGE_MS := 5 * 60 * 1000

  function Fields(ctx: Context, issuedAtMs: int): seq<string> {
    ["v1", ctx.userId, ctx.orgId, Join(Sort(ctx.roles, LexLe), ","), ctx.traceId, IntText(issuedAtMs)]
  }

  function Payload(ctx: Context, issuedAtMs: int): string {
    Join(Fields(ctx, issuedAtMs), "\n")
  }

  // signContext at clock `now`; None when no current secret is set (the original throws).
  function Sign(mac: Mac, secrets: Secrets, now: int, ctx: Context): Option<Context> {
    if secrets.current == "" then None
    else Some(ctx.(issuedAtMs := now, signature := Encode(mac(secrets.current, Payload(ctx, now)))))
  }

  datatype Verification = Accepted(context: Context) | Rejected(reason: string) | NoSecret

  predicate Fresh(now: int, issuedAtMs: int) { -MAX_AGE_MS <= now - issuedAtMs <= MAX_AGE_MS }

  // Some secret that verifies contexts reproduces the signature.
  predicate Authentic(mac: Mac, secrets: Secrets, ctx: Context) {
    var data := Payload(ctx, ctx.issuedAtMs);
    || Decode(ctx.signature) == mac(secrets.current, data)
    || (secrets.previous != "" && Decode(ctx.signature) == mac(secrets.previous, data))
  }

  method VerifyContext(mac: Mac, secrets: Secrets, now: int, context: Option<Context>) returns (r: Verification)
    ensures r.Accepted? <==>
              && context.Some? && context.value.userId != "" && context.value.orgId != ""
              && context.value.signature != "" && context.value.issuedAtMs != 0
              && -300000 <= now - context.value.issuedAtMs <= 300000
              && secrets.current != "" && Authentic(mac, secrets, context.value)
    ensures r.Accepted? ==> r.context == context.value
    ensures context.None? || context.value.userId == "" || context.value.orgId == "" ==>
              r == Rejected("missing request context")
    ensures context.Some? && context.value.userId != "" && context.value.orgId != "" ==>
              && (context.value.signature == "" || context.value.issuedAtMs == 0 ==>
                    r == Rejected("unsigned request context"))
              && (context.value.signature != "" && context.value.issuedAtMs != 0 ==>
                    (r == Rejected("request context expired") <==> !Fresh(now, context.value.issuedAtMs))
                    && (r.NoSecret? <==> Fresh(now, context.value.issuedAtMs) && secrets.current == "")
                    && (r == Rejected("invalid context signature") <==>
                          && Fresh(now, context.value.issuedAtMs) && secrets.current != ""
                          && !Authentic(mac, secrets, context.value)))
  {
    if context.None? || context.value.userId == "" || context.value.orgId == "" {
      return Rejected("missing request context");
    }
    var ctx := context.value;
    if ctx.signature == "" || ctx.issuedAtMs == 0 {
      return Rejected("unsigned request context");
    }
    var age := now - ctx.issuedAtMs;
    if age > MAX_AGE_MS || age < -MAX_AGE_MS {
      return Rejected("request context expired");
    }
    var data := Payload(ctx, ctx.issuedAtMs);
    var actual := Decode(ctx.signature);
    if secrets.current == "" {
      return NoSecret;
    }
    var candidates := [secrets.current] + (if secrets.previous != "" then [secrets.previous] else []);
    for i := 0 to |candidates|
      invariant forall k | 0 <= k < i :: mac(candidates[k], data) != actual
    {
      var recomputed := mac(candidates[i], data);
      if |actual| == |recomputed| && actual == recomputed {
        assert candidates[i] == secrets.current || candidates[i] == secrets.previous;
        return Accepted(ctx);
      }
    }
    assert candidates[0] == secrets.current;
    assert secrets.previous != "" ==> candidates[1] == secrets.previous;
    return Rejected("invalid context signature");
  }

  // ---- The payload is canonical ------------------------------------------------------------

  predicate CleanRole(role: string) { role != "" && ',' !in role && '\n' !in role }

  predicate Clean(ctx: Context) {
    && '\n' !in ctx.userId && '\n' !in ctx.orgId && '\n' !in ctx.traceId
    && forall r | r in ctx.roles :: CleanRole(r)
  }

  ghost predicate SameIdentity(a: Context, b: Context) {
    a.userId == b.userId && a.orgId == b.orgId && a.traceId == b.traceId && multiset(a.roles) == multiset(b.roles)
  }

  lemma {:induction false} SortedRolesAreClean(ctx: Context)
    requires Clean(ctx)
    ensures forall r | r in Sort(ctx.roles, LexLe) :: CleanRole(r)
  {
    SameElements(Sort(ctx.roles, LexLe), ctx.roles);
  }

  lemma {:induction false} RoleListInjective(a: seq<string>, b: seq<string>)
    requires forall r | r in a :: CleanRole(r)
    requires forall r | r in b :: CleanRole(r)
    requires Join(a, ",") == Join(b, ",")
    ensures a == b
  {
    assert a != [] ==> CleanRole(a[0]);
    assert b != [] ==> CleanRole(b[0]);
    if a != [] && b != [] {
      SplitOfJoin(a, ',');
      SplitOfJoin(b, ',');
    }
  }

  lemma {:induction false} FieldsAreLines(ctx: Context, t: int)
    requires Clean(ctx)
    ensures Split(Payload(ctx, t), '\n') == Fields(ctx, t)
  {
    SortedRolesAreClean(ctx);
    JoinAvoids(Sort(ctx.roles, LexLe), ",", '\n');
    SplitOfJoin(Fields(ctx, t), '\n');
  }

  lemma {:induction false} RolesCanonical(a: seq<string>, b: seq<string>)
    ensures Sort(a, LexLe) == Sort(b, LexLe) <==> multiset(a) == multiset(b)
  {
    LexOrders(Elements(a) + Elements(b));
    SortIsCanonical(a, b, LexLe);
  }

  // Two payloads agree exactly when user, org, trace, issue time and the multiset of roles agree.
  lemma {:induction false} PayloadIsCanonical(a: Context, s: int, b: Context, t: int)
    requires Clean(a) && Clean(b)
    ensures Payload(a, s) == Payload(b, t) <==> SameIdentity(a, b) && s == t
  {
    RolesCanonical(a.roles, b.roles);
    if Payload(a, s) == Payload(b, t) {
      FieldsAreLines(a, s);
      FieldsAreLines(b, t);
      var f, g := Fields(a, s), Fields(b, t);
      assert f[1] == g[1] && f[2] == g[2] && f[3] == g[3] && f[4] == g[4] && f[5] == g[5];
      SortedRolesAreClean(a);
      SortedRolesAreClean(b);
      RoleListInjective(Sort(a.roles, LexLe), Sort(b.roles, LexLe));
      IntTextInjective(s, t);
    }
  }

  // ---- Signing and verifying ------------------------------------------------------------------

  predicate Verifies(mac: Mac, secrets: Secrets, now: int, ctx: Context) {
    && ctx.userId != "" && ctx.orgId != "" && ctx.signature != "" && ctx.issuedAtMs != 0
    && Fresh(now, ctx.issuedAtMs) && secrets.current != "" && Authentic(mac, secrets, ctx)
  }

  // A signed context verifies in any role order, at any age up to five minutes either side, after any
  // rotation that leaves the signing secret current or previous.
  lemma {:induction false} SignedVerifies(mac: Mac, signer: Secrets, verifier: Secrets, ctx: Context,
                                          sent: Context, t: int, now: int)
    requires ctx.userId != "" && ctx.orgId != "" && t != 0
    requires forall secret, data :: mac(secret, data) != []
    requires Sign(mac, signer, t, ctx).Some?
    requires sent == Sign(mac, signer, t, ctx).value.(roles := sent.roles)
             && multiset(sent.roles) == multiset(ctx.roles)
    requires verifier.current != "" && signer.current in {verifier.current, verifier.previous}
    requires Fresh(now, t)
    ensures Verifies(mac, verifier, now, sent)
  {
    RolesCanonical(sent.roles, ctx.roles);
    assert Payload(sent, t) == Payload(ctx, t);
    RoundTrip(mac(signer.current, Payload(ctx, t)));
  }

  ghost predicate Ideal(mac: Mac) {
    && (forall secret, data :: mac(secret, data) != [])
    && (forall s1, d1, s2, d2 :: mac(s1, d1) == mac(s2, d2) ==> s1 == s2 && d1 == d2)
  }

  // Under an ideal MAC nothing else does: the signature made for ctx at t is accepted on another context
  // exactly when that context is the same identity at the same time, fresh, under a secret still in use.
  lemma {:induction false} SignatureBindsIdentity(mac: Mac, signer: Secrets, verifier: Secrets, ctx: Context,
                                                  sent: Context, t: int, now: int)
    requires Ideal(mac) && Clean(ctx) && Clean(sent)
    requires Sign(mac, signer, t, ctx).Some? && sent.signature == Sign(mac, signer, t, ctx).value.signature
    ensures Verifies(mac, verifier, now, sent) <==>
              && SameIdentity(ctx, sent) && sent.issuedAtMs == t && t != 0 && Fresh(now, t)
              && sent.userId != "" && sent.orgId != ""
              && verifier.current != "" && signer.current in {verifier.current, verifier.previous}
  {
    var data := Payload(ctx, t);
    RoundTrip(mac(signer.current, data));
    assert sent.signature != "" by {
      assert mac(signer.current, data) != [];
    }
    PayloadIsCanonical(ctx, t, sent, sent.issuedAtMs);
  }
}
