/** From publish to delivery: stable ids, the deduplicating queue, and the bounded-retry processor. */
module Webhooks {
  import opened Wrappers
  import opened Text
  import opened Decimal

  datatype EventType = ENQUEUED | STARTED | COMPLETED | FAILED | RETRYING

  datatype JobEvent = JobEvent(kind: EventType, orgId: string, jobId: string, assetId: string, attempt: nat,
                               detail: string)

  datatype WebhookEvent = WebhookEvent(id: string, event: JobEvent, occurredAt: string)

  datatype Delivery = Delivery(jobId: string, webhookId: string, event: WebhookEvent)

  // The type name without QUEUE_EVENT_TYPE_, in lower case.
  function ShortType(kind: EventType): (s: string)
    ensures '_' !in s
  {
    match kind
    case ENQUEUED => "enqueued"
    case STARTED => "started"
    case COMPLETED => "completed"
    case FAILED => "failed"
    case RETRYING => "retrying"
  }

  function EventId(jobId: string, kind: EventType, attempt: nat): string {
    "evt_" + jobId + "_" + ShortType(kind) + "_" + NatText(attempt)
  }

  // The custom BullMQ id: (webhook, event).
  function DedupeId(webhookId: string, eventId: string): string {
    webhookId + "-" + eventId
  }

  // The wire form of type names and ids, as stored and as receivers know it.
  lemma TypeNames()
    ensures ShortType(ENQUEUED) == "enqueued" && ShortType(STARTED) == "started" && ShortType(COMPLETED) == "completed"
    ensures ShortType(FAILED) == "failed" && ShortType(RETRYING) == "retrying"
  {
  }

  lemma {:induction false} WireNames()
    ensures EventId("j", COMPLETED, 12) == "evt_j_completed_12"
    ensures DedupeId("h", "evt_j_completed_12") == "h-evt_j_completed_12"
  {
    TwelveText();
    hide NatText;
  }

  lemma {:induction false} TwelveText()
    ensures NatText(12) == "12"
  {
    assert NatText(12) == NatText(1) + "2";
  }

  // ---- Ids are injective -----------------------------------------------------------------------

  lemma {:induction false} SplitAtLast(head1: string, field1: string, head2: string, field2: string)
    requires '_' !in field1 && '_' !in field2
    requires head1 + "_" + field1 == head2 + "_" + field2
    ensures head1 == head2 && field1 == field2
  {
    LastIndexOfField(head1, '_', field1);
    LastIndexOfField(head2, '_', field2);
    var s := head1 + "_" + field1;
    assert s[..|head1|] == head1 && s[|head1| + 1..] == field1;
    assert s[..|head2|] == head2 && s[|head2| + 1..] == field2;
  }

  // For every job id, underscores included.
  lemma {:induction false} EventIdInjective(job1: string, kind1: EventType, attempt1: nat, job2: string,
                                            kind2: EventType, attempt2: nat)
    requires EventId(job1, kind1, attempt1) == EventId(job2, kind2, attempt2)
    ensures job1 == job2 && kind1 == kind2 && attempt1 == attempt2
  {
    SplitAtLast("evt_" + job1 + "_" + ShortType(kind1), NatText(attempt1), "evt_" + job2 + "_" + ShortType(kind2),
        NatText(attempt2));
    NatTextInjective(attempt1, attempt2);
    SplitAtLast("evt_" + job1, ShortType(kind1), "evt_" + job2, ShortType(kind2));
    assert ("evt_" + job1)[4..] == job1 && ("evt_" + job2)[4..] == job2;
  }

  lemma {:induction false} DedupeIdInjective(hook1: string, event1: string, hook2: string, event2: string)
    requires '-' !in hook1 && '-' !in hook2
    requires DedupeId(hook1, event1) == DedupeId(hook2, event2)
    ensures hook1 == hook2 && event1 == event2
  {
    IndexOfField(hook1, '-', event1);
    IndexOfField(hook2, '-', event2);
    var s := DedupeId(hook1, event1);
    assert s[..|hook1|] == hook1 && s[|hook1| + 1..] == event1;
    assert s[..|hook2|] == hook2 && s[|hook2| + 1..] == event2;
  }

  // The ids of two webhooks can meet only through an event id in between.
  predicate Extends(hook: string, longer: string) { hook + "-evt_" <= longer }

  lemma {:induction false} EventIdStart(jobId: string, kind: EventType, attempt: nat)
    ensures "evt_" <= EventId(jobId, kind, attempt)
  {
    hide NatText, ShortType;
    assert EventId(jobId, kind, attempt)[..4] == "evt_";
  }

  lemma {:induction false} CollisionExtends(hook: string, event: string, longer: string, other: string)
    requires |hook| < |longer| && "evt_" <= event
    requires DedupeId(hook, event) == DedupeId(longer, other)
    ensures Extends(hook, longer)
  {
    var s, n := DedupeId(hook, event), |hook|;
    assert s[..n] == hook && s[n] == '-' && s[n + 1..][..4] == "evt_";
    assert s[n + 1] == 'e' && s[n + 2] == 'v' && s[n + 3] == 't' && s[n + 4] == '_';
    assert s[..|longer|] == longer && s[|longer|] == '-';
    assert |longer| >= n + 5;
    assert s[..n + 5] == hook + "-evt_";
  }

  // Conversely the queue takes a delivery of each for the same one.
  lemma {:induction false} ExtensionCollides(hook: string, rest: string, jobId: string, kind: EventType, attempt: nat)
    ensures DedupeId(hook, EventId(rest + "-evt_" + jobId, kind, attempt))
            == DedupeId(hook + "-evt_" + rest, EventId(jobId, kind, attempt))
  {
    hide NatText, ShortType;
    var tail := "_" + ShortType(kind) + "_" + NatText(attempt);
    assert EventId(jobId, kind, attempt) == "evt_" + jobId + tail;
    assert EventId(rest + "-evt_" + jobId, kind, attempt) == "evt_" + rest + "-evt_" + jobId + tail;
  }

  predicate SameQueueId(hook1: string, job1: string, kind1: EventType, attempt1: nat,
                        hook2: string, job2: string, kind2: EventType, attempt2: nat)
  {
    DedupeId(hook1, EventId(job1, kind1, attempt1)) == DedupeId(hook2, EventId(job2, kind2, attempt2))
  }

  // Deliveries to two webhooks can share a queue id exactly when one webhook id extends the other by a hyphen
  // and the start of an event id. Generated ids, which have no hyphen, never do.
  lemma {:induction false} HooksCollideIff(a: string, b: string)
    requires a != b
    ensures (exists job1, kind1, attempt1, job2, kind2, attempt2 ::
               SameQueueId(a, job1, kind1, attempt1, b, job2, kind2, attempt2))
            <==> Extends(a, b) || Extends(b, a)
  {
    hide EventId, DedupeId;
    forall job1, kind1, attempt1, job2, kind2, attempt2
      | SameQueueId(a, job1, kind1, attempt1, b, job2, kind2, attempt2)
      ensures Extends(a, b) || Extends(b, a)
    {
      SharedIdExtends(a, job1, kind1, attempt1, b, job2, kind2, attempt2);
    }
    if Extends(a, b) {
      var rest := b[|a| + 5..];
      ExtensionCollides(a, rest, "", STARTED, 1);
      assert b == a + "-evt_" + rest;
      assert SameQueueId(a, rest + "-evt_" + "", STARTED, 1, b, "", STARTED, 1);
    } else if Extends(b, a) {
      var rest := a[|b| + 5..];
      ExtensionCollides(b, rest, "", STARTED, 1);
      assert a == b + "-evt_" + rest;
      assert SameQueueId(a, "", STARTED, 1, b, rest + "-evt_" + "", STARTED, 1);
    }
  }

  lemma {:induction false} SharedIdExtends(a: string, job1: string, kind1: EventType, attempt1: nat,
                                           b: string, job2: string, kind2: EventType, attempt2: nat)
    requires a != b && SameQueueId(a, job1, kind1, attempt1, b, job2, kind2, attempt2)
    ensures Extends(a, b) || Extends(b, a)
  {
    hide EventId;
    var e, f := EventId(job1, kind1, attempt1), EventId(job2, kind2, attempt2);
    EventIdStart(job1, kind1, attempt1);
    EventIdStart(job2, kind2, attempt2);
    var s := DedupeId(a, e);
    assert s[..|a|] == a && s[..|b|] == b;
    if |a| < |b| {
      CollisionExtends(a, e, b, f);
    } else if |b| < |a| {
      CollisionExtends(b, f, a, e);
    }
  }

  // ---- The deduplicating queue --------------------------------------------------------------------

  predicate HasId(q: seq<Delivery>, id: string) { exists i | 0 <= i < |q| :: q[i].jobId == id }

  // BullMQ ignores an add whose custom id it still holds.
  function Add(q: seq<Delivery>, d: Delivery): seq<Delivery> {
    if HasId(q, d.jobId) then q else q + [d]
  }

  function AddAll(q: seq<Delivery>, ds: seq<Delivery>): seq<Delivery>
    decreases |ds|
  {
    if ds == [] then q else AddAll(Add(q, ds[0]), ds[1..])
  }

  // One publish call: the event, the lookup of subscribed active hooks (None when it throws), the clock.
  datatype Publish = Publish(input: JobEvent, hooks: Option<seq<string>>, occurredAt: string)

  function EventOf(p: Publish): WebhookEvent {
    WebhookEvent(EventId(p.input.jobId, p.input.kind, p.input.attempt), p.input, p.occurredAt)
  }

  function DeliveriesOf(p: Publish, hooks: seq<string>): (ds: seq<Delivery>)
    ensures |ds| == |hooks|
  {
    seq(|hooks|, i requires 0 <= i < |hooks| =>
      Delivery(DedupeId(hooks[i], EventOf(p).id), hooks[i], EventOf(p)))
  }

  function AfterPublish(q: seq<Delivery>, p: Publish): seq<Delivery> {
    if p.hooks.None? || p.hooks.value == [] then q else AddAll(q, DeliveriesOf(p, p.hooks.value))
  }

  function AfterPublishes(ps: seq<Publish>): seq<Delivery> {
    if ps == [] then [] else AfterPublish(AfterPublishes(ps[..|ps| - 1]), ps[|ps| - 1])
  }

  class WebhookQueue {
    var entries: seq<Delivery>

    constructor ()
      ensures entries == []
    {
      entries := [];
    }

    method AddBulk(ds: seq<Delivery>)
      modifies this
      ensures entries == AddAll(old(entries), ds)
    {
      for i := 0 to |ds|
        invariant AddAll(entries, ds[i..]) == AddAll(old(entries), ds)
      {
        assert ds[i..][1..] == ds[i + 1..];
        if !HasId(entries, ds[i].jobId) {
          entries := entries + [ds[i]];
        }
      }
      assert ds[|ds|..] == [];
    }

    // The publisher never throws: a failed lookup leaves the queue as it was.
    method PublishEvent(p: Publish)
      modifies this
      ensures entries == AfterPublish(old(entries), p)
    {
      if p.hooks.None? {
        return;
      }
      var hooks := p.hooks.value;
      if |hooks| == 0 {
        return;
      }
      var event := WebhookEvent(EventId(p.input.jobId, p.input.kind, p.input.attempt), p.input, p.occurredAt);
      var jobs := seq(|hooks|, i requires 0 <= i < |hooks| =>
        Delivery(DedupeId(hooks[i], event.id), hooks[i], event));
      assert jobs == DeliveriesOf(p, hooks);
      AddBulk(jobs);
    }
  }

  // ---- Exactly one delivery per hook and transition ------------------------------------------------

  predicate IsFor(d: Delivery, hook: string, jobId: string, kind: EventType, attempt: nat) {
    d.webhookId == hook && d.event.event.jobId == jobId && d.event.event.kind == kind
        && d.event.event.attempt == attempt
  }

  // Some publish of the transition found the hook subscribed.
  predicate Wanted(ps: seq<Publish>, hook: string, jobId: string, kind: EventType, attempt: nat) {
    ps != [] &&
    (var p := ps[|ps| - 1];
     || Wanted(ps[..|ps| - 1], hook, jobId, kind, attempt)
     || (p.hooks.Some? && hook in p.hooks.value
         && p.input.jobId == jobId && p.input.kind == kind && p.input.attempt == attempt))
  }

  // Webhook ids are cuids, which hold no hyphen.
  predicate HyphenFree(ps: seq<Publish>) {
    forall i, h | 0 <= i < |ps| && ps[i].hooks.Some? && h in ps[i].hooks.value :: '-' !in h
  }

  predicate Keyed(d: Delivery) {
    && '-' !in d.webhookId
    && d.event.id == EventId(d.event.event.jobId, d.event.event.kind, d.event.event.attempt)
    && d.jobId == DedupeId(d.webhookId, d.event.id)
  }

  predicate QueueOk(q: seq<Delivery>) {
    && (forall i | 0 <= i < |q| :: Keyed(q[i]))
    && (forall i, j | 0 <= i < j < |q| :: q[i].jobId != q[j].jobId)
  }

  lemma {:induction false} AddKeeps(q: seq<Delivery>, d: Delivery)
    requires QueueOk(q) && Keyed(d)
    ensures QueueOk(Add(q, d)) && q <= Add(q, d)
    ensures forall id :: HasId(Add(q, d), id) <==> HasId(q, id) || d.jobId == id
  {
    var r := Add(q, d);
    assert !HasId(q, d.jobId) ==> r[|q|] == d;
    assert forall i | 0 <= i < |q| :: r[i] == q[i];
  }

  lemma {:induction false} AddAllKeeps(q: seq<Delivery>, ds: seq<Delivery>)
    requires QueueOk(q) && forall i | 0 <= i < |ds| :: Keyed(ds[i])
    ensures QueueOk(AddAll(q, ds)) && q <= AddAll(q, ds)
    ensures forall id :: HasId(AddAll(q, ds), id) <==> HasId(q, id) || HasId(ds, id)
    decreases |ds|
  {
    if ds != [] {
      AddKeeps(q, ds[0]);
      AddAllKeeps(Add(q, ds[0]), ds[1..]);
      forall id ensures HasId(AddAll(q, ds), id) <==> HasId(q, id) || HasId(ds, id) {
        hide *;
        HasIdCons(ds, id);
      }
    }
  }

  lemma {:induction false} HasIdCons(ds: seq<Delivery>, id: string)
    requires ds != []
    ensures HasId(ds, id) <==> ds[0].jobId == id || HasId(ds[1..], id)
  {
    if HasId(ds[1..], id) {
      var i :| 0 <= i < |ds[1..]| && ds[1..][i].jobId == id;
      assert ds[i + 1].jobId == id;
    }
    if HasId(ds, id) && ds[0].jobId != id {
      var i :| 0 <= i < |ds| && ds[i].jobId == id;
      assert ds[1..][i - 1].jobId == id;
    }
  }

  lemma {:induction false} PublishAdds(p: Publish, hook: string, jobId: string, kind: EventType, attempt: nat)
    requires p.hooks.Some? && forall h | h in p.hooks.value :: '-' !in h
    requires '-' !in hook
    ensures forall i | 0 <= i < |p.hooks.value| :: Keyed(DeliveriesOf(p, p.hooks.value)[i])
    ensures HasId(DeliveriesOf(p, p.hooks.value), DedupeId(hook, EventId(jobId, kind, attempt))) <==>
              hook in p.hooks.value && p.input.jobId == jobId && p.input.kind == kind && p.input.attempt == attempt
  {
    var ds := DeliveriesOf(p, p.hooks.value);
    var id := DedupeId(hook, EventId(jobId, kind, attempt));
    if HasId(ds, id) {
      var i :| 0 <= i < |ds| && ds[i].jobId == id;
      DedupeIdInjective(p.hooks.value[i], EventOf(p).id, hook, EventId(jobId, kind, attempt));
      EventIdInjective(p.input.jobId, p.input.kind, p.input.attempt, jobId, kind, attempt);
    }
    if hook in p.hooks.value && p.input.jobId == jobId && p.input.kind == kind && p.input.attempt == attempt {
      var i :| 0 <= i < |p.hooks.value| && p.hooks.value[i] == hook;
      assert ds[i].jobId == id;
    }
  }

  lemma {:induction false} QueuedIffWanted(ps: seq<Publish>, hook: string, jobId: string, kind: EventType, attempt: nat)
    requires HyphenFree(ps) && '-' !in hook
    ensures QueueOk(AfterPublishes(ps))
    ensures HasId(AfterPublishes(ps), DedupeId(hook, EventId(jobId, kind, attempt))) <==>
              Wanted(ps, hook, jobId, kind, attempt)
    decreases |ps|
  {
    if ps != [] {
      var p := ps[|ps| - 1];
      QueuedIffWanted(ps[..|ps| - 1], hook, jobId, kind, attempt);
      if p.hooks.Some? {
        PublishAdds(p, hook, jobId, kind, attempt);
        AddAllKeeps(AfterPublishes(ps[..|ps| - 1]), DeliveriesOf(p, p.hooks.value));
      }
    }
  }

  // Every delivery in the queue is one that some publish made: for a hook that it found, with its event and time.
  lemma {:induction false} EntriesCarryPublishes(ps: seq<Publish>, d: Delivery) returns (n: nat)
    requires d in AfterPublishes(ps)
    ensures n < |ps| && ps[n].hooks.Some? && d.webhookId in ps[n].hooks.value
    ensures d.event.event == ps[n].input && d.event.occurredAt == ps[n].occurredAt
    decreases |ps|
  {
    hide EventId, DedupeId;
    n := |ps| - 1;
    var q, p := AfterPublishes(ps[..n]), ps[n];
    if d in q {
      n := EntriesCarryPublishes(ps[..n], d);
    } else {
      AddedAreGiven(q, DeliveriesOf(p, p.hooks.value), d);
    }
  }

  lemma {:induction false} AddedAreGiven(q: seq<Delivery>, ds: seq<Delivery>, d: Delivery)
    requires d in AddAll(q, ds)
    ensures d in q || d in ds
    decreases |ds|
  {
    if ds != [] {
      AddedAreGiven(Add(q, ds[0]), ds[1..], d);
    }
  }

  // However often transitions are published, the queue holds exactly one delivery of each transition for each
  // hook that some publish of it found subscribed, and none for any other hook.
  lemma {:induction false} ExactlyOneDelivery(ps: seq<Publish>, hook: string, jobId: string, kind: EventType,
                                              attempt: nat)
    requires HyphenFree(ps) && '-' !in hook
    ensures var q := AfterPublishes(ps);
            && ((exists i | 0 <= i < |q| :: IsFor(q[i], hook, jobId, kind, attempt)) <==>
                Wanted(ps, hook, jobId, kind, attempt))
            && (forall i, j | 0 <= i < |q| && 0 <= j < |q| && IsFor(q[i], hook, jobId, kind, attempt)
                              && IsFor(q[j], hook, jobId, kind, attempt) :: i == j)
  {
    QueuedIffWanted(ps, hook, jobId, kind, attempt);
    var q := AfterPublishes(ps);
    var id := DedupeId(hook, EventId(jobId, kind, attempt));
    forall i | 0 <= i < |q| ensures IsFor(q[i], hook, jobId, kind, attempt) <==> q[i].jobId == id {
      assert Keyed(q[i]);
      if q[i].jobId == id {
        DedupeIdInjective(q[i].webhookId, q[i].event.id, hook, EventId(jobId, kind, attempt));
        var e := q[i].event.event;
        EventIdInjective(e.jobId, e.kind, e.attempt, jobId, kind, attempt);
      }
    }
    if Wanted(ps, hook, jobId, kind, attempt) {
      var i :| 0 <= i < |q| && q[i].jobId == id;
      assert IsFor(q[i], hook, jobId, kind, attempt);
    }
  }
}
