/** The transcode worker's events through the webhook queue: deduplication absorbs repeats of a transition and
    never swallows a transition of its own. */
module EventDelivery {
  import opened Webhooks
  import Processor = Delivery
  import J = TranscodeJob
  import S = TranscodeSafety
  import T = TranscodeTheorems
  import TranscodeSystem

  predicate DistinctHooks(hooks: seq<string>) { forall i, j | 0 <= i < j < |hooks| :: hooks[i] != hooks[j] }

  // The lookup may fail, and then this publish queues nothing.
  predicate HooksOk(p: Publish) {
    p.hooks.Some? ==> DistinctHooks(p.hooks.value) && forall h | h in p.hooks.value :: '-' !in h
  }

  predicate SameTransition(p: Publish, q: Publish) {
    p.input.jobId == q.input.jobId && p.input.kind == q.input.kind && p.input.attempt == q.input.attempt
  }

  predicate NoRepeats(ps: seq<Publish>) { forall i, j | 0 <= i < j < |ps| :: !SameTransition(ps[i], ps[j]) }

  // Every delivery of every publish, in order.
  function AllDeliveries(ps: seq<Publish>): seq<Delivery> {
    if ps == [] then []
    else
      var last := ps[|ps| - 1];
      AllDeliveries(ps[..|ps| - 1]) + (if last.hooks.Some? then DeliveriesOf(last, last.hooks.value) else [])
  }

  lemma {:induction false} WantedNeedsPublish(ps: seq<Publish>, hook: string, p: Publish)
    requires forall i | 0 <= i < |ps| :: !SameTransition(ps[i], p)
    ensures !Wanted(ps, hook, p.input.jobId, p.input.kind, p.input.attempt)
    decreases |ps|
  {
    if ps != [] {
      WantedNeedsPublish(ps[..|ps| - 1], hook, p);
    }
  }

  lemma {:induction false} NotYetHeld(q: seq<Delivery>, d: Delivery, id: string)
    requires !HasId(q, id) && d.jobId != id
    ensures !HasId(q + [d], id)
  {
    assert forall k | 0 <= k < |q| :: (q + [d])[k] == q[k];
  }

  // Adding entries whose ids are new and distinct drops none of them.
  lemma {:induction false} AddAllAppends(q: seq<Delivery>, ds: seq<Delivery>)
    requires forall i | 0 <= i < |ds| :: !HasId(q, ds[i].jobId)
    requires forall i, j | 0 <= i < j < |ds| :: ds[i].jobId != ds[j].jobId
    ensures AddAll(q, ds) == q + ds
    decreases |ds|
  {
    if ds == [] {
      assert q + ds == q;
    } else {
      var next := q + [ds[0]];
      forall i | 0 <= i < |ds[1..]| ensures !HasId(next, ds[1..][i].jobId) {
        NotYetHeld(q, ds[0], ds[i + 1].jobId);
      }
      assert AddAll(q, ds) == AddAll(next, ds[1..]);
      hide AddAll, HasId;
      AddAllAppends(next, ds[1..]);
      assert next + ds[1..] == q + ds;
    }
  }

  lemma DeliveryAt(p: Publish, i: nat)
    requires p.hooks.Some? && i < |p.hooks.value|
    ensures DeliveriesOf(p, p.hooks.value)[i].jobId
            == DedupeId(p.hooks.value[i], EventId(p.input.jobId, p.input.kind, p.input.attempt))
  {
  }

  lemma {:induction false} DeliveryIsNew(ps: seq<Publish>, p: Publish, i: nat)
    requires HooksOk(p) && p.hooks.Some? && i < |p.hooks.value|
    requires forall k | 0 <= k < |ps| :: HooksOk(ps[k]) && !SameTransition(ps[k], p)
    ensures !HasId(AfterPublishes(ps), DeliveriesOf(p, p.hooks.value)[i].jobId)
  {
    hide EventId, DedupeId;
    DeliveryAt(p, i);
    WantedNeedsPublish(ps, p.hooks.value[i], p);
    QueuedIffWanted(ps, p.hooks.value[i], p.input.jobId, p.input.kind, p.input.attempt);
  }

  lemma {:induction false} DeliveriesDiffer(p: Publish, i: nat, j: nat)
    requires HooksOk(p) && p.hooks.Some? && i < j < |p.hooks.value|
    ensures DeliveriesOf(p, p.hooks.value)[i].jobId != DeliveriesOf(p, p.hooks.value)[j].jobId
  {
    var eventId := EventId(p.input.jobId, p.input.kind, p.input.attempt);
    var a, b := p.hooks.value[i], p.hooks.value[j];
    DeliveryAt(p, i);
    DeliveryAt(p, j);
    assert a in p.hooks.value && b in p.hooks.value;
    if DedupeId(a, eventId) == DedupeId(b, eventId) { DedupeIdInjective(a, eventId, b, eventId); }
  }

  lemma {:induction false} PublishAppends(ps: seq<Publish>, p: Publish)
    requires HooksOk(p) && p.hooks.Some?
    requires forall i | 0 <= i < |ps| :: HooksOk(ps[i]) && !SameTransition(ps[i], p)
    ensures AddAll(AfterPublishes(ps), DeliveriesOf(p, p.hooks.value))
            == AfterPublishes(ps) + DeliveriesOf(p, p.hooks.value)
  {
    hide EventId, AddAll, AfterPublishes, DedupeId, HasId;
    forall i | 0 <= i < |p.hooks.value| { DeliveryIsNew(ps, p, i); }
    forall i, j | 0 <= i < j < |p.hooks.value| { DeliveriesDiffer(p, i, j); }
    AddAllAppends(AfterPublishes(ps), DeliveriesOf(p, p.hooks.value));
  }

  // Publishes of different transitions are all delivered in full.
  lemma {:induction false} NothingIsSwallowed(ps: seq<Publish>)
    requires NoRepeats(ps) && forall i | 0 <= i < |ps| :: HooksOk(ps[i])
    ensures AfterPublishes(ps) == AllDeliveries(ps)
    decreases |ps|
  {
    if ps != [] {
      var n := |ps| - 1;
      NothingIsSwallowed(ps[..n]);
      if ps[n].hooks.Some? {
        PublishAppends(ps[..n], ps[n]);
        assert ps[n].hooks.value == [] ==> DeliveriesOf(ps[n], ps[n].hooks.value) == [];
      }
    }
  }

  // ---- The worker's log ------------------------------------------------------------------------------

  function KindOf(kind: J.EventType): EventType {
    match kind
    case STARTED => STARTED
    case RETRYING => RETRYING
    case COMPLETED => COMPLETED
    case FAILED => FAILED
  }

  // Publish p carries log entry e.
  predicate Carries(p: Publish, e: TranscodeSystem.Published) {
    p.input.jobId == e.jobId && p.input.kind == KindOf(e.event.kind) && p.input.attempt == e.event.attempt
  }

  lemma {:induction false} LogEntryIsEvent(log: seq<TranscodeSystem.Published>, i: nat) returns (k: nat)
    requires i < |log|
    ensures var events := TranscodeSystem.EventsOf(log, log[i].jobId);
            k < |events| && events[k] == log[i].event && k == |TranscodeSystem.EventsOf(log[..i], log[i].jobId)|
    decreases |log|
  {
    var n := |log| - 1;
    if i == n {
      k := |TranscodeSystem.EventsOf(log[..n], log[i].jobId)|;
    } else {
      assert log[..n][..i] == log[..i];
      k := LogEntryIsEvent(log[..n], i);
    }
  }

  lemma {:induction false} EventsGrow(log: seq<TranscodeSystem.Published>, i: nat, j: nat)
    requires i < j <= |log|
    ensures |TranscodeSystem.EventsOf(log[..i], log[i].jobId)| < |TranscodeSystem.EventsOf(log[..j], log[i].jobId)|
    decreases j - i
  {
    assert log[..j][..j - 1] == log[..j - 1];
    if i + 1 < j {
      EventsGrow(log, i, j - 1);
    }
  }

  // In a valid system no log entry repeats an earlier one.
  lemma {:induction false} LogNeverRepeats(log: seq<TranscodeSystem.Published>, i: nat, j: nat)
    requires forall id :: S.FollowsScript(TranscodeSystem.EventsOf(log, id))
    requires i < j < |log|
    ensures log[i] != log[j]
  {
    if log[i] == log[j] {
      var events := TranscodeSystem.EventsOf(log, log[i].jobId);
      var k := LogEntryIsEvent(log, i);
      var l := LogEntryIsEvent(log, j);
      EventsGrow(log, i, j);
      T.ScriptNeverRepeats(events, k, l);
    }
  }

  // Where a publish comes from: the worker's log, or the ENQUEUED that submitTranscodeJob publishes.
  datatype Source = FromLog(index: nat) | Submitted

  predicate ComesFrom(log: seq<TranscodeSystem.Published>, p: Publish, from: Source) {
    match from
    case FromLog(k) => k < |log| && Carries(p, log[k])
    case Submitted => p.input.kind == ENQUEUED
  }

  // Two publishes of different origin: other log entries, or the submissions of other jobs.
  predicate Apart(p: Publish, from: Source, q: Publish, other: Source) {
    if from.Submitted? && other.Submitted? then p.input.jobId != q.input.jobId else from != other
  }

  ghost predicate AllFollowScript(log: seq<TranscodeSystem.Published>) {
    forall id :: S.FollowsScript(TranscodeSystem.EventsOf(log, id))
  }

  lemma {:induction false} PublishesDiffer(log: seq<TranscodeSystem.Published>, p: Publish, from: Source,
                                           q: Publish, other: Source)
    requires AllFollowScript(log)
    requires ComesFrom(log, p, from) && ComesFrom(log, q, other) && Apart(p, from, q, other)
    ensures !SameTransition(p, q)
  {
    if from.FromLog? && other.FromLog? {
      var d, e := log[from.index], log[other.index];
      if from.index < other.index {
        LogNeverRepeats(log, from.index, other.index);
      } else {
        LogNeverRepeats(log, other.index, from.index);
      }
      assert d.event.kind != e.event.kind ==> KindOf(d.event.kind) != KindOf(e.event.kind);
    }
  }

  // However the un-awaited publishes of a valid system's worker and of submissions interleave, each event
  // reaches each hook subscribed at its publish: the queue holds all their deliveries.
  lemma {:induction false} EveryEventReachesItsHooks(system: TranscodeSystem.System, ps: seq<Publish>,
                                                     from: seq<Source>)
    requires system.Valid() && |from| == |ps|
    requires forall i | 0 <= i < |ps| :: HooksOk(ps[i]) && ComesFrom(system.published, ps[i], from[i])
    requires forall i, j | 0 <= i < j < |ps| :: Apart(ps[i], from[i], ps[j], from[j])
    ensures AfterPublishes(ps) == AllDeliveries(ps)
  {
    var log := system.published;
    forall id ensures S.FollowsScript(TranscodeSystem.EventsOf(log, id)) {
      assert S.Inv(system.Slice(id));
    }
    forall i, j | 0 <= i < j < |ps| { PublishesDiffer(log, ps[i], from[i], ps[j], from[j]); }
    NothingIsSwallowed(ps);
  }

  // What receivers are told an event of the worker is.
  function NameOf(kind: J.EventType): string {
    match kind
    case STARTED => "job.started"
    case RETRYING => "job.retrying"
    case COMPLETED => "job.completed"
    case FAILED => "job.failed"
  }

  // And nothing is delivered but that: behind each queued delivery is one of those publishes, and its payload names
  // the job, the type and the attempt of the log entry it came from, or a submission.
  lemma {:induction false} DeliveredNamesItsEvent(log: seq<TranscodeSystem.Published>, ps: seq<Publish>,
                                                  from: seq<Source>, d: Delivery) returns (n: nat)
    requires |from| == |ps| && forall i | 0 <= i < |ps| :: ComesFrom(log, ps[i], from[i])
    requires d in AfterPublishes(ps)
    ensures n < |ps| && ps[n].hooks.Some? && d.webhookId in ps[n].hooks.value
    ensures var payload := Processor.PayloadOf(d.event);
            match from[n]
            case Submitted => payload.name == "job.enqueued"
            case FromLog(k) =>
              && k < |log| && payload.data.jobId == log[k].jobId
              && payload.name == NameOf(log[k].event.kind) && payload.data.attempt == log[k].event.attempt
  {
    n := EntriesCarryPublishes(ps, d);
    hide AfterPublishes;
    assert ComesFrom(log, ps[n], from[n]);
  }
}
