/** The in-memory gRPC health registry (gRPC Health Checking Protocol, service grpc.health.v1.Health, Watch). */
module HealthRegistry {
  import opened Wrappers

  datatype ServingStatus = SERVING | NOT_SERVING

  // What a watch stream carries; Unknown is SERVICE_UNKNOWN.
  datatype Wire = Unknown | Known(status: ServingStatus)

  type WatchId = nat

  // ---- The history of a registry and what it means ------------------------------------------------------

  datatype Event =
    | SetStatus(service: string, status: ServingStatus)
    | Watch(id: WatchId, service: string)
    | Close(id: WatchId)

  function ToWire(status: Option<ServingStatus>): Wire {
    if status.None? then Unknown else Known(status.value)
  }

  // The services in `known` start NOT_SERVING; every other one is unregistered until its first setStatus.
  function StatusOf(known: set<string>, h: seq<Event>, service: string): Option<ServingStatus> {
    if h == [] then (if service in known then Some(NOT_SERVING) else None)
    else
      var e := h[|h| - 1];
      if e.SetStatus? && e.service == service then Some(e.status) else StatusOf(known, h[..|h| - 1], service)
  }

  // The service an open watch follows.
  function OpenOn(h: seq<Event>, id: WatchId): Option<string> {
    if h == [] then None
    else
      var e := h[|h| - 1];
      if e.Watch? && e.id == id then Some(e.service)
      else if e.Close? && e.id == id then None
      else OpenOn(h[..|h| - 1], id)
  }

  predicate Watched(h: seq<Event>, id: WatchId) {
    exists i | 0 <= i < |h| :: h[i].Watch? && h[i].id == id
  }

  // A stream id is used once.
  predicate WellFormed(h: seq<Event>) {
    forall i, j | 0 <= i < j < |h| && h[i].Watch? && h[j].Watch? :: h[i].id != h[j].id
  }

  // What event e, after history h, writes to a watch stream ...
  function Written(known: set<string>, h: seq<Event>, e: Event, id: WatchId): seq<Wire> {
    match e
    case Watch(w, service) => if w == id then [ToWire(StatusOf(known, h, service))] else []
    case SetStatus(service, status) => if OpenOn(h, id) == Some(service) then [Known(status)] else []
    case Close(_) => []
  }

  // ... and everything written to it.
  function Sent(known: set<string>, h: seq<Event>, id: WatchId): seq<Wire> {
    if h == [] then []
    else Sent(known, h[..|h| - 1], id) + Written(known, h[..|h| - 1], h[|h| - 1], id)
  }

  // The statuses later set for a service, in order.
  function Changes(h: seq<Event>, service: string): seq<Wire> {
    if h == [] then []
    else
      var e := h[|h| - 1];
      Changes(h[..|h| - 1], service) + (if e.SetStatus? && e.service == service then [Known(e.status)] else [])
  }

  // What one more event does to everything read off a history.
  lemma {:induction false} Append(known: set<string>, h: seq<Event>, e: Event)
    ensures forall s :: StatusOf(known, h + [e], s) ==
              if e.SetStatus? && e.service == s then Some(e.status) else StatusOf(known, h, s)
    ensures forall id :: OpenOn(h + [e], id) ==
              if e.Watch? && e.id == id then Some(e.service)
              else if e.Close? && e.id == id then None
              else OpenOn(h, id)
    ensures forall id :: Watched(h + [e], id) <==> Watched(h, id) || (e.Watch? && e.id == id)
    ensures forall id :: Sent(known, h + [e], id) == Sent(known, h, id) + Written(known, h, e, id)
    ensures WellFormed(h) && (e.Watch? ==> !Watched(h, e.id)) ==> WellFormed(h + [e])
  {
    var k := h + [e];
    assert k[..|k| - 1] == h && k[|h|] == e;
    forall id ensures Watched(k, id) <==> Watched(h, id) || (e.Watch? && e.id == id) {
      if Watched(h, id) {
        var i :| 0 <= i < |h| && h[i].Watch? && h[i].id == id;
        assert k[i] == h[i];
      }
    }
  }

  lemma NotWatchedBefore(h: seq<Event>, id: WatchId, n: nat)
    requires WellFormed(h) && n < |h| && h[n].Watch? && h[n].id == id
    ensures !Watched(h[..n], id)
  {
  }

  lemma {:induction false} UnwatchedSendsNothing(known: set<string>, h: seq<Event>, id: WatchId)
    requires !Watched(h, id)
    ensures Sent(known, h, id) == [] && OpenOn(h, id).None?
  {
    if h != [] {
      var n := |h| - 1;
      assert forall i | 0 <= i < n :: h[..n][i] == h[i];
      UnwatchedSendsNothing(known, h[..n], id);
    }
  }

  // The last thing an open watch was sent is the current status of its service.
  lemma {:induction false} LastSentIsCurrent(known: set<string>, h: seq<Event>, id: WatchId)
    requires OpenOn(h, id).Some?
    ensures var sent := Sent(known, h, id);
            sent != [] && sent[|sent| - 1] == ToWire(StatusOf(known, h, OpenOn(h, id).value))
  {
    var n := |h| - 1;
    if !(h[n].Watch? && h[n].id == id) {
      LastSentIsCurrent(known, h[..n], id);
    }
  }

  lemma {:induction false} SentAtSubscription(known: set<string>, h: seq<Event>, id: WatchId)
    requires h != [] && WellFormed(h) && h[|h| - 1].Watch? && h[|h| - 1].id == id
    ensures Sent(known, h, id) == [ToWire(StatusOf(known, h[..|h| - 1], h[|h| - 1].service))]
    ensures OpenOn(h, id) == Some(h[|h| - 1].service)
  {
    NotWatchedBefore(h, id, |h| - 1);
    UnwatchedSendsNothing(known, h[..|h| - 1], id);
    hide StatusOf;
  }

  // One more event, not the subscription itself, adds what it changes.
  lemma {:induction false} SentOneMore(known: set<string>, h: seq<Event>, id: WatchId, service: string)
    requires h != [] && !(h[|h| - 1].Watch? && h[|h| - 1].id == id)
    requires OpenOn(h, id).Some? && OpenOn(h[..|h| - 1], id) == Some(service)
    ensures Sent(known, h, id) == Sent(known, h[..|h| - 1], id) + Changes([h[|h| - 1]], service)
  {
    hide StatusOf;
    var e := h[|h| - 1];
    assert Changes([e][..0], service) == [];
    assert Changes([e], service) == if e.SetStatus? && e.service == service then [Known(e.status)] else [];
  }

  lemma {:induction false} ChangesOneMore(h: seq<Event>, n: nat, service: string)
    requires n + 1 < |h|
    ensures Changes(h[n + 1..], service) == Changes(h[..|h| - 1][n + 1..], service) + Changes([h[|h| - 1]], service)
  {
    var m := |h| - 1;
    assert h[n + 1..][..m - n - 1] == h[..m][n + 1..];
    assert h[n + 1..][m - n - 1] == h[m];
    assert Changes([h[m]][..0], service) == [];
  }

  lemma OpenBefore(h: seq<Event>, id: WatchId)
    requires h != [] && OpenOn(h, id).Some? && !(h[|h| - 1].Watch? && h[|h| - 1].id == id)
    ensures OpenOn(h[..|h| - 1], id) == OpenOn(h, id)
  {
  }

  // An open watch was sent the status at its subscription, then one entry per later setStatus of its service.
  lemma {:induction false} SentSinceSubscription(known: set<string>, h: seq<Event>, id: WatchId, n: nat)
    requires WellFormed(h) && n < |h| && h[n].Watch? && h[n].id == id
    requires OpenOn(h, id).Some?
    ensures OpenOn(h, id) == Some(h[n].service)
    ensures Sent(known, h, id) == [ToWire(StatusOf(known, h[..n], h[n].service))] + Changes(h[n + 1..], h[n].service)
    decreases |h|
  {
    var m := |h| - 1;
    var service := h[n].service;
    if n == m {
      SentAtSubscription(known, h, id);
      assert h[n + 1..] == [];
    } else {
      assert h[..m][..n] == h[..n];
      OpenBefore(h, id);
      hide Sent, OpenOn, StatusOf, Changes;
      SentSinceSubscription(known, h[..m], id, n);
      SentOneMore(known, h, id, service);
      ChangesOneMore(h, n, service);
    }
  }

  lemma {:induction false} ClosedStep(known: set<string>, h: seq<Event>, e: Event, id: WatchId)
    requires WellFormed(h + [e]) && Watched(h, id) && OpenOn(h, id).None?
    ensures Sent(known, h + [e], id) == Sent(known, h, id)
    ensures Watched(h + [e], id) && OpenOn(h + [e], id).None?
  {
    var i :| 0 <= i < |h| && h[i].Watch? && h[i].id == id;
    assert (h + [e])[i] == h[i] && (h + [e])[|h|] == e;
    Append(known, h, e);
    hide Sent, OpenOn, Watched, WellFormed;
  }

  lemma {:induction false} WellFormedPrefix(h: seq<Event>, n: nat)
    requires WellFormed(h) && n <= |h|
    ensures WellFormed(h[..n])
  {
    assert forall i | 0 <= i < n :: h[..n][i] == h[i];
  }

  // A closed watch is sent nothing more.
  lemma {:induction false} ClosedReceivesNothing(known: set<string>, h: seq<Event>, more: seq<Event>, id: WatchId)
    requires WellFormed(h + more) && Watched(h, id) && OpenOn(h, id).None?
    ensures Sent(known, h + more, id) == Sent(known, h, id)
    ensures Watched(h + more, id) && OpenOn(h + more, id).None?
    decreases |more|
  {
    hide Sent, OpenOn, Watched, WellFormed;
    if more == [] {
      assert h + more == h;
    } else {
      var m := |more| - 1;
      assert (h + more)[..|h| + m] == h + more[..m] && h + more == h + more[..m] + [more[m]];
      WellFormedPrefix(h + more, |h| + m);
      ClosedReceivesNothing(known, h, more[..m], id);
      ClosedStep(known, h + more[..m], more[m], id);
    }
  }

  // ---- The registry ----------------------------------------------------------------------------------------

  class Registry {
    var statuses: map<string, ServingStatus>
    var watchers: map<string, set<WatchId>>
    var sent: map<WatchId, seq<Wire>>
    ghost var history: seq<Event>
    ghost const known: set<string>

    ghost predicate StatusesAgree()
      reads this
    {
      forall s :: StatusOf(known, history, s) == if s in statuses then Some(statuses[s]) else None
    }

    ghost predicate WatchersAgree()
      reads this
    {
      forall s, id :: (s in watchers && id in watchers[s]) <==> OpenOn(history, id) == Some(s)
    }

    ghost predicate SentAgrees()
      reads this
    {
      && (forall id :: id in sent <==> Watched(history, id))
      && (forall id | id in sent :: sent[id] == Sent(known, history, id))
    }

    ghost predicate Valid()
      reads this
    {
      StatusesAgree() && WatchersAgree() && SentAgrees() && WellFormed(history)
    }

    constructor (services: seq<string>)
      ensures Valid() && history == [] && known == (set s | s in services) + {""}
      ensures forall s :: StatusOf(known, history, s) == if s == "" || s in services then Some(NOT_SERVING) else None
    {
      var all := (set s | s in services) + {""};
      statuses := map s | s in all :: NOT_SERVING;
      watchers, sent, history := map[], map[], [];
      known := all;
    }

    method GetStatus(service: string) returns (status: Option<ServingStatus>)
      requires Valid()
      ensures status == StatusOf(known, history, service)
    {
      status := if service in statuses then Some(statuses[service]) else None;
    }

    method SetStatus(service: string, status: ServingStatus)
      requires Valid()
      modifies this
      ensures Valid() && history == old(history) + [Event.SetStatus(service, status)]
      ensures statuses == old(statuses)[service := status] && watchers == old(watchers)
      ensures forall id :: OpenOn(history, id) == OpenOn(old(history), id)
      ensures sent.Keys == old(sent.Keys)
      ensures forall id | id in sent :: sent[id] == old(sent)[id]
                + (if OpenOn(old(history), id) == Some(service) then [Known(status)] else [])
    {
      hide StatusOf, OpenOn, Sent, Watched, WellFormed;
      statuses := statuses[service := status];
      history := history + [Event.SetStatus(service, status)];
      Append(known, old(history), Event.SetStatus(service, status));
      OpenAreWatched(old(history));
      var pending := if service in watchers then watchers[service] else {};
      while pending != {}
        modifies `sent
        invariant pending <= (if service in watchers then watchers[service] else {})
        invariant sent.Keys == old(sent.Keys)
        invariant forall id | id in sent ::
                    sent[id] == old(sent)[id] + (
                      if OpenOn(old(history), id) == Some(service) && id !in pending then [Known(status)] else [])
        decreases pending
      {
        var id :| id in pending;
        sent := sent[id := sent[id] + [Known(status)]];
        pending := pending - {id};
      }
    }

    lemma {:induction false} OpenAreWatched(h: seq<Event>)
      ensures forall id :: OpenOn(h, id).Some? ==> Watched(h, id)
    {
      forall id | OpenOn(h, id).Some? ensures Watched(h, id) {
        if !Watched(h, id) {
          UnwatchedSendsNothing(known, h, id);
        }
      }
    }

    // for (const service of statuses.keys()) setStatus(service, status)
    method SetAll(status: ServingStatus)
      requires Valid()
      modifies this
      ensures Valid() && watchers == old(watchers)
      ensures statuses.Keys == old(statuses.Keys) && forall s | s in statuses :: statuses[s] == status
      ensures forall id :: OpenOn(history, id) == OpenOn(old(history), id)
      ensures sent.Keys == old(sent.Keys)
      ensures forall id | id in sent ::
                var on := OpenOn(history, id);
                sent[id] == old(sent)[id] + (if on.Some? && on.value in statuses then [Known(status)] else [])
    {
      hide StatusOf, OpenOn, Sent, Watched, WellFormed, StatusesAgree, WatchersAgree, SentAgrees;
      var pending := statuses.Keys;
      while pending != {}
        invariant Valid() && watchers == old(watchers)
        invariant pending <= statuses.Keys == old(statuses.Keys)
        invariant forall s | s in statuses && s !in pending :: statuses[s] == status
        invariant forall id :: OpenOn(history, id) == OpenOn(old(history), id)
        invariant sent.Keys == old(sent.Keys)
        invariant forall id | id in sent ::
                    var on := OpenOn(old(history), id);
                    sent[id] == old(sent)[id] + (
                      if on.Some? && on.value in statuses && on.value !in pending then [Known(status)] else [])
        decreases pending
      {
        var service :| service in pending;
        SetStatus(service, status);
        pending := pending - {service};
      }
    }

    method Serve()
      requires Valid()
      modifies this
      ensures Valid() && statuses.Keys == old(statuses.Keys) && forall s | s in statuses :: statuses[s] == SERVING
    {
      SetAll(SERVING);
    }

    // Every registered service reads NOT_SERVING, and that is the last thing each open watch of one was sent.
    method Drain()
      requires Valid()
      modifies this
      ensures Valid() && statuses.Keys == old(statuses.Keys) && forall s | s in statuses :: statuses[s] == NOT_SERVING
      ensures watchers == old(watchers) && sent.Keys == old(sent.Keys)
      ensures forall s, id | s in watchers && id in watchers[s] && id in sent ::
                sent[id] == old(sent)[id] + (if s in statuses then [Known(NOT_SERVING)] else [])
    {
      hide StatusOf, OpenOn, Sent, Watched, WellFormed;
      SetAll(NOT_SERVING);
    }

    // The stream `id` is new. An unregistered service still gets a subscription.
    method Watch(id: WatchId, service: string)
      requires Valid() && id !in sent
      modifies this
      ensures Valid() && history == old(history) + [Event.Watch(id, service)]
      ensures sent == old(sent)[id := [ToWire(if service in statuses then Some(statuses[service]) else None)]]
      ensures statuses == old(statuses)
    {
      hide StatusOf, OpenOn, Sent, Watched, WellFormed;
      var first := if service in statuses then Known(statuses[service]) else Unknown;
      sent := sent[id := [first]];
      var subscribers := if service in watchers then watchers[service] else {};
      watchers := watchers[service := subscribers + {id}];
      history := history + [Event.Watch(id, service)];
      Append(known, old(history), Event.Watch(id, service));
      UnwatchedSendsNothing(known, old(history), id);
    }

    // "cancelled", "close" or "error" on the stream; any of them may come again.
    method Unsubscribe(id: WatchId, service: string)
      requires Valid() && (OpenOn(history, id).Some? ==> OpenOn(history, id) == Some(service))
      modifies this
      ensures Valid() && history == old(history) + [Event.Close(id)]
      ensures sent == old(sent) && statuses == old(statuses)
    {
      hide StatusOf, OpenOn, Sent, Watched, WellFormed;
      Append(known, history, Event.Close(id));
      if service in watchers {
        watchers := watchers[service := watchers[service] - {id}];
      }
      history := history + [Event.Close(id)];
    }
  }
}
