/** What every interleaving of submit, cancel, delete, worker attempts and failed handlers keeps. */
module TranscodeSafety {
  import opened Wrappers
  import opened TranscodeJob

  predicate Terminal(j: Job) { j.row.Present? && !Live(j.row.row.state) }

  // Cancelled for good as far as the worker can tell: no guard matches this row any more.
  predicate Dead(j: Job) { j.row.Deleted? || (j.row.Present? && j.row.row.state in {Cancelled, Failed}) }

  predicate StateIn(j: Job, states: set<JobState>) { j.row.Present? ==> j.row.row.state in states }

  // ---- The script of published events -------------------------------------------------

  // STARTED and RETRYING of attempts 1..n.
  function Rounds(n: nat): (r: seq<Event>)
    ensures |r| == 2 * n
  {
    if n == 0 then [] else Rounds(n - 1) + [Event(STARTED, n), Event(RETRYING, n)]
  }

  // The whole life of a job that ends in its n-th attempt.
  function Script(n: nat, ok: bool): seq<Event>
    requires n >= 1
  {
    Rounds(n - 1) + [Event(STARTED, n), Event(if ok then COMPLETED else FAILED, n)]
  }

  ghost predicate FollowsScript(events: seq<Event>) {
    exists n: nat, ok: bool :: 1 <= n <= MAX_ATTEMPTS && (ok || n == MAX_ATTEMPTS) && events <= Script(n, ok)
  }

  function Opened(n: nat): seq<Event>
    requires n >= 1
  {
    Rounds(n - 1) + [Event(STARTED, n)]
  }

  // ---- The invariant --------------------------------------------------------------------

  predicate EntryAndHandlerAgree(j: Job) {
    && (j.entry.Waiting? ==> j.entry.made < MAX_ATTEMPTS && (j.handler.Idle? || j.handler == Retry(j.entry.made)))
    && (j.entry.Waiting? && j.entry.made == 0 ==> j.handler.Idle?)
    && (j.entry.Active? ==> 1 <= j.entry.attempt <= MAX_ATTEMPTS && j.handler.Idle?)
    && (j.entry.NotAdded? ==> j.handler.Idle? && j.events == [])
    && (j.handler.Retry? ==> 1 <= j.handler.attempt < MAX_ATTEMPTS && !j.entry.Active?)
    && (j.handler.Exhausted? || j.handler.Recorded? ==> j.handler.attempt == MAX_ATTEMPTS)
    && (j.handler.Stopped? || j.handler.Exhausted? || j.handler.Recorded? ==> j.entry.Gone?)
    && (j.token.Some? <==> j.entry.Active? && j.entry.phase.Running?)
  }

  predicate RowAgrees(j: Job) {
    && (j.row.NeverCreated? ==> j.entry.NotAdded? && j.calls == NO_CALLS && j.messages == 0)
    && (j.entry.NotAdded? || j.entry.Waiting? ==> StateIn(j, {Queued, Processing, Cancelled}))
    && (j.entry.Active? ==>
          StateIn(j, match j.entry.phase
                     case Picked => {Queued, Processing, Cancelled}
                     case Announcing => {Completed, Cancelled}
                     case _ => {Processing, Cancelled}))
    && (j.handler.Exhausted? ==> StateIn(j, {Processing, Cancelled}))
    && (j.handler.Recorded? ==> StateIn(j, {Failed, Cancelled}))
    && (j.row.Present? && j.row.row.state.Completed? ==> j.row.row.manifest.Some?)
    && (j.calls.cancelsWritten > 0 || j.messages > 0 || j.token == Some(true) ==> Dead(j))
    && (j.calls.deletesRead > 0 || j.calls.deletesCleared > 0 ==> Terminal(j) || j.row.Deleted?)
  }

  ghost predicate EventsAgree(j: Job)
    requires EntryAndHandlerAgree(j)
  {
    && FollowsScript(j.events)
    && (j.handler.Retry? ==> j.events == Opened(j.handler.attempt))
    && (j.handler.Exhausted? || j.handler.Recorded? ==> j.events == Opened(MAX_ATTEMPTS))
    && (j.entry.Waiting? && j.handler.Idle? ==> j.events == Rounds(j.entry.made))
    && (j.entry.Active? ==>
          j.events == if j.entry.phase.Picked? || j.entry.phase.Guarded? then Rounds(j.entry.attempt - 1)
                      else Opened(j.entry.attempt))
  }

  ghost predicate Inv(j: Job) {
    EntryAndHandlerAgree(j) && RowAgrees(j) && EventsAgree(j)
  }

  lemma {:induction false} FreshInv()
    ensures Inv(FRESH)
  {
    assert [] <= Script(1, true);
  }

  lemma NextKeepsEntry(j: Job, a: Action)
    requires EntryAndHandlerAgree(j) && RowAgrees(j)
    ensures EntryAndHandlerAgree(Next(j, a))
  {
  }

  // The steps of cancelJob and deleteJob.
  predicate IsCall(a: Action) {
    || a.CancelRead? || a.CancelRemove? || a.CancelWrite? || a.CancelPublish?
    || a.DeleteRead? || a.DeleteOutput? || a.DeleteRow?
  }

  lemma CallKeepsRow(j: Job, a: Action)
    requires EntryAndHandlerAgree(j) && RowAgrees(j) && IsCall(a)
    ensures RowAgrees(Next(j, a))
  {
  }

  // Submission, the failed handler, and the cancel messages.
  predicate IsDelivery(a: Action) {
    a.Create? || a.Enqueue? || a.HandleFailure? || a.AnnounceFailed? || a.CancelDeliver? || a.CancelLose?
  }

  lemma DeliveryKeepsRow(j: Job, a: Action)
    requires EntryAndHandlerAgree(j) && RowAgrees(j) && IsDelivery(a)
    ensures RowAgrees(Next(j, a))
  {
  }

  lemma GuardKeepsRow(j: Job, a: Action)
    requires EntryAndHandlerAgree(j) && RowAgrees(j) && (a.Pickup? || a.StartGuard? || a.Register? || a.CompleteGuard?)
    ensures RowAgrees(Next(j, a))
  {
  }

  lemma TranscodeKeepsRow(j: Job, a: Action)
    requires EntryAndHandlerAgree(j) && RowAgrees(j)
    requires a.Progress? || a.ProgressLands? || a.Return? || a.Throw? || a.AnnounceCompleted?
    ensures RowAgrees(Next(j, a))
  {
  }

  lemma {:induction false} NextKeepsRow(j: Job, a: Action)
    requires EntryAndHandlerAgree(j) && RowAgrees(j)
    ensures RowAgrees(Next(j, a))
  {
    hide Next, RowAgrees, EntryAndHandlerAgree;
    if IsCall(a) {
      CallKeepsRow(j, a);
    } else if IsDelivery(a) {
      DeliveryKeepsRow(j, a);
    } else if a.Pickup? || a.StartGuard? || a.Register? || a.CompleteGuard? {
      GuardKeepsRow(j, a);
    } else {
      TranscodeKeepsRow(j, a);
    }
  }

  lemma {:induction false} RoundsFollow(n: nat)
    requires n < MAX_ATTEMPTS
    ensures FollowsScript(Rounds(n))
  {
    assert Rounds(n) <= Script(n + 1, true);
  }

  lemma {:induction false} OpenedFollows(n: nat)
    requires 1 <= n <= MAX_ATTEMPTS
    ensures FollowsScript(Opened(n))
    ensures FollowsScript(Opened(n) + [Event(COMPLETED, n)])
    ensures n == MAX_ATTEMPTS ==> FollowsScript(Opened(n) + [Event(FAILED, n)])
  {
    assert Opened(n) <= Script(n, true);
    assert Opened(n) + [Event(COMPLETED, n)] == Script(n, true);
    assert Opened(n) + [Event(FAILED, n)] == Script(n, false);
  }

  predicate Publishes(a: Action) {
    a.Register? || a.AnnounceCompleted? || a.HandleFailure? || a.AnnounceFailed?
  }

  lemma {:induction false} SilentKeepsEvents(j: Job, a: Action)
    requires Inv(j) && !Publishes(a)
    ensures EntryAndHandlerAgree(Next(j, a)) && EventsAgree(Next(j, a))
  {
    hide FollowsScript, Opened, Rounds;
    NextKeepsEntry(j, a);
    assert Next(j, a).events == j.events;
  }

  lemma {:induction false} StartKeepsEvents(j: Job)
    requires Inv(j)
    ensures EntryAndHandlerAgree(Next(j, Register)) && EventsAgree(Next(j, Register))
  {
    hide FollowsScript;
    NextKeepsEntry(j, Register);
    if Next(j, Register) != j {
      OpenedFollows(j.entry.attempt);
    }
  }

  lemma {:induction false} VerdictKeepsEvents(j: Job, a: Action)
    requires Inv(j) && (a.AnnounceCompleted? || a.AnnounceFailed?)
    ensures EntryAndHandlerAgree(Next(j, a)) && EventsAgree(Next(j, a))
  {
    hide FollowsScript;
    NextKeepsEntry(j, a);
    if Next(j, a) != j {
      OpenedFollows(if a.AnnounceFailed? then j.handler.attempt else j.entry.attempt);
    }
  }

  lemma {:induction false} RetryKeepsEvents(j: Job)
    requires Inv(j)
    ensures EntryAndHandlerAgree(Next(j, HandleFailure)) && EventsAgree(Next(j, HandleFailure))
  {
    hide FollowsScript;
    NextKeepsEntry(j, HandleFailure);
    if j.handler.Retry? {
      var n := j.handler.attempt;
      assert Opened(n) + [Event(RETRYING, n)] == Rounds(n);
      RoundsFollow(n);
    }
  }

  lemma {:induction false} NextKeepsEvents(j: Job, a: Action)
    requires Inv(j)
    ensures EntryAndHandlerAgree(Next(j, a)) && EventsAgree(Next(j, a))
  {
    match a
    case Register => StartKeepsEvents(j);
    case AnnounceCompleted => VerdictKeepsEvents(j, a);
    case AnnounceFailed => VerdictKeepsEvents(j, a);
    case HandleFailure => RetryKeepsEvents(j);
    case _ => SilentKeepsEvents(j, a);
  }

  lemma {:induction false} NextKeepsInv(j: Job, a: Action)
    requires Inv(j)
    ensures Inv(Next(j, a))
  {
    NextKeepsRow(j, a);
    NextKeepsEvents(j, a);
  }

  lemma {:induction false} RunKeepsInv(j: Job, actions: seq<Action>)
    requires Inv(j)
    ensures Inv(Run(j, actions))
    decreases |actions|
  {
    if actions != [] {
      NextKeepsInv(j, actions[0]);
      RunKeepsInv(Next(j, actions[0]), actions[1..]);
    }
  }
}
