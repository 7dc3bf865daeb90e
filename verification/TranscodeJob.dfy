/** One transcode job as every service sees it: its database row, its queue entry, the worker
    attempt and `failed` handler in flight, and the RPC calls between two of their statements.
    `Next` is one atomic step: a single database statement, queue operation or event delivery.
    An action that is not possible in a state leaves it unchanged, so a run is any sequence
    of actions. */
module TranscodeJob {
  import opened Wrappers

  // ---- Data -------------------------------------------------------------------------

  const MAX_ATTEMPTS: nat := 3

  datatype JobState = Queued | Processing | Completed | Failed | Cancelled

  predicate Live(s: JobState) { s.Queued? || s.Processing? }

  datatype Manifest = Manifest(playlistStorageKey: string, thumbnailStorageKeys: seq<string>)

  datatype Row = Row(
    orgId: string,
    createdBy: Option<string>,
    state: JobState,
    progress: real,
    manifest: Option<Manifest>)

  // Row ids are never reused, so a deleted row stays deleted.
  datatype RowSlot = NeverCreated | Present(row: Row) | Deleted

  // How far the worker callback of one attempt has come; each phase ends at an `await`.
  datatype Phase =
    | Picked                          // handed to the worker, start guard not yet executed
    | Guarded                         // start guard matched the row, token not yet registered
    | Running(lastPersisted: real)    // token registered, runTranscode in progress
    | Returned(manifest: Manifest)    // token removed, complete guard not yet executed
    | Announcing                      // complete guard matched, COMPLETED not yet published

  // The BullMQ entry. `made` counts finished attempts; a delayed retry is Waiting too.
  datatype Entry = NotAdded | Waiting(made: nat) | Active(attempt: nat, phase: Phase) | Gone

  // The asynchronous `failed` handler of the attempt that failed last.
  datatype Handler = Idle | Stopped | Retry(attempt: nat) | Exhausted(attempt: nat) | Recorded(attempt: nat)

  // cancelJob and deleteJob calls that have executed some of their statements.
  datatype Calls = Calls(cancelsRead: nat, cancelsRemoved: nat, cancelsWritten: nat, deletesRead: nat,
                         deletesCleared: nat)

  datatype EventType = STARTED | RETRYING | COMPLETED | FAILED

  datatype Event = Event(kind: EventType, attempt: nat)

  datatype Job = Job(
    row: RowSlot,
    entry: Entry,
    token: Option<bool>,             // CancelToken in activeTokens, and whether it is cancelled
    handler: Handler,
    calls: Calls,
    messages: nat,                   // cancel messages published and not yet delivered or lost
    progressWrites: multiset<real>,  // fire-and-forget progress updates still in flight
    events: seq<Event>)              // events the worker has published

  datatype Caller = Caller(userId: string, orgId: string, roles: seq<string>)

  datatype Refusal = NotFound | PermissionDenied | FailedPrecondition

  const NO_CALLS := Calls(0, 0, 0, 0, 0)
  const FRESH := Job(NeverCreated, NotAdded, None, Idle, NO_CALLS, 0, multiset{}, [])

  // ---- Access checks ----------------------------------------------------------------

  predicate CanModify(caller: Caller, row: Row) {
    || row.createdBy == Some(caller.userId)
    || (exists r | r in caller.roles :: r == "ADMIN" || r == "OWNER")
  }

  function CheckCancel(slot: RowSlot, caller: Caller): Option<Refusal> {
    if !slot.Present? || slot.row.orgId != caller.orgId then Some(NotFound)
    else if !CanModify(caller, slot.row) then Some(PermissionDenied)
    else if !Live(slot.row.state) then Some(FailedPrecondition)
    else None
  }

  function CheckDelete(slot: RowSlot, caller: Caller): Option<Refusal> {
    if !slot.Present? || slot.row.orgId != caller.orgId then Some(NotFound)
    else if !CanModify(caller, slot.row) then Some(PermissionDenied)
    else if Live(slot.row.state) then Some(FailedPrecondition)
    else None
  }

  // ---- Actions ----------------------------------------------------------------------

  datatype Action =
    | Create(caller: Caller) | Enqueue                                           // submitTranscodeJob
    | Pickup | StartGuard | Register                                             // worker callback
    | Progress(percent: real) | ProgressLands(percent: real)
    | Return(manifest: Manifest) | Throw | CompleteGuard | AnnounceCompleted
    | HandleFailure | AnnounceFailed                                             // failed handler
    | CancelRead(caller: Caller) | CancelRemove | CancelWrite | CancelPublish    // cancelJob
    | CancelDeliver | CancelLose
    | DeleteRead(caller: Caller) | DeleteOutput | DeleteRow                      // deleteJob

  function WithState(j: Job, s: JobState): Job
    requires j.row.Present?
  {
    j.(row := Present(j.row.row.(state := s)))
  }

  function Next(j: Job, a: Action): Job {
    match a
    case Create(caller) =>
      if j.row.NeverCreated? then j.(row := Present(Row(caller.orgId, Some(caller.userId), Queued, 0.0, None)))
      else j
    case Enqueue =>
      if !j.row.NeverCreated? && j.entry.NotAdded? then j.(entry := Waiting(0)) else j
    case Pickup =>
      if j.entry.Waiting? && j.handler.Idle? then j.(entry := Active(j.entry.made + 1, Picked)) else j
    case StartGuard =>
      if !(j.entry.Active? && j.entry.phase.Picked?) then j
      else if j.row.Present? && Live(j.row.row.state) then
        WithState(j, Processing).(entry := Active(j.entry.attempt, Guarded))
      else j.(entry := Gone, handler := Stopped)
    case Register =>
      if j.entry.Active? && j.entry.phase.Guarded? then
        j.(entry := Active(j.entry.attempt, Running(0.0)), token := Some(false),
           events := j.events + [Event(STARTED, j.entry.attempt)])
      else j
    case Progress(percent) =>
      if j.entry.Active? && j.entry.phase.Running? && percent - j.entry.phase.lastPersisted >= 5.0 then
        j.(entry := Active(j.entry.attempt, Running(percent)), progressWrites := j.progressWrites + multiset{percent})
      else j
    case ProgressLands(percent) =>
      if percent !in j.progressWrites then j
      else
        var k := j.(progressWrites := j.progressWrites - multiset{percent});
        if k.row.Present? then k.(row := Present(k.row.row.(progress := percent))) else k
    case Return(manifest) =>
      if j.entry.Active? && j.entry.phase.Running? then
        j.(entry := Active(j.entry.attempt, Returned(manifest)), token := None)
      else j
    case Throw =>
      if !(j.entry.Active? && j.entry.phase.Running?) then j
      else if j.token == Some(true) then j.(entry := Gone, token := None, handler := Stopped)
      else if j.entry.attempt >= MAX_ATTEMPTS then
        j.(entry := Gone, token := None, handler := Exhausted(j.entry.attempt))
      else j.(entry := Waiting(j.entry.attempt), token := None, handler := Retry(j.entry.attempt))
    case CompleteGuard =>
      if !(j.entry.Active? && j.entry.phase.Returned?) then j
      else if j.row.Present? && j.row.row.state.Processing? then
        j.(row := Present(j.row.row.(state := Completed, progress := 100.0, manifest := Some(j.entry.phase.manifest))),
           entry := Active(j.entry.attempt, Announcing))
      else j.(entry := Gone)
    case AnnounceCompleted =>
      if j.entry.Active? && j.entry.phase.Announcing? then
        j.(entry := Gone, events := j.events + [Event(COMPLETED, j.entry.attempt)])
      else j
    case HandleFailure =>
      (match j.handler
       case Stopped => j.(handler := Idle)
       case Retry(k) => j.(handler := Idle, events := j.events + [Event(RETRYING, k)])
       case Exhausted(k) =>
         // The update throws on a row that is gone, and the event is then not published.
         if j.row.Present? then WithState(j, Failed).(handler := Recorded(k)) else j.(handler := Idle)
       case _ => j)
    case AnnounceFailed =>
      if j.handler.Recorded? then j.(handler := Idle, events := j.events + [Event(FAILED, j.handler.attempt)]) else j
    case CancelRead(caller) =>
      if CheckCancel(j.row, caller).None? then j.(calls := j.calls.(cancelsRead := j.calls.cancelsRead + 1)) else j
    case CancelRemove =>
      if j.calls.cancelsRead == 0 then j
      else
        // An active entry is locked and stays; the error of remove is swallowed.
        j.(calls := j.calls.(cancelsRead := j.calls.cancelsRead - 1, cancelsRemoved := j.calls.cancelsRemoved + 1),
           entry := if j.entry.Waiting? then Gone else j.entry)
    case CancelWrite =>
      if j.calls.cancelsRemoved == 0 then j
      else
        var k := j.(calls := j.calls.(cancelsRemoved := j.calls.cancelsRemoved - 1));
        if k.row.Present? then
          WithState(k, Cancelled).(calls := k.calls.(cancelsWritten := k.calls.cancelsWritten + 1))
        else k
    case CancelPublish =>
      if j.calls.cancelsWritten == 0 then j
      else j.(calls := j.calls.(cancelsWritten := j.calls.cancelsWritten - 1), messages := j.messages + 1)
    case CancelDeliver =>
      if j.messages == 0 then j
      else j.(messages := j.messages - 1, token := if j.token.Some? then Some(true) else None)
    case CancelLose =>
      if j.messages == 0 then j else j.(messages := j.messages - 1)
    case DeleteRead(caller) =>
      if CheckDelete(j.row, caller).None? then j.(calls := j.calls.(deletesRead := j.calls.deletesRead + 1)) else j
    case DeleteOutput =>
      if j.calls.deletesRead == 0 then j
      else j.(calls := j.calls.(deletesRead := j.calls.deletesRead - 1, deletesCleared := j.calls.deletesCleared + 1))
    case DeleteRow =>
      if j.calls.deletesCleared == 0 then j
      else
        j.(calls := j.calls.(deletesCleared := j.calls.deletesCleared - 1),
           row := if j.row.Present? then Deleted else j.row)
  }

  function Run(j: Job, actions: seq<Action>): Job
    decreases |actions|
  {
    if actions == [] then j else Run(Next(j, actions[0]), actions[1..])
  }
}
