# VidForge: a verified model

A Dafny model of the parts of VidForge whose behaviour is a protocol or an encoding, with the properties those
parts are meant to have. `dafny verify dfyconfig.toml` checks the whole project.

## What is modelled

**Transcode jobs** (`TranscodeJob`, `TranscodeSafety`, `TranscodeTheorems`, `TranscodeProgress`, `TranscodeOutput`,
`TranscodeSystem`). `TranscodeJob.Next` is one atomic step on one job: a database statement, a queue operation, or the
delivery or loss of a cancel message. The reads and writes of `cancelJob` and `deleteJob` are separate steps, and
several such calls may be in flight. `TranscodeSafety` holds the invariant, `TranscodeTheorems` the theorems over every
sequence of steps; `TranscodeProgress` is about the percent of the row, and `TranscodeOutput` adds the job's files in
the object store. `TranscodeSystem.System` is the imperative form: the job table, the queue, the worker's token map,
the pending `failed` handlers and the cancel channel as fields, each handler cut at its `await`s into methods, each
method proved to be the matching step on its own job and to leave all other jobs alone.

**Progress** (`Progress`): the rendition loop with its scaling, the 5 percent throttle, and `CancelToken`.

**Webhooks** (`Webhooks`, `EventDelivery`, `Delivery`, `WebhookSignature`): event and dedupe ids, the deduplicating
queue, the eight-attempt processor, and the signature header through its real text steps. `EventDelivery` joins the
two protocols: what the worker publishes in any valid state of the transcode system is queued in full.

**Identity** (`Identity` and the `Identity...` modules, `AuthService`, `Slug`, `SignedContext`). `Identity` gives each
RPC's checks in the source's order and its writes as functions of the tables; `AuthService` gives the handlers as
methods with early returns, proved against them. `IdentitySteps` says what one request can do to a user, key or
viewer row. `IdentityOwners`, `IdentityRank`, `IdentityFraming`, `IdentityTables`, `IdentityIndexes`,
`IdentityViewers` and `IdentityTokens` hold the theorems about runs of requests, and `IdentityChecks` says on the rows
alone when each request is refused. A run is any sequence of requests, each with the secrets of the instance that
handles it. A request is verified against the tables as they are, or comes under a context signed earlier, of any age;
one that is refused leaves the tables unchanged.

**Listings, playback, storage, forms, health** (`Pagination`, `Hls`, `ObjectStore`, `ParseInvites`, `HealthRegistry`).
A page walk is a client following page tokens over a table that may change between fetches. The health registry is
a class with a ghost history; what each watch was sent is a function of that history.

`Text`, `Decimal`, `Hex`, `Ordering` and `Wrappers` are shared: JavaScript's `split`, `join`, `trim`, `indexOf`,
number printing, hex, string order, and sorting. Every lemma with a proof of its own carries `{:induction false}`, so
no proof leans on automatic induction.

## Assumptions

- Each database statement is atomic and succeeds; a request of the identity service is atomic as a whole.
- `runTranscode` may throw at any time; BullMQ does not redeliver stalled jobs, and the `failed` handler of attempt k
  has finished its database write before attempt k + 1 is picked up.
- Row ids, key ids, user ids and viewer ids are never reused and never coincide; a request whose generated id is
  already in use is taken as not made.
- The keys an object store refuses to delete are the same during one `deletePrefix`, and in `ObjectStore` nobody else
  writes meanwhile.
- Generated webhook ids have no hyphen (they are cuids); what happens to ids that have one is `HooksCollideIff`.
- HMAC, scrypt, JOSE signatures and `JSON.stringify` are functions without further meaning; where a theorem needs
  an ideal MAC it says so. A password hash verifies exactly the password it was made from, and a token carries the
  secret it was signed with.
- `toLowerCase`, `toUpperCase`, the URL signer, clocks, generated ids and passwords, and whether an email went out are
  parameters. Strings are sequences of Unicode scalar values, compared code by code.
- Percents are real numbers; floating-point rounding is not modelled.

## Where the code does less than it seems to

Each of these is proved, with its exact condition and a witness.

- COMPLETED is terminal but absorbing only while no `cancelJob` call is between its read and its write
  (`CompletedOverwrittenIff`, `CompletedIsNotAbsorbing`), and a CANCELLED row can still turn FAILED
  (`CancelledTurnsFailedIff`, `CancelledEndsFailed`).
- A COMPLETED row need not show 100 percent: a progress write still in flight lands after the completing one
  (`CompletedShowsLessIff`, `CompletedShowingHalf`).
- An org can lose its last active owner: to an OWNER API key made by a since-demoted user, or to a context signed
  before its user was demoted, as when two owners demote each other at once (`OwnerLostUnderContextIff`,
  `OwnerLostIff`, `OldKeyOrphansOrg`, `EarlierContextsOrphanOrg`).
- `ListJobs` has no lower bound on the page size; a negative size serves only the end of the listing
  (`JobsWalkIsListingIff`, `NegativeSizeLosesARow`).
- The comments above the listing queries call the cursor stable; deleting the row a token stands for ends the walk
  early, and that is the one way to miss a row that was there throughout (`MissedIff`, `DeletionLosesARow`).
- Rendition names that are empty, a single dot, or contain two adjacent dots cannot be played back
  (`PlayableIffSafeName`, `UnplayableNames`).
- `deletePrefix` does not read the per-key errors of a delete that succeeds as a request: it counts those keys as
  removed, and `deleteJob` then drops the row while they remain (`DeletePrefix`, `DeleteJob`,
  `LockedOutputOutlivesItsRow`). And a cancelled job can be deleted while its attempt still runs, whose upload then
  outlives the row (`OrphanedIff`, `UploadOutlivesItsRow`); jobs that ended by themselves cannot
  (`EndedOutputNeverGrows`).

## Model

| member | source | states |
|---|---|---|
| `TranscodeTheorems.TerminalIsForever` | apps/video-svc/src/worker.ts:38-44 | Whatever interleaving follows, a row that has left QUEUED and PROCESSING never returns to them; it stays terminal or is deleted. |
| `TranscodeTheorems.CompletedByItsAttempt` | apps/video-svc/src/worker.ts:83-91 | A COMPLETED row of any run was completed by a complete guard, from PROCESSING, and still holds the manifest that the attempt past that guard returned; and COMPLETED of that attempt is the last event published or the next step of its queue entry. |
| `TranscodeTheorems.CompletedAtMostOnce` | apps/video-svc/src/worker.ts:83-92 | No run turns a row COMPLETED twice. |
| `TranscodeTheorems.CompletedHasManifest` | apps/video-svc/src/service.ts:331-337 | In every reachable state a COMPLETED row holds a manifest. |
| `TranscodeTheorems.DeleteFindsTerminalRow` | apps/video-svc/src/service.ts:284-290 | From the read of deleteJob to its delete the row is terminal or already gone, whatever else ran in between. |
| `TranscodeTheorems.DeleteIsForGood` | apps/video-svc/src/service.ts:290 | The delete of a deleteJob call leaves no row, whatever it finds, and no late write of an attempt, a handler or a cancelJob call brings it back. |
| `TranscodeTheorems.CompletedOverwrittenIff` | apps/video-svc/src/service.ts:252-269 | A COMPLETED row can take another state in some continuation if and only if a cancelJob call is between its read and its write; so without one COMPLETED is absorbing up to deletion. |
| `TranscodeTheorems.CompletedIsNotAbsorbing` | apps/video-svc/src/service.ts:266-269 | A run in which that happens. |
| `TranscodeTheorems.CancelledForGood` | apps/video-svc/src/worker.ts:36-92 | After a CANCELLED write the row is never PROCESSING or COMPLETED again, turns FAILED only for a final attempt already past its start guard, and no attempt that was before its start guard is started. |
| `TranscodeTheorems.CancelledTurnsFailedIff` | apps/video-svc/src/worker.ts:120-128 | A cancelled row can still turn FAILED if and only if the final attempt was past its start guard with no cancelled token, or had already thrown. |
| `TranscodeTheorems.CancelledEndsFailed` | apps/video-svc/src/worker.ts:120-128 | A run in which that happens. |
| `TranscodeTheorems.TokenCancelledOnlyWithRow` | apps/video-svc/src/worker.ts:20-29 | In every reachable state the token of a running attempt is cancelled only if the row is CANCELLED or deleted. |
| `TranscodeTheorems.CancelNeedsPermission` | apps/video-svc/src/service.ts:249-269 | Behind every cancelled row of a run is a cancelJob call that read it while live, by its creator or an admin of its own org. |
| `TranscodeTheorems.DeleteNeedsPermission` | apps/video-svc/src/service.ts:274-290 | Behind every deleted row is a deleteJob call that read it as terminal, by one of the same. |
| `TranscodeTheorems.EventsFollowScript` | apps/video-svc/src/worker.ts:111-131 | The worker's events of a job are always a prefix of (STARTED k, RETRYING k) for k < n, then STARTED n, then COMPLETED n or FAILED n, with n in 1..3 and FAILED only at 3. |
| `TranscodeTheorems.EventsNeverRepeat` | packages/queue/src/index.ts:53-62 | No (type, attempt) pair is published twice for a job. |
| `TranscodeTheorems.FailedIsAnnounced` | apps/video-svc/src/worker.ts:120-128 | Once the row of any run is FAILED, the FAILED event of the third attempt has been published as the last one, or the handler that wrote the row has only that publish left. |
| `TranscodeTheorems.KillEndsTheJob` | apps/video-svc/src/worker.ts:22-79 | From a kill message delivered to a running attempt on, whatever follows, the job publishes no further event and is never queued again, and its entry is gone once the attempt has thrown or has returned and met the complete guard. |
| `TranscodeTheorems.CancelKills` | apps/video-svc/src/service.ts:249-271 | With nothing in between, a cancelJob call let through on a running job ends with the row CANCELLED and the token of its attempt cancelled. |
| `TranscodeTheorems.RemovedWhileWaiting` | apps/video-svc/src/service.ts:265 | A job taken from the queue while it waits is never picked up again. |
| `TranscodeTheorems.OwnedByItsSubmitter` | apps/video-svc/src/service.ts:136-145 | The row of any run belongs to the org and user of the submission that created it, for good. |
| `TranscodeSafety.RunKeepsInv` | apps/video-svc/src/worker.ts:31-132 | The invariant that ties row, queue entry, token, handler, calls in flight and published events together holds after any sequence of atomic steps. |
| `TranscodeSystem.System.constructor` | apps/video-svc/src/worker.ts:14-20 | Every job starts fresh. |
| `TranscodeSystem.System.CreateRow` | apps/video-svc/src/service.ts:136-145 | Exactly the Create step of this job and no change to any other job; the invariant of all jobs is kept. |
| `TranscodeSystem.System.AddToQueue` | apps/video-svc/src/service.ts:148-158 | Exactly the Enqueue step: one entry under the row id. |
| `TranscodeSystem.System.TakeJob` | packages/queue/src/index.ts:53-74 | Exactly the Pickup step: attempts are numbered by finished attempts plus one. |
| `TranscodeSystem.System.GuardStart` | apps/video-svc/src/worker.ts:38-44 | Exactly the start guard: it matches if and only if the row is there and live, and only then goes on. |
| `TranscodeSystem.System.RegisterToken` | apps/video-svc/src/worker.ts:45-48 | Exactly the step that publishes STARTED and registers the token. |
| `TranscodeSystem.System.OnProgress` | apps/video-svc/src/worker.ts:52-67 | Exactly the throttled start of a progress write. |
| `TranscodeSystem.System.LandProgress` | apps/video-svc/src/worker.ts:62-65 | A progress write landing late changes the percent of a row that is still there and nothing else. |
| `TranscodeSystem.System.TranscodeReturns` | apps/video-svc/src/worker.ts:53-79 | Exactly the step in which runTranscode resolves and the token goes. |
| `TranscodeSystem.System.TranscodeThrows` | apps/video-svc/src/worker.ts:70-79 | Exactly the failure step: no retry with a cancelled token, else a retry below the attempt limit. |
| `TranscodeSystem.System.GuardComplete` | apps/video-svc/src/worker.ts:83-92 | Exactly the complete guard: it matches if and only if the row is there and PROCESSING. |
| `TranscodeSystem.System.PublishCompleted` | apps/video-svc/src/worker.ts:93 | Exactly the step that publishes COMPLETED. |
| `TranscodeSystem.System.OnFailed` | apps/video-svc/src/worker.ts:111-131 | Exactly the failed handler up to its database write, for stopped, retried and exhausted attempts. |
| `TranscodeSystem.System.PublishFailed` | apps/video-svc/src/worker.ts:128 | Exactly the step that publishes FAILED. |
| `TranscodeSystem.System.BeginCancel` | apps/video-svc/src/service.ts:252-261 | Exactly the read of cancelJob, refused in the order of its checks. |
| `TranscodeSystem.System.RemoveFromQueue` | apps/video-svc/src/service.ts:265 | A waiting entry goes, an active one stays. |
| `TranscodeSystem.System.WriteCancelled` | apps/video-svc/src/service.ts:266-269 | Exactly the unguarded CANCELLED write; it fails on a row that is gone. |
| `TranscodeSystem.System.PublishCancel` | apps/video-svc/src/service.ts:270 | Exactly the publish of the kill message. |
| `TranscodeSystem.System.OnCancelMessage` | apps/video-svc/src/worker.ts:22-29 | A delivered message cancels the token of a running attempt and does nothing otherwise. |
| `TranscodeSystem.System.LoseCancelMessage` | apps/video-svc/src/worker.ts:20-23 | A lost message changes nothing but the channel. |
| `TranscodeSystem.System.BeginDelete` | apps/video-svc/src/service.ts:277-286 | Exactly the read of deleteJob, refused in the order of its checks. |
| `TranscodeSystem.System.OutputDeleted` | apps/video-svc/src/service.ts:289 | Exactly the step at which deletePrefix has returned. |
| `TranscodeSystem.System.RemoveRow` | apps/video-svc/src/service.ts:290 | Exactly the delete; the row it finds is not live. |
| `Progress.RunRenditions` | apps/video-svc/src/transcode.ts:185-202 | Renditions run in order until one fails, or the token is found cancelled before the next; the overall percents reported are exactly the scaled ones of those started. |
| `Progress.OverallNeverDrops` | apps/video-svc/src/transcode.ts:197-199 | If each rendition's percents are non-decreasing in [0, 100], so is the overall percent across all renditions. |
| `Progress.Throttle.OnProgress` | apps/video-svc/src/worker.ts:60-66 | The throttle's state is the last persisted percent and the list of writes of all reports so far. |
| `Progress.WritesAreFew` | apps/video-svc/src/worker.ts:52-67 | The writes of one attempt rise by at least 5 and number at most 20 for percents up to 100. |
| `Progress.PersistedKeepsUp` | apps/video-svc/src/worker.ts:60-66 | After each callback the last persisted percent is less than 5 behind the reported one. |
| `TranscodeProgress.ReportsWriteThrottled` | apps/video-svc/src/worker.ts:52-67 | An attempt's reports put in flight exactly the writes the throttle lets through and change neither row nor events. |
| `TranscodeProgress.ProgressWasReported` | apps/video-svc/src/worker.ts:60-66 | In every reachable state the percent of the row, and of every write still in flight, is 0, 100 or one that some attempt reported. |
| `TranscodeProgress.CompletedShowsLessIff` | apps/video-svc/src/worker.ts:62-91 | A COMPLETED row shows or comes to show a percent other than 100 if and only if it does already or a progress write of another percent is still in flight. |
| `TranscodeProgress.CompletedShowingHalf` | apps/video-svc/src/worker.ts:62-91 | A run that ends so, COMPLETED at 50 percent. |
| `Progress.CancelToken.Cancel` | apps/video-svc/src/transcode.ts:49-52 | Marks the token and kills exactly the process registered last. |
| `Progress.CancelToken.Register` | apps/video-svc/src/transcode.ts:54-57 | A process that registers after the cancel is killed at once. |
| `Webhooks.EventIdInjective` | packages/webhooks/src/publish.ts:30 | Event ids determine job, type and attempt, for any job id. |
| `Webhooks.DedupeIdInjective` | packages/webhooks/src/publish.ts:47 | Custom queue ids determine webhook and event for hyphen-free webhook ids. |
| `Webhooks.HooksCollideIff` | packages/webhooks/src/publish.ts:30-47 | Deliveries to two different webhooks can share a queue id if and only if one webhook id extends the other by "-evt_"; ids without a hyphen, as generated, never do. |
| `Webhooks.ExtensionCollides` | packages/webhooks/src/publish.ts:47 | And then every transition of the longer one shares its id with one of the shorter. |
| `Webhooks.WebhookQueue.AddBulk` | packages/webhooks/src/publish.ts:43-49 | Adds in order, ignoring every entry whose id is already held. |
| `Webhooks.WebhookQueue.PublishEvent` | packages/webhooks/src/publish.ts:23-53 | Queues one delivery per subscribed hook; a failed lookup changes nothing. |
| `Webhooks.ExactlyOneDelivery` | packages/webhooks/src/publish.ts:39-49 | However often transitions are published, the queue holds one delivery of a transition for a hook if some publish of it found the hook subscribed, and otherwise none. |
| `Webhooks.EntriesCarryPublishes` | packages/webhooks/src/publish.ts:27-49 | Every queued delivery is for a hook that one publish found subscribed, with the very input and time of that publish. |
| `EventDelivery.NothingIsSwallowed` | packages/webhooks/src/publish.ts:39-49 | Publishes of pairwise different transitions are queued in full and in order: deduplication drops nothing. |
| `EventDelivery.EveryEventReachesItsHooks` | apps/video-svc/src/worker.ts:45-131 | In every valid state of the transcode system, in whatever order the un-awaited publishes of the worker and of submissions come, each event reaches each hook subscribed at its publish. |
| `EventDelivery.DeliveredNamesItsEvent` | packages/webhooks/src/publish.ts:27-49 | Behind each queued delivery is one of those publishes, and the payload built from it names the job, type and attempt of the log entry it came from. |
| `Delivery.Process` | packages/webhooks/src/deliver.ts:86-124 | One attempt of the processor is exactly the outcome and the request that the delivery theorems below are about, over every combination of hook row, URL validity and response. |
| `Delivery.DeliveryIsBounded` | packages/webhooks/src/deliver.ts:86-124 | At most 8 requests per delivery, all with the same body and event id, each in an attempt that finds the hook active, none after a success or a non-retryable status. |
| `Delivery.FailuresThenSuccess` | packages/webhooks/src/deliver.ts:40-124 | After n < 8 attempts that end in a network error, 408, 429 or a code from 500 on, a 2xx answer completes the delivery with request n + 1. |
| `Delivery.FailuresThenRefusal` | packages/webhooks/src/deliver.ts:40-124 | After such attempts any other answer ends it with request n + 1, as unrecoverable. |
| `Delivery.FailuresThenNothing` | packages/webhooks/src/deliver.ts:86-119 | After such attempts a hook that is gone or inactive ends it quietly, one with a refused URL or host as unrecoverable, both without another request. |
| `Delivery.EightFailures` | packages/queue/src/index.ts:76-89 | Eight such attempts are eight requests and no ninth. |
| `Delivery.PayloadRoundTrip` | packages/webhooks/src/deliver.ts:10-34 | The whole event can be read back out of the payload sent, its type from the public name. |
| `Delivery.DeliveryEnds` | packages/queue/src/index.ts:76-89 | Every delivery ends at its first verdict or the eighth attempt, having made one request in each attempt before and in that one unless its hook was gone, inactive or unreachable. |
| `Delivery.EveryPostVerifies` | packages/webhooks/src/deliver.ts:98-112 | The signature each request carries passes the receiver's check, for the common body under the secret the hook then had, exactly while the attempt's time is within tolerance. |
| `WebhookSignature.SignedVerifies` | packages/webhooks/src/signature.ts:16-42 | The sender's header passes the receiver's check exactly while its timestamp is within tolerance, through the real split, trim, decimal and hex steps. |
| `WebhookSignature.AcceptedIsAuthentic` | packages/webhooks/src/signature.ts:28-41 | Any accepted header carries a timestamp within tolerance and, as v1, the MAC of that timestamp and this body. |
| `WebhookSignature.SignedTextInjective` | packages/webhooks/src/signature.ts:9-11 | The signed text determines timestamp and body. |
| `WebhookSignature.SignatureBindsBody` | packages/webhooks/src/signature.ts:22-42 | Under an ideal MAC a sent header is accepted for exactly its own secret and body, within tolerance. |
| `SignedContext.VerifyContext` | packages/svc-auth/src/index.ts:57-91 | Accepts if and only if the fields are present, the age is within five minutes either side, and a secret in use reproduces the signature; each refusal has its own condition. |
| `SignedContext.PayloadIsCanonical` | packages/svc-auth/src/index.ts:30-41 | For newline-free fields and non-empty comma-free roles, two payloads are equal if and only if user, org, trace id, issue time and the multiset of roles are. |
| `SignedContext.SignedVerifies` | packages/svc-auth/src/index.ts:47-91 | A signed context verifies in any role order, at any age within the window, after any rotation that leaves the signing secret current or previous. |
| `SignedContext.SignatureBindsIdentity` | packages/svc-auth/src/index.ts:57-91 | Under an ideal MAC a signature is accepted on exactly the same identity and issue time, fresh, under a secret still in use. |
| `Ordering.SortIsCanonical` | packages/svc-auth/src/index.ts:37 | Two role lists sort alike if and only if they are the same multiset. |
| `Hex.RoundTrip` | packages/svc-auth/src/index.ts:49 | Decoding the hex of any bytes gives the bytes back. |
| `IdentityOwners.EveryOrgKeepsAnOwner` | apps/auth-svc/src/service.ts:418-444 | Over every run in which roles are assigned only on a role read from the caller's row as the request is handled, each org keeps an OWNER who is not on a temporary password. |
| `IdentityOwners.ReachableOrgsAreOwned` | apps/auth-svc/src/service.ts:207-210 | From the empty tables, every org of every such reachable state has one. |
| `IdentityOwners.OwnerLostUnderContextIff` | apps/auth-svc/src/service.ts:421-444 | Under any context at all, verified however long ago, a request that passes its checks takes an org's last active owner away if and only if it is one of an OWNER of that org lowering that owner, other than themselves. |
| `IdentityOwners.OwnerLostIff` | apps/auth-svc/src/service.ts:101-164 | So one request of a run does so if and only if it is a valid OWNER key of that org, made by someone else, lowering that owner, or comes so under a context signed earlier. |
| `IdentityOwners.MutualDemotion` | packages/svc-auth/src/index.ts:57-66 | Two owners, the only ones, both verified before either request is handled, can demote each other. |
| `IdentityOwners.OldKeyOrphansOrg` | apps/auth-svc/src/service.ts:116-128 | A run from the empty tables that ends with an org without an owner: the first owner, since demoted, left an OWNER key that demotes the second. |
| `IdentityOwners.EarlierContextsOrphanOrg` | packages/svc-auth/src/index.ts:57-66 | A run from the empty tables that ends with an org without an owner that way, no key involved. |
| `IdentityRank.RankNeverEscalates` | apps/auth-svc/src/service.ts:280-296 | While an org's requests come from users and keys of rank at most r, the users and the keys above r in it never grow. |
| `IdentityRank.ActiveAboveAreOutOfReach` | apps/auth-svc/src/service.ts:433-441 | And every active user above r keeps their role. |
| `IdentityFraming.OtherOrgsUntouched` | apps/auth-svc/src/service.ts:418-455 | A run none of whose requests acts in an org leaves that org's slug, users, keys, viewers and audit events exactly as they were. |
| `IdentityTables.RunKeepsDbOk` | apps/auth-svc/src/service.ts:471-480 | The (org, email) index leads to the viewer of that org and email and back, and no id is both a user and a viewer, after every run. |
| `IdentityIndexes.NoDoubles` | apps/auth-svc/src/service.ts:197-212 | In no reachable state do two users share an email or two orgs a slug. |
| `IdentityIndexes.AuditIsTheTrail` | apps/auth-svc/src/service.ts:328-445 | After any run the audit log is the log before it followed by the events of the requests carried out, in order, with actor, org, action and target of each. |
| `IdentityViewers.ReachableViewersOk` | apps/auth-svc/src/service.ts:478-595 | In every reachable state a viewer has a password if and only if they are activated. |
| `IdentityViewers.ActivatedAtMostOnce` | apps/auth-svc/src/service.ts:588-595 | Activation succeeds at most once per viewer, exactly when they go from not activated to activated, and time and password then never change. |
| `IdentityViewers.ViewerLoginVerifies` | apps/auth-svc/src/service.ts:606-618 | A viewer login succeeds for exactly the unrevoked viewer of that org and email with that password, and its token verifies as that viewer of that org for exactly thirty days. |
| `IdentityViewers.RevokedIsLockedOut` | apps/auth-svc/src/service.ts:541-553 | After a revoke, over every run without a re-invite of that viewer, all their sessions, logins and activations fail. |
| `IdentityViewers.ReinviteReinstates` | apps/auth-svc/src/service.ts:472-479 | A re-invite makes the sessions and the password from before the revocation work again. |
| `IdentityTokens.HandedOutIsIssued` | apps/auth-svc/src/service.ts:237 | Every token handed out, by login, signup, password change, invite, activation, viewer login or the developer login, has its subject in the table of its kind. |
| `IdentityTokens.IssuedStays` | apps/auth-svc/src/jwt.ts:27-36 | And it stays there over every run. |
| `IdentityTokens.TokenKindsStayApart` | apps/auth-svc/src/service.ts:137-172 | A token handed out in any reachable state is, in every later one and under any secrets, good for its own user only or its own viewer only by its kind; an activation token opens no session and no session token activates. |
| `IdentityTokens.SessionFollowsItsUser` | apps/auth-svc/src/service.ts:151-172 | A login's session verifies, after any requests and one secret rotation, for eight hours with whatever org and role its user's row then has, unless they are put on a temporary password; a second rotation ends it. |
| `IdentityTokens.KeyIdRoundTrip` | apps/auth-svc/src/service.ts:31-39 | The key id is read back out of a generated key if and only if it is non-empty and underscore-free. |
| `IdentityTokens.CreatedKeyVerifies` | apps/auth-svc/src/service.ts:690-716 | The key handed out acts as its creator, in their org, with the role asked for, until it expires. |
| `IdentityTokens.KeyWasHandedOut` | apps/auth-svc/src/service.ts:104-128 | From the empty tables: a key text that verifies is, letter for letter, the one some CreateApiKey of the run handed out, and acts as the creator of that key with the role asked for. |
| `IdentityTokens.RevokedKeyStaysDead` | apps/auth-svc/src/service.ts:108-114 | A revoked key verifies in no later state. |
| `IdentityTokens.RevokedKeyIsLockedOut` | apps/auth-svc/src/service.ts:722-734 | After a RevokeApiKey that is carried out, over every run and under any secrets, no text with the id of that key verifies. |
| `IdentityTokens.InviteeGetsIn` | apps/auth-svc/src/service.ts:296-380 | An invited member gets a session exactly by changing the temporary password within 24 hours to one of eight or more characters, with the invited role in the inviter's org. |
| `IdentityTokens.InvitedViewerGetsIn` | apps/auth-svc/src/service.ts:478-618 | An invited viewer activates exactly within the week, under the org's slug, if not activated before, and can then log in. |
| `AuthService.AuthService.InviteUser` | apps/auth-svc/src/service.ts:277-345 | Refused with the first failing check and nothing written, or the member is invited or re-invited; when the email fails the row stays and no audit event follows. |
| `AuthService.AuthService.AssignRole` | apps/auth-svc/src/service.ts:418-456 | Refused with the first failing check and nothing written, or the role and one audit event are written. |
| `AuthService.AuthService.InviteViewer` | apps/auth-svc/src/service.ts:458-512 | As for members, with the activation token of the invited viewer emailed; a re-invite clears a revocation and keeps the password. |
| `AuthService.AuthService.RevokeViewer` | apps/auth-svc/src/service.ts:541-564 | Refused, or exactly the revocation time and one audit event are written. |
| `AuthService.AuthService.CreateApiKey` | apps/auth-svc/src/service.ts:674-720 | Refused, or the key is stored under the hash of the secret handed out. |
| `AuthService.AuthService.RevokeApiKey` | apps/auth-svc/src/service.ts:722-746 | Refused, or revoked; an already revoked key is left alone without an event. |
| `AuthService.AuthService.SignUp` | apps/auth-svc/src/service.ts:178-245 | Refused, or a new org under the first free slug of its name with its owner, and a session token for them; after a lost race once more with a suffixed slug, and after a second one nothing is written. |
| `AuthService.AuthService.ChangePassword` | apps/auth-svc/src/service.ts:347-380 | Refused, or the password is replaced, the temporary one ended, and a session token returned. |
| `AuthService.AuthService.ActivateViewer` | apps/auth-svc/src/service.ts:566-604 | Refused with the first failing check, or password and activation time are set and a viewer session returned. |
| `AuthService.HighestRank` | apps/auth-svc/src/service.ts:280 | 0 without roles, else a bound on every rank among the roles that one of them attains. |
| `AuthService.SlugIsTheOrgName` | apps/auth-svc/src/service.ts:45-225 | The slug of a signup is made of the words of the trimmed org name or, without one, of the default name, and after a lost race carries the random suffix. |
| `IdentityChecks.InviteUserChecks` | apps/auth-svc/src/service.ts:277-306 | Over any tables with sound indexes, each refusal of InviteUser has its exact condition on roles, input and existing rows, ranks read as the order VIEWER, EDITOR, ADMIN, OWNER. |
| `IdentityChecks.AssignRoleChecks` | apps/auth-svc/src/service.ts:418-443 | The same for AssignRole: no granting above and no touching of roles above the own, no lowering of oneself. |
| `IdentityChecks.InviteViewerChecks` | apps/auth-svc/src/service.ts:458-471 | The same for InviteViewer: refused as existing exactly for an activated, unrevoked viewer of that org and email. |
| `IdentityChecks.OtherMemberChecks` | apps/auth-svc/src/service.ts:541-740 | The same for RevokeViewer, CreateApiKey and RevokeApiKey. |
| `IdentityChecks.SignUpChecks` | apps/auth-svc/src/service.ts:178-190 | The same for SignUp: refused as existing exactly when some user has the email. |
| `IdentityChecks.ChangePasswordChecks` | apps/auth-svc/src/service.ts:347-366 | The same for ChangePassword: some user has that email and password, and no expired temporary one. |
| `IdentityChecks.ActivateViewerChecks` | apps/auth-svc/src/service.ts:566-587 | The same for ActivateViewer, with the token's secret, kind, expiry and the org's slug written out. |
| `IdentityChecks.LoginAnswers` | apps/auth-svc/src/service.ts:247-271 | A login is refused, or told to change the password, under exact conditions on the rows; its token lasts eight hours. |
| `IdentityChecks.SignedUpGetsIn` | apps/auth-svc/src/service.ts:178-236 | A signup founds an org with the first free slug, and its user can log in at once, as OWNER of that org. |
| `Slug.SlugifyJoinsWords` | apps/auth-svc/src/service.ts:45-47 | slugify is the maximal letter and digit runs of the lower-cased name joined by hyphens, or org when there are none. |
| `Slug.SlugifyShape` | apps/auth-svc/src/service.ts:45-47 | Never empty, only [a-z0-9-], no leading, trailing or doubled hyphen. |
| `Slug.SlugifyIdempotent` | apps/auth-svc/src/service.ts:45-47 | A slug is its own slug. |
| `Slug.FindFreeSlug` | apps/auth-svc/src/service.ts:197-206 | The loop ends after at most as many collisions as there are orgs with the first free one of base, base-1, base-2, ... |
| `Slug.CollisionsBounded` | apps/auth-svc/src/service.ts:203-206 | n taken candidates need n orgs, by injectivity of the decimal suffixes. |
| `Pagination.WalkIsListing` | apps/video-svc/src/service.ts:301-320 | Following tokens from the empty one until an empty one returns exactly the ordered listing, within PageCount pages. |
| `Pagination.PageCountIsFloorPlusOne` | apps/video-svc/src/service.ts:318 | PageCount is floor(rows / size) + 1. |
| `Pagination.ListingIsOrdered` | apps/video-svc/src/service.ts:306-312 | The listing is exactly the selected rows in strictly descending (time, id) order. |
| `Pagination.JobsWalkIsListingIff` | apps/video-svc/src/service.ts:301 | A ListJobs walk is the listing if and only if the requested size is not negative or the listing fits the one page it then serves. |
| `Pagination.NegativeSizeLosesARow` | apps/video-svc/src/service.ts:301 | Two jobs of which a walk with size -1 returns one. |
| `Pagination.ClampedWalkIsListing` | apps/api-gateway/src/routes/assets.ts:12-49 | Every asset walk is the listing, whatever size is requested. |
| `Pagination.InsertsKeepWalkExact` | apps/api-gateway/src/routes/assets.ts:14-24 | With rows inserted between fetches, a walk repeats nothing and returns every row that was there from the start. |
| `Pagination.WalkCovers` | apps/video-svc/src/service.ts:303-312 | With rows inserted and deleted between fetches, a finished walk whose cursor rows survive returns every row that was there throughout. |
| `Pagination.WalkDescends` | apps/video-svc/src/service.ts:303-312 | What a walk returns is in strictly descending order, so without duplicates, whatever is inserted or deleted between fetches. |
| `Pagination.MissedIff` | apps/video-svc/src/service.ts:303-312 | A finished walk misses a row that was there throughout if and only if it used the token of a row deleted since, before it came to that row. |
| `Pagination.DeletionLosesARow` | apps/video-svc/src/service.ts:311 | A walk from the start that loses a row this way. |
| `Pagination.ClampedPageSize` | apps/auth-svc/src/service.ts:518 | The clamped size is the one asked for, brought into 1..100, or 50 for none. |
| `Hls.MasterPlaylist` | apps/video-svc/src/transcode.ts:156-166 | The loop builds exactly the master playlist text of the renditions. |
| `Hls.MasterIsFixed` | apps/api-gateway/src/playlist.ts:5-18 | Rewriting the generated master playlist is the identity for line-break-free names. |
| `Hls.MasterLeadsToVariants` | apps/video-svc/src/transcode.ts:156-166 | Split at line breaks, the master playlist has for each rendition a stream tag from which its width, height and total bandwidth are read back, and then a request under which playback reads the very object the transcoder stored as that variant. |
| `Hls.RewriteByLine` | apps/api-gateway/src/playlist.ts:10-17 | Read back line by line a rewritten playlist has as many lines, every tag, blank and .m3u8 line itself, every other line the signed URL of its key. |
| `Hls.UploadDir` | apps/video-svc/src/storage.ts:74-87 | Returns one key per file, in the order listed, from which the path of that very file can be read back. |
| `Hls.UploadedIff` | apps/video-svc/src/storage.ts:77-84 | A key is returned if and only if some listed file has the path it names. |
| `Hls.PlayableIffSafeName` | apps/api-gateway/src/routes/playback.ts:47-63 | For a slash-free name, the variant request reads the stored playlist and signs every segment under its stored key if and only if the name is not empty, not a single dot, and without two adjacent dots. |
| `Hls.UnplayableNames` | apps/api-gateway/src/routes/playback.ts:50-52 | Three names that fail it. |
| `Hls.StoredKeyIsUploaded` | apps/video-svc/src/transcode.ts:189-232 | Each file the transcoder wrote for a rendition is uploaded under the key the playback theorems call its stored key. |
| `Hls.SegmentSignedUnderStoredKey` | apps/api-gateway/src/routes/playback.ts:61-67 | A media line of a playable rendition becomes the signed URL of a key uploadDir returned, that of the segment the line names, under the job's own prefix. |
| `Hls.ServedVariantIsUploaded` | apps/api-gateway/src/routes/playback.ts:41-77 | A whole variant playlist as served: the object read is an uploaded one, and each line is itself or the signed URL of the uploaded key of its segment. |
| `ObjectStore.Store.ListObjects` | apps/video-svc/src/storage.ts:53-55 | Keys under the prefix past the token, in order; a continuation token whenever any are left over, and then all of those come later. |
| `ObjectStore.Store.DeleteObjects` | apps/video-svc/src/storage.ts:58 | Removes exactly the given keys that do not answer with an error of their own, or nothing in an outage. |
| `ObjectStore.Store.DeletePrefix` | apps/video-svc/src/storage.ts:49-64 | Ends and, without an outage, leaves under the prefix only keys that answered with an error, every other key untouched; the result is the number removed if and only if there are no such keys. |
| `ObjectStore.OutputPrefixesDisjoint` | apps/video-svc/src/service.ts:289 | No key lies under the output prefixes of two jobs. |
| `ObjectStore.UploadsAreCleared` | apps/video-svc/src/storage.ts:74-87 | Every key uploadDir returns for a job lies under the prefix deleteJob clears for it. |
| `ObjectStore.Jobs.DeleteJob` | apps/video-svc/src/service.ts:274-292 | Refusals and outages leave the row; when it goes and nobody else writes, its listed output is gone if and only if no key of it answered with an error. |
| `ObjectStore.LockedOutputOutlivesItsRow` | apps/video-svc/src/service.ts:289-290 | A job whose output file outlives its row this way. |
| `TranscodeOutput.OrphanedIff` | apps/video-svc/src/transcode.ts:186-232 | With a running attempt uploading meanwhile: once the row is deleted, output of the job is or comes to be in the store if and only if some is there already or an attempt past its start guard has not returned. |
| `TranscodeOutput.UploadOutlivesItsRow` | apps/video-svc/src/service.ts:284-290 | A run in which a cancelled job's attempt uploads after its row is deleted. |
| `TranscodeOutput.EndedOutputNeverGrows` | apps/video-svc/src/worker.ts:83-127 | Once a row is COMPLETED or FAILED the output only shrinks, so deleting such a job orphans nothing. |
| `ParseInvites.Parse` | apps/web/lib/parseInvites.ts:10-29 | The loop returns exactly the invites and the messages of the lines, in order. |
| `ParseInvites.LineYieldsOne` | apps/web/lib/parseInvites.ts:13-27 | Line by line: a blank line yields nothing, any other the invite after those of the good lines before it, or the error, with its line number, after those of the bad lines before it. |
| `ParseInvites.LinesAccountedFor` | apps/web/lib/parseInvites.ts:13-27 | And there are no others: invites and errors together number the non-blank lines. |
| `ParseInvites.ErrorsNameTheirLines` | apps/web/lib/parseInvites.ts:18-25 | Every error names the 1-based number of its own line, with as many bad lines before it as errors. |
| `ParseInvites.InvitesKeepLineOrder` | apps/web/lib/parseInvites.ts:26 | Every invite is what its own line reads as, with as many good lines before it as invites. |
| `ParseInvites.LabelInjective` | apps/web/lib/parseInvites.ts:19 | A line label determines its number. |
| `ParseInvites.LineMeans` | apps/web/lib/parseInvites.ts:13-27 | A line invites somebody, or gets either of the two messages, under exact conditions on its trimmed comma-separated fields, with VIEWER for a missing role. |
| `ParseInvites.NoRoleIsViewer` | apps/web/lib/parseInvites.ts:17 | A printable invite printed without its role reads as the same name and email with role VIEWER. |
| `ParseInvites.PrintThenParse` | apps/web/lib/parseInvites.ts:9-29 | Printing trimmed, comma-free, newline-free invites one per line and parsing the text gives the same invites and no errors. |
| `HealthRegistry.LastSentIsCurrent` | packages/grpc-health/src/index.ts:81-92 | The last thing sent to an open watch is the current status of its service. |
| `HealthRegistry.SentSinceSubscription` | packages/grpc-health/src/index.ts:62-97 | An open watch was sent the status at its subscription, then one entry per later setStatus of its service, in order. |
| `HealthRegistry.ClosedReceivesNothing` | packages/grpc-health/src/index.ts:98-101 | A closed watch is sent nothing more. |
| `HealthRegistry.Registry.constructor` | packages/grpc-health/src/index.ts:57-60 | The overall service and the given ones start NOT_SERVING, with nobody watching. |
| `HealthRegistry.Registry.SetStatus` | packages/grpc-health/src/index.ts:62-65 | Sets one status and sends it to exactly the open watches of that service. |
| `HealthRegistry.Registry.SetAll` | packages/grpc-health/src/index.ts:67-69 | Sets every known service, sending each open watch of a known one exactly one entry. |
| `HealthRegistry.Registry.Serve` | packages/grpc-health/src/index.ts:107 | Every known service reads SERVING. |
| `HealthRegistry.Registry.Drain` | packages/grpc-health/src/index.ts:108 | Every known service reads NOT_SERVING and so does the last entry of each of its open watches. |
| `HealthRegistry.Registry.Watch` | packages/grpc-health/src/index.ts:81-97 | Sends the current status, SERVICE_UNKNOWN for an unregistered service, and subscribes. |
| `HealthRegistry.Registry.Unsubscribe` | packages/grpc-health/src/index.ts:98-101 | Closes the stream, however often it is called. |
| `HealthRegistry.Registry.GetStatus` | packages/grpc-health/src/index.ts:72-79 | The last status set, or none for an unknown service. |

## Left out

- Stalled-job redelivery, database outages inside a handler, and clock drift between services: outside the failure
  model above; an update of the asset row that fails after COMPLETED belongs here too.
- Asset status and playback URL: written outside the job protocol, with no tie to the job state.
- The idempotency key of `submitTranscodeJob`, `generateThumbnails` and thumbnail upload: lookups and a second entry
  into the same queue.
- `streamProgress`, `getJob`, queue statistics, usage sums, rate limits, configuration, telemetry: no hard property.
- Retention of finished queue entries: deduplication is stated for entries the queue still holds.
- What the other signup in a lost slug race writes: that a race was lost, and how often, is an input of `SignUp`.
- The environment check of `issueDevToken`: its tokens are counted among those handed out.
- `recordAuditEvent`, `getUser` and the list RPCs without a cursor: easy members. `IdentityFraming`
  therefore speaks of the audit events the modelled requests write.
- Concurrent requests inside the identity service: each request is one step.
- `target.ts` and the DNS lookup guard: whether a URL is valid and a host is blocked are inputs of `Delivery.Process`.
- The text of delivered payloads, JWTs and hashes: see the assumptions.
- Numeric literals other than decimal integers in a signature header: read by a parameter, so the theorems hold for
  any reading of them.
- Numbers printed in exponent form (from 1e21 on) and UTF-16 surrogates.
- Renditions that share a name, or are named after the thumbnail directory: they overwrite each other's files.
- Non-integer page sizes in a query string: the database rejects them.
- React and Fastify plumbing, schemas, and gRPC status mapping.
- HealthRegistry.Registry.Unsubscribe: takes the stream's own service from the caller, which in the code is the
  closure's.
