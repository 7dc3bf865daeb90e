/** The webhook delivery processor, and the attempts BullMQ makes with it. */
module Delivery {
  import opened Wrappers
  import Webhooks
  import WebhookSignature

  const MAX_ATTEMPTS: nat := 8

  datatype Hook = Hook(id: string, url: string, signingSecret: string, active: bool)

  // What one POST came to: an HTTP status, a host that resolves to a blocked address (refused before
  // anything is sent), or a network error or timeout.
  datatype Response = Status(code: nat) | Blocked | NetworkError

  // What one attempt finds: the webhook row, whether its URL passes validation, the time in seconds, and the
  // response.
  datatype World = World(hook: Option<Hook>, urlValid: bool, clock: int, response: Response)

  datatype Outcome = Skipped | Delivered(status: nat) | Retry | Unrecoverable

  predicate IsSuccess(status: nat) { 200 <= status < 300 }

  predicate IsRetryableStatus(status: nat) { status == 408 || status == 429 || status >= 500 }

  // The delivered payload; the public event name replaces the stored one.
  datatype Data = Data(orgId: string, jobId: string, assetId: string, attempt: nat, detail: string)
  datatype Payload = Payload(id: string, name: string, createdAt: string, data: Data)

  function PublicName(kind: Webhooks.EventType): string {
    match kind
    case ENQUEUED => "job.enqueued"
    case STARTED => "job.started"
    case COMPLETED => "job.completed"
    case FAILED => "job.failed"
    case RETRYING => "job.retrying"
  }

  function PayloadOf(event: Webhooks.WebhookEvent): Payload {
    var e := event.event;
    Payload(event.id, PublicName(e.kind), event.occurredAt, Data(e.orgId, e.jobId, e.assetId, e.attempt, e.detail))
  }

  // What a receiver reads in a payload.
  function KindNamed(name: string): Option<Webhooks.EventType> {
    if name == "job.enqueued" then Some(Webhooks.ENQUEUED)
    else if name == "job.started" then Some(Webhooks.STARTED)
    else if name == "job.completed" then Some(Webhooks.COMPLETED)
    else if name == "job.failed" then Some(Webhooks.FAILED)
    else if name == "job.retrying" then Some(Webhooks.RETRYING)
    else None
  }

  function Received(p: Payload): Option<Webhooks.WebhookEvent> {
    match KindNamed(p.name)
    case None => None
    case Some(kind) =>
      var e := Webhooks.JobEvent(kind, p.data.orgId, p.data.jobId, p.data.assetId, p.data.attempt, p.data.detail);
      Some(Webhooks.WebhookEvent(p.id, e, p.createdAt))
  }

  // The payload tells the whole event.
  lemma {:induction false} PayloadRoundTrip(event: Webhooks.WebhookEvent)
    ensures Received(PayloadOf(event)) == Some(event)
  {
    assert KindNamed(PublicName(event.event.kind)) == Some(event.event.kind);
  }

  // A request that reached the network, in the attempt that made it, with its event id and signature headers.
  datatype Post = Post(attempt: nat, url: string, body: string, eventId: string, signature: string, response: Response)

  // JSON.stringify and HMAC-SHA256, as uninterpreted functions.
  datatype Sender = Sender(stringify: Payload -> string, mac: WebhookSignature.Mac)

  // One attempt of the processor.
  method Process(sender: Sender, event: Webhooks.WebhookEvent, attempt: nat, w: World)
    returns (outcome: Outcome, post: Option<Post>)
    ensures outcome == OutcomeOf(w)
    ensures post == PostOf(sender, event, attempt, w)
  {
    post := None;
    if w.hook.None? {
      return Skipped, None;
    }
    var hook := w.hook.value;
    if !hook.active {
      return Skipped, None;
    }
    if !w.urlValid {
      return Unrecoverable, None;
    }
    var url := hook.url;
    var body := sender.stringify(PayloadOf(event));
    var signature := WebhookSignature.Sign(sender.mac, hook.signingSecret, body, w.clock);
    match w.response {
      case Blocked =>
        return Unrecoverable, None;
      case NetworkError =>
        return Retry, Some(Post(attempt, url, body, event.id, signature, NetworkError));
      case Status(code) =>
        post := Some(Post(attempt, url, body, event.id, signature, Status(code)));
        if code >= 200 && code < 300 {
          return Delivered(code), post;
        }
        outcome := if IsRetryableStatus(code) then Retry else Unrecoverable;
    }
  }

  // Whether this attempt gets a request out at all.
  predicate Sends(w: World) {
    w.hook.Some? && w.hook.value.active && w.urlValid && !w.response.Blocked?
  }

  function OutcomeOf(w: World): Outcome {
    if w.hook.None? || !w.hook.value.active then Skipped
    else if !Sends(w) then Unrecoverable
    else
      match w.response
      case Status(code) =>
        if IsSuccess(code) then Delivered(code) else if IsRetryableStatus(code) then Retry else Unrecoverable
      case _ => Retry
  }

  function PostOf(sender: Sender, event: Webhooks.WebhookEvent, attempt: nat, w: World): Option<Post> {
    if !Sends(w) then None
    else
      var body := sender.stringify(PayloadOf(event));
      var signature := WebhookSignature.Sign(sender.mac, w.hook.value.signingSecret, body, w.clock);
      Some(Post(attempt, w.hook.value.url, body, event.id, signature, w.response))
  }

  // The attempts `attempt`, `attempt` + 1, ... until one does not ask for a retry or the limit is reached.
  function Posts(sender: Sender, event: Webhooks.WebhookEvent, world: nat -> World, attempt: nat): seq<Post>
    decreases MAX_ATTEMPTS - attempt
  {
    if attempt > MAX_ATTEMPTS then []
    else
      var w := world(attempt);
      var post := PostOf(sender, event, attempt, w);
      (if post.Some? then [post.value] else [])
      + (if OutcomeOf(w).Retry? then Posts(sender, event, world, attempt + 1) else [])
  }

  // BullMQ's first attempt is number 1.
  function DeliveryPosts(sender: Sender, event: Webhooks.WebhookEvent, world: nat -> World): seq<Post> {
    Posts(sender, event, world, 1)
  }

  // A request of a delivery: the common body, under the hook its attempt found, with that hook's signature of then.
  predicate MadeIn(sender: Sender, event: Webhooks.WebhookEvent, w: World, post: Post) {
    && post.body == sender.stringify(PayloadOf(event)) && post.eventId == event.id
    && Sends(w) && post.response == w.response && post.url == w.hook.value.url
    && post.signature == WebhookSignature.Sign(sender.mac, w.hook.value.signingSecret, post.body, w.clock)
  }

  // The requests of consecutive attempts, each but the last with an answer that asks for another try.
  predicate WellMade(sender: Sender, event: Webhooks.WebhookEvent, world: nat -> World, attempt: nat,
                     posts: seq<Post>)
  {
    && |posts| + attempt <= MAX_ATTEMPTS + 1
    && (forall i | 0 <= i < |posts| ::
          posts[i].attempt == attempt + i && MadeIn(sender, event, world(posts[i].attempt), posts[i]))
    && (forall i | 0 <= i < |posts| - 1 :: OutcomeOf(world(posts[i].attempt)).Retry?)
  }

  lemma {:induction false} OnePost(sender: Sender, event: Webhooks.WebhookEvent, world: nat -> World, attempt: nat)
    ensures var post := PostOf(sender, event, attempt, world(attempt));
            && (post.Some? <==> Sends(world(attempt)))
            && (post.Some? ==> post.value.attempt == attempt && MadeIn(sender, event, world(attempt), post.value))
    ensures OutcomeOf(world(attempt)).Retry? ==> Sends(world(attempt))
  {
    hide WebhookSignature.Sign, PayloadOf;
  }

  lemma {:induction false} FirstPost(sender: Sender, event: Webhooks.WebhookEvent, world: nat -> World, attempt: nat,
                                     post: Post, rest: seq<Post>)
    requires attempt <= MAX_ATTEMPTS && post.attempt == attempt && MadeIn(sender, event, world(attempt), post)
    requires WellMade(sender, event, world, attempt + 1, rest)
    requires rest != [] ==> OutcomeOf(world(attempt)).Retry?
    ensures WellMade(sender, event, world, attempt, [post] + rest)
  {
    hide MadeIn, OutcomeOf;
  }

  lemma {:induction false} PostsWellMade(sender: Sender, event: Webhooks.WebhookEvent, world: nat -> World,
                                         attempt: nat)
    requires attempt <= MAX_ATTEMPTS + 1
    ensures WellMade(sender, event, world, attempt, Posts(sender, event, world, attempt))
    decreases MAX_ATTEMPTS - attempt
  {
    NoPosts(sender, event, world, attempt);
    if attempt <= MAX_ATTEMPTS {
      OnePost(sender, event, world, attempt);
      var post := PostOf(sender, event, attempt, world(attempt));
      if OutcomeOf(world(attempt)).Retry? {
        PostsWellMade(sender, event, world, attempt + 1);
        FirstPost(sender, event, world, attempt, post.value, Posts(sender, event, world, attempt + 1));
      } else if post.Some? {
        NoPosts(sender, event, world, attempt + 1);
        FirstPost(sender, event, world, attempt, post.value, []);
      }
      hide PostOf, MadeIn, OutcomeOf, Sends, WellMade;
    }
  }

  lemma NoPosts(sender: Sender, event: Webhooks.WebhookEvent, world: nat -> World, attempt: nat)
    requires attempt <= MAX_ATTEMPTS + 1
    ensures WellMade(sender, event, world, attempt, [])
  {
  }

  // At most eight requests, all with the same body and event id, each in an attempt that found the hook active, and
  // none after a success or an answer that is not retryable.
  lemma {:induction false} DeliveryIsBounded(sender: Sender, event: Webhooks.WebhookEvent, world: nat -> World)
    ensures var posts := DeliveryPosts(sender, event, world);
            && |posts| <= 8
            && (forall i | 0 <= i < |posts| ::
                  && posts[i].body == sender.stringify(PayloadOf(event)) && posts[i].eventId == event.id
                  && world(posts[i].attempt).hook.Some? && world(posts[i].attempt).hook.value.active)
            && (forall i, j | 0 <= i < j < |posts| ::
                  && posts[i].attempt < posts[j].attempt
                  && (posts[i].response.Status? ==>
                        !IsSuccess(posts[i].response.code) && IsRetryableStatus(posts[i].response.code)))
  {
    PostsWellMade(sender, event, world, 1);
  }

  // The attempts from `from` up to, not including, `end` all ask for a retry.
  predicate AllRetry(world: nat -> World, from: nat, end: nat) {
    forall k | from <= k < end :: OutcomeOf(world(k)).Retry?
  }

  lemma {:induction false} PostsCount(sender: Sender, event: Webhooks.WebhookEvent, world: nat -> World,
                                      attempt: nat, last: nat)
    requires attempt <= last <= MAX_ATTEMPTS
    requires AllRetry(world, attempt, last)
    requires last == MAX_ATTEMPTS || !OutcomeOf(world(last)).Retry?
    ensures |Posts(sender, event, world, attempt)| == last - attempt + (if Sends(world(last)) then 1 else 0)
    decreases MAX_ATTEMPTS - attempt
  {
    if attempt < last {
      PostsCount(sender, event, world, attempt + 1, last);
    }
  }

  // An answer that might be different later: none at all, a timeout, too many requests, or a server error.
  predicate Passing(w: World) {
    w.hook.Some? && w.hook.value.active && w.urlValid &&
    match w.response
    case NetworkError => true
    case Status(code) => code == 408 || code == 429 || code >= 500
    case Blocked => false
  }

  // The hook is there and answers with this code.
  predicate Answers(w: World, code: nat) {
    w.hook.Some? && w.hook.value.active && w.urlValid && w.response == Status(code)
  }

  lemma {:induction false} PassingIsRetried(world: nat -> World, n: nat)
    requires forall k | 1 <= k <= n :: Passing(world(k))
    ensures AllRetry(world, 1, n + 1)
  {
    forall k | 1 <= k <= n ensures OutcomeOf(world(k)).Retry? { assert Passing(world(k)); }
  }

  // After n passing failures, n < 8, a 2xx answer at the next attempt completes the delivery with n + 1 requests, the
  // last of them the accepted one.
  lemma {:induction false} FailuresThenSuccess(sender: Sender, event: Webhooks.WebhookEvent, world: nat -> World,
                                               n: nat, code: nat)
    requires n < 8 && (forall k | 1 <= k <= n :: Passing(world(k)))
    requires 200 <= code < 300 && Answers(world(n + 1), code)
    ensures var posts := DeliveryPosts(sender, event, world);
            && |posts| == n + 1 && posts[n].attempt == n + 1 && posts[n].response == Status(code)
            && OutcomeOf(world(n + 1)) == Delivered(code)
  {
    PassingIsRetried(world, n);
    PostsCount(sender, event, world, 1, n + 1);
    PostsWellMade(sender, event, world, 1);
    hide Posts;
  }

  // And so does any other answer there that is not passing, as the last one.
  lemma {:induction false} FailuresThenRefusal(sender: Sender, event: Webhooks.WebhookEvent, world: nat -> World,
                                               n: nat, code: nat)
    requires n < 8 && (forall k | 1 <= k <= n :: Passing(world(k)))
    requires code < 500 && code != 408 && code != 429 && !(200 <= code < 300) && Answers(world(n + 1), code)
    ensures var posts := DeliveryPosts(sender, event, world);
            && |posts| == n + 1 && posts[n].attempt == n + 1 && posts[n].response == Status(code)
            && OutcomeOf(world(n + 1)) == Unrecoverable
  {
    PassingIsRetried(world, n);
    PostsCount(sender, event, world, 1, n + 1);
    PostsWellMade(sender, event, world, 1);
    hide Posts;
  }

  // A hook that is then gone or inactive, or has no reachable URL, ends it without another request: the first kind
  // quietly, the second as a failure.
  lemma {:induction false} FailuresThenNothing(sender: Sender, event: Webhooks.WebhookEvent, world: nat -> World,
                                               n: nat)
    requires n < 8 && (forall k | 1 <= k <= n :: Passing(world(k)))
    requires var w := world(n + 1);
             w.hook.None? || !w.hook.value.active || !w.urlValid || w.response.Blocked?
    ensures |DeliveryPosts(sender, event, world)| == n
    ensures var w := world(n + 1);
            OutcomeOf(w) == if w.hook.Some? && w.hook.value.active then Unrecoverable else Skipped
  {
    PassingIsRetried(world, n);
    PostsCount(sender, event, world, 1, n + 1);
  }

  // Eight passing failures are eight requests, and no ninth.
  lemma {:induction false} EightFailures(sender: Sender, event: Webhooks.WebhookEvent, world: nat -> World)
    requires forall k | 1 <= k <= 8 :: Passing(world(k))
    ensures |DeliveryPosts(sender, event, world)| == 8
  {
    PassingIsRetried(world, 7);
    assert Passing(world(8));
    PostsCount(sender, event, world, 1, 8);
  }

  // Every delivery ends: at its first verdict or, for want of one, at the eighth attempt; each attempt before that
  // one made its request, and that one made one unless it found the hook gone, inactive or not to be reached.
  lemma {:induction false} DeliveryEnds(sender: Sender, event: Webhooks.WebhookEvent, world: nat -> World)
    returns (last: nat)
    ensures 1 <= last <= MAX_ATTEMPTS && AllRetry(world, 1, last)
    ensures last == MAX_ATTEMPTS || !OutcomeOf(world(last)).Retry?
    ensures |DeliveryPosts(sender, event, world)| == last - 1 + (if Sends(world(last)) then 1 else 0)
  {
    last := 1;
    while last < MAX_ATTEMPTS && OutcomeOf(world(last)).Retry?
      invariant 1 <= last <= MAX_ATTEMPTS && AllRetry(world, 1, last)
    {
      last := last + 1;
    }
    PostsCount(sender, event, world, 1, last);
  }

  // Each request carries a signature of its own attempt's time that the receiver's check accepts, for the body of
  // all of them, under the secret the hook then had, exactly while that time is within the tolerance.
  lemma {:induction false} EveryPostVerifies(sender: Sender, event: Webhooks.WebhookEvent, world: nat -> World, i: nat,
                                             literal: string -> Option<int>, tolerance: int, now: int)
    requires forall secret, data :: sender.mac(secret, data) != []
    requires i < |DeliveryPosts(sender, event, world)|
    ensures var post := DeliveryPosts(sender, event, world)[i];
            var w := world(post.attempt);
            && w.hook.Some?
            && (WebhookSignature.Verify(sender.mac, literal, w.hook.value.signingSecret, post.body, post.signature,
                                        tolerance, now)
                <==> -tolerance <= now - w.clock <= tolerance)
  {
    hide WebhookSignature.Verify, WebhookSignature.Sign, Posts;
    PostsWellMade(sender, event, world, 1);
    var post := DeliveryPosts(sender, event, world)[i];
    var w := world(post.attempt);
    var secret := w.hook.value.signingSecret;
    WebhookSignature.SignedVerifies(sender.mac, literal, secret, post.body, w.clock, tolerance, now);
  }
}
