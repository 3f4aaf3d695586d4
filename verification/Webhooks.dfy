/** WebhookDispatcherService: fan-out, the retry loop and redelivery. */
module Webhooks {
  import opened Wrappers
  import opened Intents
  import opened Signature

  datatype Endpoint = Endpoint(id: string, consumer: string, url: string, secret: string, enabled: bool,
                               eventTypes: seq<EventKind>)

  datatype DeliveryStatus = WAITING | DELIVERED | GAVE_UP

  datatype Delivery = Delivery(
    id: string,
    endpointId: string,
    eventKind: EventKind,
    eventId: string,
    body: string,
    status: DeliveryStatus,
    attempts: nat,
    responseStatus: Option<int>,
    error: Option<string>)

  /** How one POST ends: a response, or an exception (connection, timeout). */
  datatype Reply = Response(status: int) | Exception(message: string)

  predicate Ok(r: Reply) { r.Response? && 200 <= r.status <= 299 }

  /** A POST on the wire, and how long the dispatcher waited before sending it. */
  datatype Post = Post(url: string, deliveryId: string, body: string, header: string, waited: nat)

  datatype Settings = Settings(maxAttempts: nat, backoffMs: nat)

  // ── One run of the retry loop, as a function of the replies ────────────────

  /** How many POSTs a run makes from its i-th on: up to the first 2xx, or all that are left. */
  function TriesFrom(replies: nat -> Reply, i: nat, max: nat): (k: nat)
    requires i <= max
    ensures k <= max - i
    decreases max - i
  {
    if i == max then 0 else if Ok(replies(i)) then 1 else 1 + TriesFrom(replies, i + 1, max)
  }

  function Tries(replies: nat -> Reply, max: nat): nat { TriesFrom(replies, 0, max) }

  /** A run goes on after an exception and after every response but one from 200 to 299, at which it stops; it
      makes `max` POSTs otherwise. */
  lemma {:induction false} TriesStopAtFirstOk(replies: nat -> Reply, i: nat, max: nat)
    requires i <= max
    ensures var k := TriesFrom(replies, i, max);
      && (forall j: nat | i <= j < i + k - 1 ::
            replies(j).Response? ==> replies(j).status < 200 || replies(j).status > 299)
      && (k > 0 && i + k < max ==>
            replies(i + k - 1).Response? && 200 <= replies(i + k - 1).status <= 299)
      && (k == 0 <==> i == max)
    decreases max - i
  {
    if i < max && !Ok(replies(i)) {
      TriesStopAtFirstOk(replies, i + 1, max);
    }
  }

  function StatusText(code: int): string { "Non-2xx response: " + IntText(code) }

  /** The response code and the error that the last reply of a run leaves behind. */
  function CodeOf(last: Option<Reply>): Option<int> {
    if last.Some? && last.value.Response? then Some(last.value.status) else None
  }

  function ErrorOf(last: Option<Reply>): Option<string> {
    if last.None? || Ok(last.value) then None
    else Some(if last.value.Response? then StatusText(last.value.status) else last.value.message)
  }

  /** What the row says after the last reply of a run of `made` POSTs. */
  function Recorded(d: Delivery, last: Option<Reply>, made: nat): Delivery {
    d.(status := if last.Some? && Ok(last.value) then DELIVERED else GAVE_UP,
       attempts := d.attempts + made, responseStatus := CodeOf(last), error := ErrorOf(last))
  }

  /** The last of the first i replies. */
  function Latest(replies: nat -> Reply, i: nat): Option<Reply> { if i == 0 then None else Some(replies(i - 1)) }

  lemma LatestAnswer(replies: nat -> Reply, i: nat)
    ensures var r := replies(i);
      && Latest(replies, i + 1) == Some(r)
      && CodeOf(Latest(replies, i + 1)) == (if r.Response? then Some(r.status) else None)
      && (!Ok(r) ==> ErrorOf(Latest(replies, i + 1)) == Some(if r.Response? then StatusText(r.status) else r.message))
      && (Ok(r) ==> ErrorOf(Latest(replies, i + 1)) == None)
  {
  }

  /** The row after a run that started from the snapshot d. */
  function AfterRun(d: Delivery, replies: nat -> Reply, max: nat): Delivery {
    var k := Tries(replies, max);
    Recorded(d, Latest(replies, k), k)
  }

  /** The replies as the retry loop indexes them. */
  function InOrder(got: seq<Reply>): nat -> Reply { (i: nat) => if i < |got| then got[i] else Exception("") }

  /** A run whose replies all fail but perhaps the last, and which ended for one of the two reasons. */
  lemma {:induction false} TriesOfReplies(got: seq<Reply>, i: nat, max: nat)
    requires i <= |got| <= max
    requires forall j | 0 <= j < |got| - 1 :: !Ok(got[j])
    requires |got| == max || (|got| > i && Ok(got[|got| - 1]))
    ensures TriesFrom(InOrder(got), i, max) == |got| - i
    decreases |got| - i
  {
    if i < |got| && !Ok(got[i]) {
      TriesOfReplies(got, i + 1, max);
    }
  }

  /** The linear backoff after the n-th POST of a run. */
  function Backoff(backoff: nat, n: nat): nat { backoff * n }

  function SignedPost(hmac: Hmac, endpoint: Endpoint, d: Delivery, timestamp: int, waited: nat): Post {
    Post(endpoint.url, d.id, d.body, BuildSignatureHeader(hmac, endpoint.secret, d.body, timestamp), waited)
  }

  /** The k POSTs of a run, each signed at its own time. */
  function SignedPosts(hmac: Hmac, endpoint: Endpoint, d: Delivery, clock: nat -> int, backoff: nat, k: nat)
    : (posts: seq<Post>)
    ensures |posts| == k
    ensures forall i | 0 <= i < k :: posts[i] == SignedPost(hmac, endpoint, d, clock(i), Backoff(backoff, i))
  {
    seq(k, i requires 0 <= i < k => SignedPost(hmac, endpoint, d, clock(i), Backoff(backoff, i)))
  }

  lemma SignedPostsNext(hmac: Hmac, endpoint: Endpoint, d: Delivery, clock: nat -> int, backoff: nat, k: nat)
    ensures SignedPosts(hmac, endpoint, d, clock, backoff, k + 1)
         == SignedPosts(hmac, endpoint, d, clock, backoff, k)
             + [SignedPost(hmac, endpoint, d, clock(k), Backoff(backoff, k))]
  {
  }

  /** Each POST goes to the endpoint's URL with the stored payload, its delivery's id and a header that signs time
      and payload with the endpoint's secret, after a wait that grows linearly. */
  ghost predicate DeliverPayload(hmac: Hmac, endpoint: Endpoint, d: Delivery, clock: nat -> int, backoff: nat,
                                 posts: seq<Post>) {
    forall i | 0 <= i < |posts| ::
      && posts[i].url == endpoint.url && posts[i].body == d.body && posts[i].deliveryId == d.id
      && posts[i].header == "t=" + IntText(clock(i)) + ",v1=" + hmac(endpoint.secret, IntText(clock(i)) + "." + d.body)
      && posts[i].waited == backoff * i
  }

  lemma PostsInFull(hmac: Hmac, endpoint: Endpoint, d: Delivery, clock: nat -> int, backoff: nat, k: nat)
    ensures var posts := SignedPosts(hmac, endpoint, d, clock, backoff, k);
      |posts| == k && DeliverPayload(hmac, endpoint, d, clock, backoff, posts)
  {
  }

  /** Every POST of a run verifies at the receiver: with the endpoint's secret, for the stored payload. */
  lemma RunVerifies(hmac: Hmac, endpoint: Endpoint, d: Delivery, clock: nat -> int, backoff: nat, k: nat)
    requires HexValued(hmac)
    ensures forall p | p in SignedPosts(hmac, endpoint, d, clock, backoff, k) ::
        p.body == d.body && Verify(hmac, d.body, p.header, endpoint.secret)
  {
    forall i | 0 <= i < k
      ensures var p := SignedPosts(hmac, endpoint, d, clock, backoff, k)[i];
        p.body == d.body && Verify(hmac, d.body, p.header, endpoint.secret)
    {
      EveryPostVerifies(hmac, endpoint.secret, d.body, clock(i));
    }
  }

  function PostCount(posts: seq<Post>, id: string): nat {
    if posts == [] then 0
    else PostCount(posts[..|posts| - 1], id) + if posts[|posts| - 1].deliveryId == id then 1 else 0
  }

  lemma {:induction false} PostCountAppend(posts: seq<Post>, more: seq<Post>, id: string, other: string)
    requires forall i | 0 <= i < |more| :: more[i].deliveryId == id
    ensures PostCount(posts + more, other) == PostCount(posts, other) + if other == id then |more| else 0
  {
    if more == [] {
      assert posts + more == posts;
    } else {
      PostCountAppend(posts, more[..|more| - 1], id, other);
      assert (posts + more)[..|posts + more| - 1] == posts + more[..|more| - 1];
    }
  }

  function TotalWait(posts: seq<Post>): nat {
    if posts == [] then 0 else TotalWait(posts[..|posts| - 1]) + posts[|posts| - 1].waited
  }

  /** A run of k POSTs sleeps backoff * k(k-1)/2 in all. */
  lemma {:induction false} RunWaits(hmac: Hmac, endpoint: Endpoint, d: Delivery, clock: nat -> int, backoff: nat,
                                    k: nat)
    ensures 2 * TotalWait(SignedPosts(hmac, endpoint, d, clock, backoff, k))
         == if k == 0 then 0 else backoff * (k * (k - 1))
  {
    if k > 0 {
      RunWaits(hmac, endpoint, d, clock, backoff, k - 1);
      SignedPostsNext(hmac, endpoint, d, clock, backoff, k - 1);
      var posts := SignedPosts(hmac, endpoint, d, clock, backoff, k);
      assert posts[..k - 1] == SignedPosts(hmac, endpoint, d, clock, backoff, k - 1);
      GaussStep(backoff, k);
    }
  }

  lemma GaussStep(b: nat, k: nat)
    requires k >= 1
    ensures (if k == 1 then 0 else b * ((k - 1) * (k - 2))) + 2 * Backoff(b, k - 1) == b * (k * (k - 1))
  {
    assert k * (k - 1) == (k - 1) * (k - 2) + 2 * (k - 1);
    assert b * (k * (k - 1)) == b * ((k - 1) * (k - 2)) + b * (2 * (k - 1));
  }

  /** The books balance: each delivery's stored attempts are the POSTs ever made for it. */
  ghost predicate Books(deliveries: map<string, Delivery>, posts: seq<Post>) {
    && (forall id | id in deliveries :: deliveries[id].id == id && deliveries[id].attempts == PostCount(posts, id))
    && (forall id | id !in deliveries :: PostCount(posts, id) == 0)
  }

  lemma BooksAfterRun(deliveries: map<string, Delivery>, posts: seq<Post>, d: Delivery, updated: Delivery,
                      more: seq<Post>)
    requires Books(deliveries, posts) && d.id in deliveries && deliveries[d.id] == d
    requires updated.id == d.id && updated.attempts == d.attempts + |more|
    requires forall i | 0 <= i < |more| :: more[i].deliveryId == d.id
    ensures Books(deliveries[d.id := updated], posts + more)
  {
    forall id ensures PostCount(posts + more, id) == PostCount(posts, id) + if id == d.id then |more| else 0 {
      PostCountAppend(posts, more, d.id, id);
    }
  }

  lemma BooksWithNew(deliveries: map<string, Delivery>, posts: seq<Post>, d: Delivery)
    requires Books(deliveries, posts) && d.id !in deliveries && d.attempts == 0
    ensures Books(deliveries[d.id := d], posts)
  {
  }

  class Dispatcher {
    const settings: Settings
    const hmac: Hmac
    var endpoints: map<string, Endpoint>
    var deliveries: map<string, Delivery>
    // Every POST ever made.
    ghost var posts: seq<Post>

    ghost predicate Valid()
      reads this
    {
      HexValued(hmac) && Books(deliveries, posts)
    }

    constructor (settings: Settings, hmac: Hmac)
      requires HexValued(hmac)
      ensures Valid() && this.settings == settings && this.hmac == hmac
      ensures deliveries == map[] && endpoints == map[] && posts == []
    {
      this.settings, this.hmac := settings, hmac;
      endpoints, deliveries, posts := map[], map[], [];
    }

    /** The retry loop, on the current row. `replies` answers the i-th POST, `clock` stamps it. */
    method Attempt(endpoint: Endpoint, delivery: Delivery, replies: nat -> Reply, clock: nat -> int)
      returns (updated: Delivery)
      requires Valid() && delivery.id in deliveries && deliveries[delivery.id] == delivery
      modifies `deliveries, `posts
      ensures Valid()
      ensures updated == AfterRun(delivery, replies, settings.maxAttempts)
      ensures deliveries == old(deliveries)[delivery.id := updated]
      ensures posts == old(posts)
          + SignedPosts(hmac, endpoint, delivery, clock, settings.backoffMs, Tries(replies, settings.maxAttempts))
    {
      TriesStopAtFirstOk(replies, 0, settings.maxAttempts);
      var ok, attempts, responseStatus, error := PostUntilOk(endpoint, delivery, replies, clock);
      updated := Finalize(delivery, if ok then DELIVERED else GAVE_UP, attempts, responseStatus, error, old(posts),
                          SignedPosts(hmac, endpoint, delivery, clock, settings.backoffMs,
                                      Tries(replies, settings.maxAttempts)));
    }

    /** The loop itself: POSTs until a 2xx or the attempts run out, waiting longer before each. */
    method PostUntilOk(endpoint: Endpoint, delivery: Delivery, replies: nat -> Reply, clock: nat -> int)
      returns (ok: bool, attempts: nat, responseStatus: Option<int>, lastError: Option<string>)
      modifies `posts
      ensures var k := Tries(replies, settings.maxAttempts);
        && attempts == delivery.attempts + k
        && posts == old(posts) + SignedPosts(hmac, endpoint, delivery, clock, settings.backoffMs, k)
        && responseStatus == CodeOf(Latest(replies, k)) && lastError == ErrorOf(Latest(replies, k))
        && (ok <==> k > 0 && Ok(replies(k - 1)))
      ensures DeliverPayload(hmac, endpoint, delivery, clock, settings.backoffMs, posts[|old(posts)|..])
    {
      hide BuildSignatureHeader, SignedPost, SignedPosts, StatusText, DeliverPayload;
      var max := settings.maxAttempts;
      PostsInFull(hmac, endpoint, delivery, clock, settings.backoffMs, Tries(replies, max));
      ok, attempts, responseStatus, lastError := false, delivery.attempts, None, None;
      var slept: nat := 0;
      assert Backoff(settings.backoffMs, 0) == 0;
      for i := 0 to max
        invariant attempts == delivery.attempts + i && !ok
        invariant posts == old(posts) + SignedPosts(hmac, endpoint, delivery, clock, settings.backoffMs, i)
        invariant i < max ==> slept == Backoff(settings.backoffMs, i)
        invariant Tries(replies, max) == i + TriesFrom(replies, i, max)
        invariant responseStatus == CodeOf(Latest(replies, i)) && lastError == ErrorOf(Latest(replies, i))
        invariant i > 0 ==> !Ok(replies(i - 1))
      {
        attempts := attempts + 1;
        SignedPostsNext(hmac, endpoint, delivery, clock, settings.backoffMs, i);
        posts := posts + [SignedPost(hmac, endpoint, delivery, clock(i), slept)];
        var reply := replies(i);
        LatestAnswer(replies, i);
        if reply.Response? {
          responseStatus := Some(reply.status);
          if Ok(reply) {
            ok, lastError := true, None;
            return;
          }
          lastError := Some(StatusText(reply.status));
        } else {
          lastError := Some(reply.message);
          responseStatus := None;
        }
        if i < max - 1 {
          slept := Backoff(settings.backoffMs, i + 1);
        }
      }
    }

    /** Writes the outcome of a run, which closes the books on the POSTs it made. */
    method Finalize(delivery: Delivery, status: DeliveryStatus, attempts: nat, responseStatus: Option<int>,
                    error: Option<string>,
                    ghost before: seq<Post>, ghost made: seq<Post>)
      returns (updated: Delivery)
      requires HexValued(hmac) && Books(deliveries, before) && posts == before + made
      requires delivery.id in deliveries && deliveries[delivery.id] == delivery
      requires attempts == delivery.attempts + |made| && forall i | 0 <= i < |made| :: made[i].deliveryId == delivery.id
      modifies `deliveries
      ensures Valid()
      ensures updated
          == delivery.(status := status, attempts := attempts, responseStatus := responseStatus, error := error)
      ensures deliveries == old(deliveries)[delivery.id := updated]
    {
      updated := delivery.(status := status, attempts := attempts, responseStatus := responseStatus, error := error);
      BooksAfterRun(deliveries, before, delivery, updated, made);
      deliveries := deliveries[delivery.id := updated];
    }

    /** Re-sends a stored delivery; None when its endpoint is gone. */
    method Redeliver(id: string, replies: nat -> Reply, clock: nat -> int) returns (updated: Option<Delivery>)
      requires Valid() && id in deliveries
      modifies `deliveries, `posts
      ensures Valid()
      ensures updated.None? <==> old(deliveries)[id].endpointId !in endpoints
      ensures updated.None? ==> deliveries == old(deliveries) && posts == old(posts)
      ensures updated.Some? ==>
        && updated.value == AfterRun(old(deliveries)[id], replies, settings.maxAttempts)
        && deliveries == old(deliveries)[id := updated.value]
        && posts == old(posts)
            + SignedPosts(hmac, endpoints[old(deliveries)[id].endpointId], old(deliveries)[id], clock,
                                             settings.backoffMs, Tries(replies, settings.maxAttempts))
    {
      var delivery := deliveries[id];
      if delivery.endpointId !in endpoints {
        return None;
      }
      var d := Attempt(endpoints[delivery.endpointId], delivery, replies, clock);
      return Some(d);
    }

    /** Creates the row of one target and runs the loop on it. */
    method CreateAndDeliver(endpoint: Endpoint, kind: EventKind, eventId: string, body: string, id: string,
                            replies: nat -> Reply, clock: nat -> int)
      requires Valid() && id !in deliveries
      modifies `deliveries, `posts
      ensures Valid()
      ensures deliveries
          == old(deliveries)[id := AfterRun(NewDelivery(endpoint.id, kind, eventId, body, id), replies,
                                            settings.maxAttempts)]
      ensures posts
          == old(posts) + SignedPosts(hmac, endpoint, NewDelivery(endpoint.id, kind, eventId, body, id), clock,
                                                settings.backoffMs, Tries(replies, settings.maxAttempts))
    {
      var delivery := NewDelivery(endpoint.id, kind, eventId, body, id);
      BooksWithNew(deliveries, posts, delivery);
      deliveries := deliveries[id := delivery];
      var _ := Attempt(endpoint, delivery, replies, clock);
    }
  }

  // ── Histories ──────────────────────────────────────────────────────────────

  /** The row after one delivery and any number of redeliveries, one after the other. */
  function AfterRuns(d: Delivery, runs: seq<nat -> Reply>, max: nat): Delivery {
    if runs == [] then d else AfterRun(AfterRuns(d, runs[..|runs| - 1], max), runs[|runs| - 1], max)
  }

  function TotalTries(runs: seq<nat -> Reply>, max: nat): nat {
    if runs == [] then 0 else TotalTries(runs[..|runs| - 1], max) + Tries(runs[|runs| - 1], max)
  }

  /** Over a whole history the stored attempts are all the POSTs made, while status, code and error
      describe the very last one: delivered iff it was answered with 200 to 299. Nothing else is rewritten. */
  lemma {:induction false} RetryAccounting(d: Delivery, runs: seq<nat -> Reply>, max: nat)
    ensures var after := AfterRuns(d, runs, max);
      after == d.(status := after.status, attempts := d.attempts + TotalTries(runs, max),
                  responseStatus := after.responseStatus, error := after.error)
    ensures runs != [] && max >= 1 ==>
      var last, after := runs[|runs| - 1], AfterRuns(d, runs, max);
      var k := Tries(last, max);
      && k >= 1
      && match last(k - 1)
         case Response(code) =>
           && after.responseStatus == Some(code)
           && (if 200 <= code <= 299 then after.status == DELIVERED && after.error == None
               else after.status == GAVE_UP && after.error == Some("Non-2xx response: " + IntText(code)))
         case Exception(message) =>
           after.responseStatus == None && after.status == GAVE_UP && after.error == Some(message)
    ensures runs != [] && max == 0 ==>
      var after := AfterRuns(d, runs, max);
      after.status == GAVE_UP && after.responseStatus == None && after.error == None
  {
    if runs != [] {
      RetryAccounting(d, runs[..|runs| - 1], max);
      TriesStopAtFirstOk(runs[|runs| - 1], 0, max);
    }
  }

  function NewDelivery(endpointId: string, kind: EventKind, eventId: string, body: string, id: string): Delivery {
    Delivery(id, endpointId, kind, eventId, body, WAITING, 0, None, None)
  }
}
