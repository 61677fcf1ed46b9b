/**
 * The outbound tables of postgres/migrations and what each transaction of postgres/store.go does to them,
 * as functions of the rows and of the instant the transaction read before it touched them.
 */
module Outbox {
  import opened Common
  import opened GoTime
  import opened Text
  import opened HttpHeaders
  import S = Scheduling

  // ----- rows -----

  datatype DeliveryState = Pending | InFlight | Retrying | Delivered | PermanentlyFailed | Disabled | Exhausted {
    predicate Terminal() { Delivered? || PermanentlyFailed? || Disabled? || Exhausted? }
    predicate Queued() { Pending? || Retrying? }
  }

  datatype Message = Message(eventType: string, body: Bytes, contentType: string, createdAt: Time)

  datatype Delivery = Delivery(
    messageId: string,
    destination: string,
    headers: Headers,
    keyHash: Option<Bytes>,
    state: DeliveryState,
    attemptCount: nat,
    nextAttemptAt: Time,
    leaseExpiresAt: Option<Time>,
    lastStatusCode: int,
    lastErrorCode: Option<Code>,
    createdAt: Time,
    updatedAt: Time,
    completedAt: Option<Time>)

  datatype AttemptKey = Key(delivery: string, number: nat)

  datatype Attempt = Attempt(
    id: string,
    startedAt: Time,
    finishedAt: Option<Time>,
    outcome: Option<S.Outcome>,
    statusCode: int,
    durationNs: Option<Duration>,
    errorCode: Option<Code>,
    nextAttemptAt: Option<Time>)
  {
    /** Only a worker's own completion records a duration. */
    predicate CompletedByWorker() { finishedAt.Some? && durationNs.Some? }
    predicate LeaseLost() { finishedAt.Some? && durationNs.None? }
  }

  datatype Tables = Tables(
    messages: map<string, Message>,
    deliveries: map<string, Delivery>,
    attempts: map<AttemptKey, Attempt>)

  /** ClaimedDelivery: what a worker holds between a claim and its completion. */
  datatype Claim = Claim(
    deliveryId: string,
    attemptId: string,
    attempt: nat,
    startedAt: Time,
    messageId: string,
    destination: string,
    message: Message,
    headers: Headers)

  const LEASE_EXPIRED := CustomCode("lease_expired")

  // ----- claiming -----

  /** The WHERE clause of the claim query; a NULL lease compares as not expired. */
  predicate Due(d: Delivery, now: Time) {
    || (d.state.Queued() && d.nextAttemptAt <= now)
    || (d.state.InFlight? && d.leaseExpiresAt.Some? && d.leaseExpiresAt.value <= now)
  }

  /** The ORDER BY of the claim query; rows equal in both columns tie. */
  predicate NotAfter(d: Delivery, e: Delivery) {
    d.nextAttemptAt < e.nextAttemptAt || (d.nextAttemptAt == e.nextAttemptAt && d.createdAt <= e.createdAt)
  }

  predicate Claimable(t: Tables, id: string, now: Time) {
    id in t.deliveries && t.deliveries[id].messageId in t.messages && Due(t.deliveries[id], now)
  }

  /** `id` may be the one row the claim query returns. */
  predicate FirstDue(t: Tables, id: string, now: Time) {
    && Claimable(t, id, now)
    && forall other | other in t.deliveries && Claimable(t, other, now) ::
      NotAfter(t.deliveries[id], t.deliveries[other])
  }

  function EffectiveLease(lease: Duration): (l: Duration)
    ensures l > 0
  {
    if lease <= 0 then MINUTE else lease
  }

  function StartedAttempt(attemptId: string, now: Time): Attempt {
    Attempt(attemptId, now, None, None, 0, None, None, None)
  }

  function LostAttempt(a: Attempt, now: Time): Attempt {
    a.(finishedAt := Some(now), outcome := Some(S.Retry), errorCode := Some(LEASE_EXPIRED))
  }

  /** The attempt rows once the abandoned attempt of an expired lease has been closed. */
  function CloseAbandoned(t: Tables, id: string, now: Time): map<AttemptKey, Attempt>
    requires id in t.deliveries
  {
    var d := t.deliveries[id];
    var last := Key(id, d.attemptCount);
    if d.state.InFlight? && d.attemptCount > 0 && last in t.attempts && t.attempts[last].finishedAt.None?
    then t.attempts[last := LostAttempt(t.attempts[last], now)]
    else t.attempts
  }

  function Leased(d: Delivery, now: Time, until: Time): Delivery {
    d.(state := InFlight, attemptCount := d.attemptCount + 1, leaseExpiresAt := Some(until), updatedAt := now)
  }

  function AfterClaim(t: Tables, id: string, now: Time, lease: Duration, attemptId: string): Tables
    requires id in t.deliveries
  {
    var d := t.deliveries[id];
    t.(deliveries := t.deliveries[id := Leased(d, now, now + EffectiveLease(lease))],
       attempts := CloseAbandoned(t, id, now)[Key(id, d.attemptCount + 1) := StartedAttempt(attemptId, now)])
  }

  function ClaimFor(t: Tables, id: string, now: Time, attemptId: string): Claim
    requires id in t.deliveries && t.deliveries[id].messageId in t.messages
  {
    var d := t.deliveries[id];
    Claim(id, attemptId, d.attemptCount + 1, now, d.messageId, d.destination, t.messages[d.messageId], d.headers)
  }

  // ----- renewing -----

  /** The WHERE clause of the renewal. */
  predicate MayRenew(t: Tables, c: Claim, now: Time) {
    && c.deliveryId in t.deliveries
    && var d := t.deliveries[c.deliveryId];
       && d.state.InFlight? && d.attemptCount == c.attempt
       && d.leaseExpiresAt.Some? && d.leaseExpiresAt.value > now
       && OwnsAttempt(t, c)
  }

  /** The attempt row of the claim exists, is the claim's own, and is unfinished. */
  predicate OwnsAttempt(t: Tables, c: Claim) {
    var key := Key(c.deliveryId, c.attempt);
    key in t.attempts && t.attempts[key].id == c.attemptId && t.attempts[key].finishedAt.None?
  }

  /** durationMicrosecondsCeil: a duration is rounded up, by less than a microsecond unless it is negative. */
  function MicrosecondsCeil(d: Duration): (n: Duration)
    ensures d <= n * 1000
    ensures d >= 0 ==> n * 1000 < d + 1000
  {
    TruncDiv(d, 1000) + (if TruncMod(d, 1000) != 0 then 1 else 0)
  }

  /** The database clock renews in whole microseconds, an injected clock in nanoseconds: never less than the lease. */
  function RenewedUntil(now: Time, lease: Duration, databaseClock: bool): (until: Time)
    ensures now + lease <= until
    ensures lease > 0 ==> until < now + lease + 1000
  {
    if databaseClock then now + MicrosecondsCeil(lease) * 1000 else now + lease
  }

  function AfterRenew(t: Tables, c: Claim, now: Time, until: Time): Tables {
    if MayRenew(t, c, now) then
      var d := t.deliveries[c.deliveryId];
      t.(deliveries := t.deliveries[c.deliveryId := d.(leaseExpiresAt := Some(until), updatedAt := now)])
    else t
  }

  // ----- completing -----

  /** The sender's report, with the caller's retry policy and what the jitter draws. */
  datatype Report = Report(
    outcome: S.Outcome,
    statusCode: int,
    duration: Duration,
    retryAt: Time,
    errorCode: Option<Code>,
    sendErr: Option<Code>,
    policy: S.RetryPolicy,
    drawn: Duration)

  function NormalizedOutcome(outcome: S.Outcome, sendErr: Option<Code>): (r: S.Outcome)
    ensures r != S.Unset
    ensures outcome != S.Unset ==> r == outcome
    ensures outcome == S.Unset ==> r == S.PermanentFailure || r == S.Retry
    ensures outcome == S.Unset ==> (r == S.PermanentFailure <==>
      sendErr in {Some(InvalidMessage), Some(InvalidURL), Some(UnsafeDestination), Some(InvalidConfiguration)})
  {
    if outcome != S.Unset then outcome
    else
      match sendErr
      case Some(InvalidMessage) => S.PermanentFailure
      case Some(InvalidURL) => S.PermanentFailure
      case Some(UnsafeDestination) => S.PermanentFailure
      case Some(InvalidConfiguration) => S.PermanentFailure
      case _ => S.Retry
  }

  /** The attempt may be repeated, as far as its outcome goes. */
  predicate Repeatable(report: Report) {
    NormalizedOutcome(report.outcome, report.sendErr) in {S.Retry, S.Unrecognised}
  }

  /** deliveryTransition: the next state and, for a retry, when the row becomes due again. */
  function Transition(now: Time, attempt: int, report: Report): (r: (DeliveryState, Option<Time>))
    ensures r.0.Delivered? <==> NormalizedOutcome(report.outcome, report.sendErr) == S.Delivered
    ensures r.0.Disabled? <==> NormalizedOutcome(report.outcome, report.sendErr) == S.DisableDestination
    ensures r.0.PermanentlyFailed? <==> NormalizedOutcome(report.outcome, report.sendErr) == S.PermanentFailure
    ensures r.0.Retrying? <==> Repeatable(report) && report.policy.Retries(attempt)
    ensures r.0.Exhausted? <==> Repeatable(report) && !report.policy.Retries(attempt)
    ensures r.1.Some? <==> r.0.Retrying?
    ensures r.0.Retrying? ==> now + report.policy.Delay(attempt) <= r.1.value
    ensures r.0.Retrying? && report.retryAt != S.NO_TIME ==> report.retryAt <= r.1.value
    ensures r.0.Retrying? ==>
      r.1.value <= now + report.policy.Delay(attempt) + report.policy.Delay(attempt) / 5
      || (r.1.value == report.retryAt && report.retryAt != S.NO_TIME)
  {
    match NormalizedOutcome(report.outcome, report.sendErr)
    case Delivered => (Delivered, None)
    case DisableDestination => (Disabled, None)
    case PermanentFailure => (PermanentlyFailed, None)
    case _ =>
      match report.policy.Next(now, attempt, report.drawn)
      case None => (Exhausted, None)
      case Some(policyNext) =>
        if report.retryAt != S.NO_TIME && report.retryAt > policyNext then (Retrying, Some(report.retryAt))
        else (Retrying, Some(policyNext))
  }

  /**
   * A retry is never scheduled before the local backoff, nor after the later of the jittered backoff and the cap on
   * what the destination may ask for in Retry-After.
   */
  lemma RetryIsBetweenBounds(
    now: Time, attempt: int, report: Report, sentAt: Time, maxRetryAfter: Duration, header: Bytes,
    parseTime: Bytes -> Option<Time>)
    requires sentAt > 0 && maxRetryAfter < MAX_INT64
    requires report.retryAt == S.RetryAfter(maxRetryAfter, sentAt, header, parseTime)
    requires Transition(now, attempt, report).0.Retrying?
    ensures report.policy.Retries(attempt)
    ensures
      var next, delay := Transition(now, attempt, report).1.value, report.policy.Delay(attempt);
      now + delay <= next && (next <= now + delay + delay / 5 || next <= sentAt + S.Cap(maxRetryAfter))
  {
    S.RetryAfterIsBounded(maxRetryAfter, sentAt, header, parseTime);
    hide S.RetryAfter;
  }

  function ReportedCode(report: Report): Option<Code> {
    if report.errorCode.Some? then report.errorCode else report.sendErr
  }

  function FinishedAttempt(a: Attempt, now: Time, report: Report, next: Option<Time>): Attempt {
    a.(finishedAt := Some(now), outcome := Some(NormalizedOutcome(report.outcome, report.sendErr)),
       statusCode := report.statusCode, durationNs := Some(report.duration), errorCode := ReportedCode(report),
       nextAttemptAt := next)
  }

  function SettledDelivery(d: Delivery, now: Time, report: Report, state: DeliveryState, next: Option<Time>): Delivery {
    d.(state := state, nextAttemptAt := if next.Some? then next.value else d.nextAttemptAt, leaseExpiresAt := None,
       lastStatusCode := report.statusCode, lastErrorCode := ReportedCode(report), updatedAt := now,
       completedAt := if state.Terminal() then Some(now) else None)
  }

  /** The WHERE clause of the second update of a completion. */
  predicate StillLeased(t: Tables, c: Claim) {
    && c.deliveryId in t.deliveries
    && t.deliveries[c.deliveryId].state.InFlight? && t.deliveries[c.deliveryId].attemptCount == c.attempt
  }

  function AfterComplete(t: Tables, c: Claim, now: Time, report: Report): Tables {
    if OwnsAttempt(t, c) && StillLeased(t, c) then
      var key, d := Key(c.deliveryId, c.attempt), t.deliveries[c.deliveryId];
      var (state, next) := Transition(now, c.attempt, report);
      t.(deliveries := t.deliveries[c.deliveryId := SettledDelivery(d, now, report, state, next)],
         attempts := t.attempts[key := FinishedAttempt(t.attempts[key], now, report, next)])
    else t
  }

  // ----- publishing -----

  /** A valid publication: content type defaulted, headers canonical, key hashed. */
  datatype Request = Request(
    explicitId: Option<string>,
    url: string,
    eventType: string,
    body: Bytes,
    contentType: string,
    headers: Headers,
    keyHash: Option<Bytes>)

  datatype Publication = Publication(messageId: string, deliveryId: string)

  predicate HasKey(t: Tables, id: string, hash: Bytes) {
    id in t.deliveries && t.deliveries[id].keyHash == Some(hash)
  }

  predicate KeyTaken(t: Tables, hash: Bytes) {
    exists id | id in t.deliveries :: HasKey(t, id, hash)
  }

  /** The stored publication `id` has the immutable content of the request, as the lookup compares it. */
  ghost predicate Matches(t: Tables, id: string, r: Request)
    requires id in t.deliveries && t.deliveries[id].messageId in t.messages
  {
    var d := t.deliveries[id];
    var m := t.messages[d.messageId];
    && m.eventType == r.eventType && m.body == r.body && m.contentType == r.contentType
    && d.destination == r.url && CanonicalHeaders(d.headers) == CanonicalHeaders(r.headers)
    && (r.explicitId.Some? ==> d.messageId == r.explicitId.value)
  }

  predicate SameContent(m: Message, r: Request) {
    m.eventType == r.eventType && m.contentType == r.contentType && m.body == r.body
  }

  function NewMessage(r: Request, now: Time): Message {
    Message(r.eventType, r.body, r.contentType, now)
  }

  /** The row of a new delivery; its headers are what the jsonb column gives back. */
  function NewDelivery(r: Request, messageId: string, now: Time): Delivery {
    Delivery(messageId, r.url, ReadBackHeaders(r.headers), r.keyHash, Pending, 0, now, None, 0, None, now, now, None)
  }

  /** The inserts of an enqueue that meets no conflict. */
  function AfterInsert(t: Tables, r: Request, messageId: string, deliveryId: string, now: Time): Tables {
    t.(messages := if messageId in t.messages then t.messages else t.messages[messageId := NewMessage(r, now)],
       deliveries := t.deliveries[deliveryId := NewDelivery(r, messageId, now)])
  }

  /** No conflict stops the inserts. */
  predicate InsertAllowed(t: Tables, r: Request, messageId: string, deliveryId: string) {
    && (messageId in t.messages ==> SameContent(t.messages[messageId], r))
    && deliveryId !in t.deliveries
    && (r.keyHash.Some? ==> !KeyTaken(t, r.keyHash.value))
  }

  /** The key is taken by a publication of other content. */
  ghost predicate Contradicted(t: Tables, r: Request) {
    && r.keyHash.Some?
    && exists id | id in t.deliveries ::
         HasKey(t, id, r.keyHash.value) && t.deliveries[id].messageId in t.messages && !Matches(t, id, r)
  }

  /** The message insert of an enqueue, alone. */
  function AfterMessage(t: Tables, r: Request, messageId: string, now: Time): Tables {
    t.(messages := t.messages[messageId := NewMessage(r, now)])
  }

  // ----- removing -----

  predicate Referenced(deliveries: map<string, Delivery>, messageId: string) {
    exists id | id in deliveries :: deliveries[id].messageId == messageId
  }

  /** ON DELETE CASCADE takes the attempts of the removed deliveries along. */
  function WithoutDeliveries(t: Tables, gone: set<string>): Tables {
    t.(deliveries := t.deliveries - gone,
       attempts := map key | key in t.attempts && key.delivery !in gone :: t.attempts[key])
  }

  function WithoutMessages(t: Tables, gone: set<string>): Tables {
    t.(messages := t.messages - gone)
  }
}
