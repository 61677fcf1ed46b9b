/**
 * The inbound table of postgres/migrations/001_init.sql and its transactions in postgres/store.go. A receipt has no
 * attempt rows: the attempt number is the only token a worker holds.
 */
module Inbox {
  import opened Common
  import opened GoTime
  import opened Text
  import opened HttpHeaders
  import S = Scheduling
  import O = Outbox

  datatype ReceiptState = Pending | Processing | Retrying | Processed | Failed | Exhausted {
    predicate Terminal() { Processed? || Failed? || Exhausted? }
    predicate Queued() { Pending? || Retrying? }
  }

  /** The columns a receipt is inserted with and keeps. */
  datatype Content = Content(
    eventType: string,
    timestamp: Time,
    body: Bytes,
    contentType: string,
    headers: Headers,
    metadata: map<string, string>)

  datatype Receipt = Receipt(
    content: Content,
    state: ReceiptState,
    attemptCount: nat,
    nextAttemptAt: Time,
    leaseExpiresAt: Option<Time>,
    lastErrorCode: Option<Code>,
    receivedAt: Time,
    updatedAt: Time,
    processedAt: Option<Time>)

  datatype ReceiptKey = ReceiptKey(source: string, messageId: string)

  type Receipts = map<ReceiptKey, Receipt>

  datatype ReceiptClaim = ReceiptClaim(key: ReceiptKey, content: Content, attempt: nat, startedAt: Time)

  // ----- receiving -----

  /** The row of a new receipt; its headers are what the jsonb column gives back. */
  function NewReceipt(content: Content, now: Time): Receipt {
    Receipt(content.(headers := ReadBackHeaders(content.headers)), Pending, 0, now, None, None, now, now, None)
  }

  function AfterReceive(t: Receipts, key: ReceiptKey, content: Content, now: Time): Receipts {
    if key in t then t else t[key := NewReceipt(content, now)]
  }

  predicate SameImmutable(a: Content, b: Content) {
    a.eventType == b.eventType && a.contentType == b.contentType && a.body == b.body
  }

  /** The read that follows an insert which met an existing row. */
  function DuplicateVerdict(t: Receipts, key: ReceiptKey, content: Content): Result<()> {
    if key !in t then Err(Persistence)
    else if SameImmutable(t[key].content, content) then Common.Ok(())
    else Err(Conflict)
  }

  // ----- claiming -----

  predicate Due(r: Receipt, now: Time) {
    || (r.state.Queued() && r.nextAttemptAt <= now)
    || (r.state.Processing? && r.leaseExpiresAt.Some? && r.leaseExpiresAt.value <= now)
  }

  predicate NotAfter(r: Receipt, s: Receipt) {
    r.nextAttemptAt < s.nextAttemptAt || (r.nextAttemptAt == s.nextAttemptAt && r.receivedAt <= s.receivedAt)
  }

  predicate FirstDue(t: Receipts, key: ReceiptKey, now: Time) {
    && key in t && Due(t[key], now)
    && forall other | other in t && Due(t[other], now) :: NotAfter(t[key], t[other])
  }

  function AfterClaim(t: Receipts, key: ReceiptKey, now: Time, lease: Duration): Receipts
    requires key in t
  {
    t[key := t[key].(state := Processing, attemptCount := t[key].attemptCount + 1,
                     leaseExpiresAt := Some(now + O.EffectiveLease(lease)), updatedAt := now)]
  }

  function ClaimFor(t: Receipts, key: ReceiptKey, now: Time): ReceiptClaim
    requires key in t
  {
    ReceiptClaim(key, t[key].content, t[key].attemptCount + 1, now)
  }

  // ----- renewing and completing -----

  /** The row is being processed under the attempt number of the claim. */
  predicate Answers(t: Receipts, c: ReceiptClaim) {
    c.key in t && t[c.key].state.Processing? && t[c.key].attemptCount == c.attempt
  }

  predicate MayRenew(t: Receipts, c: ReceiptClaim, now: Time) {
    Answers(t, c) && t[c.key].leaseExpiresAt.Some? && t[c.key].leaseExpiresAt.value > now
  }

  function AfterRenew(t: Receipts, c: ReceiptClaim, now: Time, until: Time): Receipts {
    if MayRenew(t, c, now) then t[c.key := t[c.key].(leaseExpiresAt := Some(until), updatedAt := now)] else t
  }

  /** Errors no retry can mend. */
  predicate Permanent(code: Code) {
    code in {InvalidConfiguration, InvalidMessage, DecodeFailed, UnknownEvent}
  }

  /** receiptTransition. */
  function Transition(now: Time, attempt: int, handlerErr: Option<Code>, policy: S.RetryPolicy, drawn: Duration)
    : (r: (ReceiptState, Option<Time>))
    ensures r.0.Terminal() || r.0.Retrying?
    ensures r.0.Processed? <==> handlerErr.None?
    ensures r.0.Failed? <==>
      handlerErr in {Some(InvalidConfiguration), Some(InvalidMessage), Some(DecodeFailed), Some(UnknownEvent)}
    ensures r.1.Some? <==> r.0.Retrying?
    ensures r.0.Retrying? <==> handlerErr.Some? && !Permanent(handlerErr.value) && policy.Retries(attempt)
    ensures r.0.Retrying? ==>
      now + policy.Delay(attempt) <= r.1.value <= now + policy.Delay(attempt) + policy.Delay(attempt) / 5
  {
    match handlerErr
    case None => (Processed, None)
    case Some(code) =>
      match code
      case InvalidConfiguration => (Failed, None)
      case InvalidMessage => (Failed, None)
      case DecodeFailed => (Failed, None)
      case UnknownEvent => (Failed, None)
      case _ =>
        match policy.Next(now, attempt, drawn)
        case Some(next) => (Retrying, Some(next))
        case None => (Exhausted, None)
  }

  function Settled(r: Receipt, now: Time, handlerErr: Option<Code>, state: ReceiptState, next: Option<Time>): Receipt {
    r.(state := state, nextAttemptAt := if next.Some? then next.value else r.nextAttemptAt, leaseExpiresAt := None,
       lastErrorCode := handlerErr, processedAt := if state.Terminal() then Some(now) else None, updatedAt := now)
  }

  function AfterComplete(
    t: Receipts, c: ReceiptClaim, now: Time, handlerErr: Option<Code>, policy: S.RetryPolicy, drawn: Duration): Receipts
  {
    if Answers(t, c) then
      var (state, next) := Transition(now, c.attempt, handlerErr, policy, drawn);
      t[c.key := Settled(t[c.key], now, handlerErr, state, next)]
    else t
  }
}

/** Runs of the inbound protocol. */
module InboxRuns {
  import opened Common
  import opened GoTime
  import opened Inbox
  import S = Scheduling
  import O = Outbox

  /** A granted claim, with the number of the row it was granted on. */
  datatype Grant = Grant(claim: ReceiptClaim, birth: nat)

  datatype Session =
    | Receiving(key: ReceiptKey, content: Content, now: Time)
    | Claiming(now: Time, lease: Duration)
    | Renewing(grant: Grant, now: Time, lease: Duration, databaseClock: bool)
    | Completing(grant: Grant, now: Time, handlerErr: Option<Code>, policy: S.RetryPolicy, drawn: Duration)
    | Cleaning(now: Time, retention: Duration)
  {
    predicate HoldsGrant() { Renewing? || Completing? }
  }

  /**
   * `births` numbers the rows in the order of their insertion, so that a row re-created under the same key can be
   * told from the one Cleanup removed; the table itself does not hold these numbers.
   */
  datatype World = World(
    rows: Receipts,
    births: map<ReceiptKey, nat>,
    nextBirth: nat,
    clock: Time,
    sessions: map<nat, Session>,
    grants: set<Grant>)

  datatype Step =
    | Tick(to: Time)
    | Begin(session: nat, work: Session)
    | Abandon(session: nat)
    | Receive(session: nat)
    | Take(session: nat, key: ReceiptKey)
    | Settle(session: nat)
    | Purge(session: nat, gone: set<ReceiptKey>)

  /** The session reads the clock now, acts only on a claim it was granted, and passes the argument checks. */
  ghost predicate MayBegin(w: World, work: Session) {
    && work.now == w.clock && (work.HoldsGrant() ==> work.grant in w.grants)
    && (work.Renewing? ==> work.lease > 0) && (work.Cleaning? ==> work.retention > 0)
  }

  /** Cleanup takes terminal receipts processed before its cutoff. */
  ghost predicate MayPurge(rows: Receipts, gone: set<ReceiptKey>, cutoff: Time) {
    && gone <= rows.Keys
    && forall key | key in gone ::
         rows[key].state.Terminal() && rows[key].processedAt.Some? && rows[key].processedAt.value < cutoff
  }

  ghost predicate Enabled(w: World, a: Step) {
    match a
    case Tick(to) => w.clock <= to
    case Begin(s, work) => s !in w.sessions && MayBegin(w, work)
    case Abandon(s) => s in w.sessions
    case Receive(s) => s in w.sessions && w.sessions[s].Receiving?
    case Take(s, key) => s in w.sessions && w.sessions[s].Claiming? && FirstDue(w.rows, key, w.sessions[s].now)
    case Settle(s) => s in w.sessions && w.sessions[s].HoldsGrant()
    case Purge(s, gone) =>
      && s in w.sessions && w.sessions[s].Cleaning?
      && MayPurge(w.rows, gone, w.sessions[s].now - w.sessions[s].retention)
  }

  ghost function RowsAfter(w: World, a: Step): Receipts
    requires Enabled(w, a)
  {
    match a
    case Receive(s) => AfterReceive(w.rows, w.sessions[s].key, w.sessions[s].content, w.sessions[s].now)
    case Take(s, key) => AfterClaim(w.rows, key, w.sessions[s].now, w.sessions[s].lease)
    case Settle(s) =>
      (match w.sessions[s]
       case Renewing(g, now, lease, databaseClock) =>
         AfterRenew(w.rows, g.claim, now, O.RenewedUntil(now, lease, databaseClock))
       case Completing(g, now, handlerErr, policy, drawn) =>
         AfterComplete(w.rows, g.claim, now, handlerErr, policy, drawn))
    case Purge(_, gone) => w.rows - gone
    case _ => w.rows
  }

  ghost predicate Creates(w: World, a: Step)
    requires Enabled(w, a)
  {
    a.Receive? && w.sessions[a.session].key !in w.rows
  }

  ghost function After(w: World, a: Step): World
    requires Enabled(w, a) && w.births.Keys == w.rows.Keys
  {
    World(
      RowsAfter(w, a),
      if Creates(w, a) then w.births[w.sessions[a.session].key := w.nextBirth]
      else if a.Purge? then w.births - a.gone
      else w.births,
      if Creates(w, a) then w.nextBirth + 1 else w.nextBirth,
      if a.Tick? then a.to else w.clock,
      match a
        case Tick(_) => w.sessions
        case Begin(s, work) => w.sessions[s := work]
        case _ => w.sessions - {a.session},
      if a.Take? then w.grants + {Grant(ClaimFor(w.rows, a.key, w.sessions[a.session].now), w.births[a.key])}
        else w.grants)
  }

  // ----- the invariant -----

  ghost predicate RowOk(r: Receipt) {
    && (r.leaseExpiresAt.Some? <==> r.state.Processing?)
    && (r.processedAt.Some? <==> r.state.Terminal())
    && (r.attemptCount == 0 <==> r.state.Pending?)
  }

  ghost predicate RowsOk(rows: Receipts) {
    forall key | key in rows :: RowOk(rows[key])
  }

  /** No attempt number of a row is granted twice, and none beyond its attempt_count. */
  ghost predicate GrantsOk(w: World) {
    && w.births.Keys == w.rows.Keys
    && (forall key | key in w.births :: w.births[key] < w.nextBirth)
    && (forall g | g in w.grants :: g.birth < w.nextBirth)
    && (forall g | g in w.grants && g.claim.key in w.rows && w.births[g.claim.key] == g.birth ::
          1 <= g.claim.attempt <= w.rows[g.claim.key].attemptCount)
    && (forall g, h | g in w.grants && h in w.grants && g.birth == h.birth && g.claim.key == h.claim.key
          && g.claim.attempt == h.claim.attempt :: g == h)
  }

  ghost predicate SessionOk(w: World, work: Session) {
    && work.now <= w.clock
    && (work.HoldsGrant() ==> work.grant in w.grants && work.grant.claim.startedAt <= work.now)
    && (work.Renewing? ==> work.lease > 0) && (work.Cleaning? ==> work.retention > 0)
  }

  ghost predicate SessionsOk(w: World) {
    && (forall s | s in w.sessions :: SessionOk(w, w.sessions[s]))
    && (forall g | g in w.grants :: g.claim.startedAt <= w.clock)
  }

  ghost predicate Inv(w: World) {
    RowsOk(w.rows) && GrantsOk(w) && SessionsOk(w)
  }

  lemma StepKeepsRows(w: World, a: Step)
    requires Inv(w) && Enabled(w, a)
    ensures RowsOk(RowsAfter(w, a))
  {
    hide GrantsOk, O.RenewedUntil;
  }

  /** Apart from insertion, claiming and removal no step changes an attempt count or the set of rows. */
  lemma AttemptCounts(w: World, a: Step)
    requires Inv(w) && Enabled(w, a)
    ensures
      var rows' := RowsAfter(w, a);
      && (forall key | key in rows' && key in w.rows ::
            rows'[key].attemptCount == w.rows[key].attemptCount + (if a.Take? && a.key == key then 1 else 0))
      && rows'.Keys == (if Creates(w, a) then w.rows.Keys + {w.sessions[a.session].key}
                        else if a.Purge? then w.rows.Keys - a.gone else w.rows.Keys)
  {
    hide GrantsOk, RowsOk;
  }

  lemma StepKeepsGrants(w: World, a: Step)
    requires Inv(w) && Enabled(w, a)
    ensures GrantsOk(After(w, a))
  {
    hide RowsOk, RowsAfter, SessionsOk, MayBegin, Due, NotAfter;
    AttemptCounts(w, a);
  }

  lemma StepKeepsSessions(w: World, a: Step)
    requires Inv(w) && Enabled(w, a) && w.births.Keys == w.rows.Keys
    ensures SessionsOk(After(w, a))
  {
    hide RowsOk, GrantsOk, RowsAfter;
    var w' := After(w, a);
    forall s | s in w'.sessions ensures SessionOk(w', w'.sessions[s]) {
      assert (a.Begin? && s == a.session)
        || (s in w.sessions && w'.sessions[s] == w.sessions[s] && SessionOk(w, w.sessions[s]));
    }
    forall g | g in w'.grants ensures g.claim.startedAt <= w'.clock {
      assert g in w.grants || (a.Take? && SessionOk(w, w.sessions[a.session]));
    }
  }

  lemma StepKeepsInv(w: World, a: Step)
    requires Inv(w) && Enabled(w, a)
    ensures w.births.Keys == w.rows.Keys && Inv(After(w, a))
  {
    hide RowsOk, GrantsOk, RowsAfter, SessionsOk, Enabled;
    BirthsAreRows(w);
    StepKeepsRows(w, a);
    StepKeepsGrants(w, a);
    StepKeepsSessions(w, a);
  }

  lemma BirthsAreRows(w: World)
    requires GrantsOk(w)
    ensures w.births.Keys == w.rows.Keys
  {
  }

  ghost predicate Run(worlds: seq<World>, steps: seq<Step>) {
    && |worlds| == |steps| + 1
    && forall i | 0 <= i < |steps| ::
         && Enabled(worlds[i], steps[i]) && worlds[i].births.Keys == worlds[i].rows.Keys
         && worlds[i + 1] == After(worlds[i], steps[i])
  }

  lemma RunLength(worlds: seq<World>, steps: seq<Step>)
    requires Run(worlds, steps)
    ensures |worlds| == |steps| + 1
  {
  }

  lemma RunStep(worlds: seq<World>, steps: seq<Step>, k: nat)
    requires Run(worlds, steps) && k < |steps|
    ensures k + 1 < |worlds| && Enabled(worlds[k], steps[k]) && worlds[k].births.Keys == worlds[k].rows.Keys
    ensures worlds[k + 1] == After(worlds[k], steps[k])
  {
  }

  const EMPTY: World := World(map[], map[], 0, 1, map[], {})

  lemma {:induction false} RunKeepsInv(worlds: seq<World>, steps: seq<Step>, i: nat)
    requires Run(worlds, steps) && Inv(worlds[0]) && i < |worlds|
    ensures Inv(worlds[i])
    decreases i
  {
    hide Inv, Enabled, After, Run;
    RunLength(worlds, steps);
    if i > 0 {
      RunKeepsInv(worlds, steps, i - 1);
      RunStep(worlds, steps, i - 1);
      StepKeepsInv(worlds[i - 1], steps[i - 1]);
    }
  }

  lemma EmptyInv()
    ensures Inv(EMPTY)
  {
  }
}
