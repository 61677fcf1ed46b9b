/**
 * Runs of the outbound protocol. Any number of sessions read the clock, stall, act late or vanish; a transaction
 * is one step, and the instant it works with was read in an earlier step.
 */
module OutboxRuns {
  import opened GoTime
  import opened Outbox
  import opened Ledger

  // ----- the transition system -----

  /** How long Cleanup keeps delivered and other terminal deliveries and messages; it leaves alone what is 0. */
  datatype Keeping = Keeping(delivered: Duration, failed: Duration, orphans: Duration)

  /** A session that has read the clock and whose transaction has not committed yet. */
  datatype Session =
    | Claiming(now: Time, lease: Duration)
    | Renewing(claim: Claim, now: Time, lease: Duration, databaseClock: bool)
    | Completing(claim: Claim, now: Time, report: Report)
    | Publishing(request: Request, now: Time)
    | Cleaning(now: Time, keeping: Keeping)
  {
    predicate HoldsClaim() { Renewing? || Completing? }
  }

  /** `claims` remembers every claim ever granted, by its attempt id. */
  datatype World = World(tables: Tables, clock: Time, sessions: map<nat, Session>, claims: map<string, Claim>)

  /**
   * Strand is a caller that commits its own transaction although the enqueue in it returned a conflict: the message
   * the enqueue had inserted stays behind without a delivery.
   */
  datatype Step =
    | Tick(to: Time)
    | Begin(session: nat, work: Session)
    | Abandon(session: nat)
    | Grant(session: nat, id: string, attemptId: string)
    | Settle(session: nat)
    | Insert(session: nat, messageId: string, deliveryId: string)
    | Strand(session: nat, messageId: string)
    | Purge(session: nat, deliveries: set<string>, messages: set<string>)

  /** The session reads the clock now, and acts only on a claim it was granted. */
  ghost predicate MayBegin(w: World, work: Session) {
    && work.now == w.clock
    && (work.HoldsClaim() ==> work.claim.attemptId in w.claims && w.claims[work.claim.attemptId] == work.claim)
    && (work.Renewing? ==> work.lease > 0)
  }

  /** Cleanup takes terminal deliveries, then messages without deliveries, all of them older than they are kept. */
  ghost predicate MayPurge(t: Tables, deliveries: set<string>, messages: set<string>, now: Time, keeping: Keeping) {
    && deliveries <= t.deliveries.Keys && (forall id | id in deliveries :: MayGo(t.deliveries[id], now, keeping))
    && messages <= t.messages.Keys
    && (forall m | m in messages ::
          && keeping.orphans > 0 && t.messages[m].createdAt < now - keeping.orphans
          && !Referenced(t.deliveries - deliveries, m))
  }

  predicate MayGo(d: Delivery, now: Time, keeping: Keeping) {
    var kept := if d.state.Delivered? then keeping.delivered else keeping.failed;
    d.state.Terminal() && kept > 0 && d.completedAt.Some? && d.completedAt.value < now - kept
  }

  ghost predicate Enabled(w: World, a: Step) {
    match a
    case Tick(to) => w.clock <= to
    case Begin(s, work) => s !in w.sessions && MayBegin(w, work)
    case Abandon(s) => s in w.sessions
    case Grant(s, id, attemptId) =>
      s in w.sessions && w.sessions[s].Claiming? && FirstDue(w.tables, id, w.sessions[s].now) && attemptId !in w.claims
    case Settle(s) => s in w.sessions && w.sessions[s].HoldsClaim()
    case Insert(s, messageId, deliveryId) =>
      && s in w.sessions && w.sessions[s].Publishing?
      && InsertAllowed(w.tables, w.sessions[s].request, messageId, deliveryId)
    case Strand(s, messageId) =>
      && s in w.sessions && w.sessions[s].Publishing? && messageId !in w.tables.messages
      && Contradicted(w.tables, w.sessions[s].request)
    case Purge(s, deliveries, messages) =>
      && s in w.sessions && w.sessions[s].Cleaning?
      && MayPurge(w.tables, deliveries, messages, w.sessions[s].now, w.sessions[s].keeping)
  }

  /** What the transaction of the step does to the rows. */
  ghost function TablesAfter(w: World, a: Step): Tables
    requires Enabled(w, a)
  {
    match a
    case Tick(_) => w.tables
    case Begin(_, _) => w.tables
    case Abandon(_) => w.tables
    case Grant(s, id, attemptId) => AfterClaim(w.tables, id, w.sessions[s].now, w.sessions[s].lease, attemptId)
    case Settle(s) =>
      (match w.sessions[s]
       case Renewing(c, now, lease, databaseClock) =>
         AfterRenew(w.tables, c, now, RenewedUntil(now, lease, databaseClock))
       case Completing(c, now, report) => AfterComplete(w.tables, c, now, report))
    case Insert(s, messageId, deliveryId) =>
      AfterInsert(w.tables, w.sessions[s].request, messageId, deliveryId, w.sessions[s].now)
    case Strand(s, messageId) => AfterMessage(w.tables, w.sessions[s].request, messageId, w.sessions[s].now)
    case Purge(_, deliveries, messages) => WithoutMessages(WithoutDeliveries(w.tables, deliveries), messages)
  }

  ghost function ClaimsAfter(w: World, a: Step): map<string, Claim>
    requires Enabled(w, a)
  {
    if a.Grant? then w.claims[a.attemptId := ClaimFor(w.tables, a.id, w.sessions[a.session].now, a.attemptId)]
    else w.claims
  }

  ghost function After(w: World, a: Step): World
    requires Enabled(w, a)
  {
    World(
      TablesAfter(w, a),
      if a.Tick? then a.to else w.clock,
      match a
        case Tick(_) => w.sessions
        case Begin(s, work) => w.sessions[s := work]
        case _ => w.sessions - {a.session},
      ClaimsAfter(w, a))
  }

  /** A run: `worlds` has one more element than `steps`, and each step leads from one world to the next. */
  ghost predicate Run(worlds: seq<World>, steps: seq<Step>) {
    && |worlds| == |steps| + 1
    && forall i | 0 <= i < |steps| :: Enabled(worlds[i], steps[i]) && worlds[i + 1] == After(worlds[i], steps[i])
  }

  lemma RunLength(worlds: seq<World>, steps: seq<Step>)
    requires Run(worlds, steps)
    ensures |worlds| == |steps| + 1
  {
  }

  lemma RunStep(worlds: seq<World>, steps: seq<Step>, k: nat)
    requires Run(worlds, steps) && k < |steps|
    ensures k + 1 < |worlds| && Enabled(worlds[k], steps[k]) && worlds[k + 1] == After(worlds[k], steps[k])
  {
  }

  const EMPTY: World := World(Tables(map[], map[], map[]), 1, map[], map[])

  // ----- the invariant -----

  /** A claim is remembered with the attempt it started, whether or not the row still exists. */
  ghost predicate ClaimsRecorded(t: Tables, claims: map<string, Claim>) {
    && (forall a | a in claims :: claims[a].attemptId == a)
    && forall key | key in t.attempts ::
         && t.attempts[key].id in claims
         && var c := claims[t.attempts[key].id];
            key == Key(c.deliveryId, c.attempt) && t.attempts[key].startedAt == c.startedAt
  }

  ghost predicate SessionOk(w: World, work: Session) {
    && work.now <= w.clock
    && (work.HoldsClaim() ==>
          && work.claim.attemptId in w.claims && w.claims[work.claim.attemptId] == work.claim
          && work.claim.startedAt <= work.now)
    && (work.Renewing? ==> work.lease > 0)
  }

  ghost predicate Inv(w: World) {
    && LedgerOk(w.tables) && AllChronological(w.tables)
    && ClaimsRecorded(w.tables, w.claims)
    && (forall a | a in w.claims :: w.claims[a].startedAt <= w.clock)
    && (forall s | s in w.sessions :: SessionOk(w, w.sessions[s]))
  }

  lemma OwnedAttemptStarted(w: World, c: Claim)
    requires ClaimsRecorded(w.tables, w.claims) && c.attemptId in w.claims && w.claims[c.attemptId] == c
    ensures OwnsAttempt(w.tables, c) ==> w.tables.attempts[Key(c.deliveryId, c.attempt)].startedAt == c.startedAt
  {
  }

  lemma StepKeepsTables(w: World, a: Step)
    requires Inv(w) && Enabled(w, a)
    ensures LedgerOk(TablesAfter(w, a)) && AllChronological(TablesAfter(w, a))
  {
    hide RowOk, Chronological;
    match a
    case Grant(s, id, attemptId) =>
      ClaimKeepsLedger(w.tables, id, w.sessions[s].now, w.sessions[s].lease, attemptId);
    case Settle(s) =>
      var work := w.sessions[s];
      OwnedAttemptStarted(w, work.claim);
      if work.Renewing? {
        RenewKeepsLedger(w.tables, work.claim, work.now, RenewedUntil(work.now, work.lease, work.databaseClock));
      } else {
        CompleteKeepsLedger(w.tables, work.claim, work.now, work.report);
      }
    case Insert(s, messageId, deliveryId) =>
      InsertKeepsLedger(w.tables, w.sessions[s].request, messageId, deliveryId, w.sessions[s].now);
    case Strand(s, messageId) =>
      MessageKeepsLedger(w.tables, w.sessions[s].request, messageId, w.sessions[s].now);
    case Purge(_, deliveries, messages) =>
      RemoveDeliveriesKeepsLedger(w.tables, deliveries);
      RemoveOrphansKeepsLedger(WithoutDeliveries(w.tables, deliveries), messages);
    case _ =>
  }

  lemma GrantKeepsClaims(
    t: Tables, claims: map<string, Claim>, id: string, now: Time, lease: Duration, attemptId: string)
    requires ClaimsRecorded(t, claims) && id in t.deliveries && t.deliveries[id].messageId in t.messages
    requires RowOk(t, id) && attemptId !in claims
    ensures ClaimsRecorded(AfterClaim(t, id, now, lease, attemptId),
      claims[attemptId := ClaimFor(t, id, now, attemptId)])
  {
    hide RowOk, AfterClaim, TouchesOnly;
    var t', started := AfterClaim(t, id, now, lease, attemptId), Key(id, t.deliveries[id].attemptCount + 1);
    ClaimedAttempts(t, id, now, lease, attemptId);
    forall key | key in t'.attempts && key != started
      ensures key in t.attempts && t'.attempts[key].id == t.attempts[key].id
           && t'.attempts[key].startedAt == t.attempts[key].startedAt
    {
      GrantedAttempts(t, id, now, lease, attemptId, key);
    }
  }

  lemma GrantedAttempts(t: Tables, id: string, now: Time, lease: Duration, attemptId: string, key: AttemptKey)
    requires id in t.deliveries && key in AfterClaim(t, id, now, lease, attemptId).attempts
    requires key != Key(id, t.deliveries[id].attemptCount + 1)
    ensures
      var t' := AfterClaim(t, id, now, lease, attemptId);
      key in t.attempts && t'.attempts[key].id == t.attempts[key].id
        && t'.attempts[key].startedAt == t.attempts[key].startedAt
  {
  }

  lemma OtherStepsKeepClaims(w: World, a: Step)
    requires ClaimsRecorded(w.tables, w.claims) && Enabled(w, a) && !a.Grant?
    ensures ClaimsRecorded(TablesAfter(w, a), ClaimsAfter(w, a))
  {
    hide Transition, SettledDelivery, Contradicted, InsertAllowed;
    forall key | key in TablesAfter(w, a).attempts
      ensures key in w.tables.attempts && TablesAfter(w, a).attempts[key].id == w.tables.attempts[key].id
           && TablesAfter(w, a).attempts[key].startedAt == w.tables.attempts[key].startedAt
    {
    }
  }

  lemma StepKeepsClaims(w: World, a: Step)
    requires Inv(w) && Enabled(w, a)
    ensures ClaimsRecorded(TablesAfter(w, a), ClaimsAfter(w, a))
  {
    if a.Grant? {
      assert RowOk(w.tables, a.id);
      hide ClaimsRecorded, RowOk, AfterClaim, AllChronological;
      GrantKeepsClaims(w.tables, w.claims, a.id, w.sessions[a.session].now, w.sessions[a.session].lease, a.attemptId);
    } else {
      hide ClaimsRecorded, LedgerOk, AllChronological;
      OtherStepsKeepClaims(w, a);
    }
  }

  lemma StepKeepsSessions(w: World, a: Step)
    requires Inv(w) && Enabled(w, a)
    ensures
      var w' := After(w, a);
      && (forall c | c in w'.claims :: w'.claims[c].startedAt <= w'.clock)
      && (forall s | s in w'.sessions :: SessionOk(w', w'.sessions[s]))
  {
    hide LedgerOk, AllChronological, ClaimsRecorded, TablesAfter;
    var w' := After(w, a);
    assert forall c | c in w.claims :: c in w'.claims && w'.claims[c] == w.claims[c];
    forall s | s in w'.sessions ensures SessionOk(w', w'.sessions[s]) {
      assert (a.Begin? && s == a.session)
        || (s in w.sessions && w'.sessions[s] == w.sessions[s] && SessionOk(w, w.sessions[s]));
    }
  }

  lemma StepKeepsInv(w: World, a: Step)
    requires Inv(w) && Enabled(w, a)
    ensures Inv(After(w, a))
  {
    StepKeepsTables(w, a);
    StepKeepsClaims(w, a);
    StepKeepsSessions(w, a);
    hide LedgerOk, AllChronological, ClaimsRecorded, SessionOk, TablesAfter, ClaimsAfter, Enabled;
  }

  lemma {:induction false} RunKeepsInv(worlds: seq<World>, steps: seq<Step>, i: nat)
    requires Run(worlds, steps) && Inv(worlds[0]) && i < |worlds|
    ensures Inv(worlds[i])
    decreases i
  {
    hide Run, Inv, Enabled, After;
    RunLength(worlds, steps);
    if i > 0 {
      RunKeepsInv(worlds, steps, i - 1);
      RunStep(worlds, steps, i - 1);
      StepKeepsInv(worlds[i - 1], steps[i - 1]);
    }
  }

  lemma EmptyInv()
    ensures Inv(EMPTY)
  {
  }

  /** The attempt ledger and the order of attempts hold in every reachable state. */
  lemma ReachableStatesAreSound(worlds: seq<World>, steps: seq<Step>, i: nat)
    requires Run(worlds, steps) && worlds[0] == EMPTY && i < |worlds|
    ensures LedgerOk(worlds[i].tables) && AllChronological(worlds[i].tables)
  {
    EmptyInv();
    RunKeepsInv(worlds, steps, i);
  }
}
