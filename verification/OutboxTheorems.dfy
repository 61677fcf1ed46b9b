/** Fencing, budget and absorption over every run of the outbound protocol. */
module OutboxTheorems {
  import opened Common
  import opened GoTime
  import opened Outbox
  import opened Ledger
  import opened OutboxRuns
  import S = Scheduling

  // ----- fencing -----

  ghost predicate Granted(w: World, c: Claim) {
    c.attemptId in w.claims && w.claims[c.attemptId] == c
  }

  /** A claim that does not own its attempt can change nothing, whenever it acts and whatever it reports. */
  ghost predicate Fenced(t: Tables, c: Claim) {
    && (forall now :: !MayRenew(t, c, now))
    && (forall now, until :: AfterRenew(t, c, now, until) == t)
    && (forall now, report :: AfterComplete(t, c, now, report) == t)
  }

  lemma NotOwnerIsFenced(t: Tables, c: Claim)
    ensures !OwnsAttempt(t, c) ==> Fenced(t, c)
  {
    if !OwnsAttempt(t, c) {
      forall now ensures !MayRenew(t, c, now) {
      }
    }
  }

  /** Completing ends the ownership of the claim. */
  lemma CompletionEndsClaim(t: Tables, c: Claim, now: Time, report: Report)
    requires LedgerOk(t)
    ensures !OwnsAttempt(AfterComplete(t, c, now, report), c)
  {
    hide RowOk;
    OwnerHoldsLease(t, c);
  }

  lemma ClaimEndsOthers(t: Tables, id: string, now: Time, lease: Duration, attemptId: string, c: Claim)
    requires id in t.deliveries && RowOk(t, id) && c.deliveryId == id && c.attemptId != attemptId
    ensures !OwnsAttempt(AfterClaim(t, id, now, lease, attemptId), c)
  {
    ClaimedAttempts(t, id, now, lease, attemptId);
    hide AfterClaim;
  }

  /** Granting a delivery again ends every earlier claim of it. */
  lemma ReclaimEndsClaims(w: World, a: Step, c: Claim)
    requires Inv(w) && Enabled(w, a) && a.Grant? && Granted(w, c) && c.deliveryId == a.id
    ensures !OwnsAttempt(TablesAfter(w, a), c)
  {
    hide RowOk, OwnsAttempt;
    ClaimEndsOthers(w.tables, a.id, w.sessions[a.session].now, w.sessions[a.session].lease, a.attemptId, c);
  }

  lemma LostStaysLost(w: World, a: Step, c: Claim)
    requires Inv(w) && Enabled(w, a) && Granted(w, c) && !OwnsAttempt(w.tables, c)
    ensures Granted(After(w, a), c) && !OwnsAttempt(After(w, a).tables, c)
  {
    hide LedgerOk, AllChronological;
  }

  lemma {:induction false} LostForever(worlds: seq<World>, steps: seq<Step>, i: nat, j: nat, c: Claim)
    requires Run(worlds, steps) && Inv(worlds[0]) && i <= j < |worlds|
    requires Granted(worlds[i], c) && !OwnsAttempt(worlds[i].tables, c)
    ensures Granted(worlds[j], c) && !OwnsAttempt(worlds[j].tables, c)
    decreases j
  {
    hide Run, OwnsAttempt, Granted, Inv, After, Enabled;
    RunLength(worlds, steps);
    if i < j {
      LostForever(worlds, steps, i, j - 1, c);
      RunKeepsInv(worlds, steps, j - 1);
      RunStep(worlds, steps, j - 1);
      LostStaysLost(worlds[j - 1], steps[j - 1], c);
    }
  }

  /**
   * Fencing: once a claim has been completed or its delivery granted again, every later renewal and completion
   * with it fails and leaves the rows as they are, in every continuation of the run.
   */
  lemma StaleClaimsAreFenced(worlds: seq<World>, steps: seq<Step>, i: nat, j: nat, c: Claim)
    requires Run(worlds, steps) && worlds[0] == EMPTY && i < |steps| && i < j < |worlds|
    requires Granted(worlds[i], c)
    requires
      var w, a := worlds[i], steps[i];
      || (a.Grant? && a.id == c.deliveryId)
      || (a.Settle? && w.sessions[a.session].Completing? && w.sessions[a.session].claim == c)
    ensures Fenced(worlds[j].tables, c)
  {
    EmptyInv();
    RunKeepsInv(worlds, steps, i);
    var w, a := worlds[i], steps[i];
    assert Enabled(w, a) && worlds[i + 1] == After(w, a);
    if a.Grant? {
      ReclaimEndsClaims(w, a, c);
    } else {
      CompletionEndsClaim(w.tables, c, w.sessions[a.session].now, w.sessions[a.session].report);
    }
    assert Granted(worlds[i + 1], c);
    LostForever(worlds, steps, i + 1, j, c);
    NotOwnerIsFenced(worlds[j].tables, c);
  }

  /** No claim of any run takes a row whose lease is live when its update runs, however stale its clock reading. */
  lemma LiveLeasesAreSpared(worlds: seq<World>, steps: seq<Step>, i: nat)
    requires Run(worlds, steps) && worlds[0] == EMPTY && i < |steps| && steps[i].Grant?
    requires steps[i].id in worlds[i].tables.deliveries && worlds[i].tables.deliveries[steps[i].id].state.InFlight?
    ensures
      var lease := worlds[i].tables.deliveries[steps[i].id].leaseExpiresAt;
      lease.Some? && lease.value <= worlds[i].clock
  {
    EmptyInv();
    RunKeepsInv(worlds, steps, i);
    var w, a := worlds[i], steps[i];
    assert Enabled(w, a);
    assert SessionOk(w, w.sessions[a.session]);
  }

  // ----- the attempt budget -----

  /** Every completion of the run uses a policy of effective maximum `max`. */
  ghost predicate OnePolicy(steps: seq<Step>, max: int) {
    forall i | 0 <= i < |steps| && steps[i].Begin? && steps[i].work.Completing? ::
      steps[i].work.report.policy.EffectiveMax() == max
  }

  ghost predicate BudgetInv(w: World, max: int) {
    && LedgerOk(w.tables) && AllBudgeted(w.tables, max)
    && forall s | s in w.sessions && w.sessions[s].Completing? :: w.sessions[s].report.policy.EffectiveMax() == max
  }

  lemma StepKeepsBudget(w: World, a: Step, max: int)
    requires Inv(w) && Enabled(w, a) && BudgetInv(w, max) && max >= 1
    requires a.Begin? && a.work.Completing? ==> a.work.report.policy.EffectiveMax() == max
    ensures BudgetInv(After(w, a), max)
  {
    hide RowOk, Chronological, Budgeted;
    StepKeepsTables(w, a);
    match a
    case Grant(s, id, attemptId) =>
      ClaimKeepsLedger(w.tables, id, w.sessions[s].now, w.sessions[s].lease, attemptId);
    case Settle(s) =>
      var work := w.sessions[s];
      if work.Renewing? {
        RenewKeepsLedger(w.tables, work.claim, work.now, RenewedUntil(work.now, work.lease, work.databaseClock));
      } else {
        CompleteKeepsLedger(w.tables, work.claim, work.now, work.report);
      }
    case Insert(s, messageId, deliveryId) =>
      InsertKeepsLedger(w.tables, w.sessions[s].request, messageId, deliveryId, w.sessions[s].now);
    case Strand(s, messageId) =>
      MessageKeepsLedger(w.tables, w.sessions[s].request, messageId, w.sessions[s].now);
    case Purge(_, deliveries, messages) =>
      RemoveDeliveriesKeepsLedger(w.tables, deliveries);
      RemoveOrphansKeepsLedger(WithoutDeliveries(w.tables, deliveries), messages);
    case _ =>
  }

  lemma EmptyIsBudgeted(max: int)
    ensures BudgetInv(EMPTY, max)
  {
  }

  lemma {:induction false} RunKeepsBudget(worlds: seq<World>, steps: seq<Step>, max: int, i: nat)
    requires Run(worlds, steps) && worlds[0] == EMPTY && OnePolicy(steps, max) && max >= 1 && i < |worlds|
    ensures BudgetInv(worlds[i], max)
    decreases i
  {
    EmptyIsBudgeted(max);
    hide Run, Inv, Enabled, After, BudgetInv;
    RunLength(worlds, steps);
    if i > 0 {
      RunKeepsBudget(worlds, steps, max, i - 1);
      EmptyInv();
      RunKeepsInv(worlds, steps, i - 1);
      RunStep(worlds, steps, i - 1);
      StepKeepsBudget(worlds[i - 1], steps[i - 1], max);
    }
  }

  /**
   * In every reachable state each attempt was completed by its worker, lost its lease or is in flight; workers
   * complete at most `max` attempts of a delivery however many leases expire; a queued delivery has attempts left.
   */
  lemma ReachableBudget(worlds: seq<World>, steps: seq<Step>, max: int, i: nat, id: string)
    requires Run(worlds, steps) && worlds[0] == EMPTY && OnePolicy(steps, max) && max >= 1
    requires i < |worlds| && id in worlds[i].tables.deliveries
    ensures RowOk(worlds[i].tables, id)
    ensures
      var t := worlds[i].tables;
      var d := t.deliveries[id];
      var completed, lost := WorkerCompleted(t, id, d.attemptCount), LeasesLost(t, id, d.attemptCount);
      && d.attemptCount == completed + lost + (if d.state.InFlight? then 1 else 0)
      && completed <= max && d.attemptCount <= max + lost
      && (d.state.Queued() ==> d.attemptCount < max)
  {
    RunKeepsBudget(worlds, steps, max, i);
    AttemptBudget(worlds[i].tables, id, max);
  }

  // ----- terminal rows -----

  lemma TerminalClaim(t: Tables, id: string, now: Time, lease: Duration, attemptId: string, other: string)
    requires LedgerOk(t) && id in t.deliveries && Due(t.deliveries[id], now)
    requires other in t.deliveries && t.deliveries[other].state.Terminal()
    ensures SameRow(t, AfterClaim(t, id, now, lease, attemptId), other)
  {
    hide RowOk;
    ClaimedAttempts(t, id, now, lease, attemptId);
    hide AfterClaim, SameRow;
  }

  lemma TerminalRenew(t: Tables, c: Claim, now: Time, until: Time, id: string)
    requires id in t.deliveries && t.deliveries[id].state.Terminal()
    ensures SameRow(t, AfterRenew(t, c, now, until), id)
  {
  }

  lemma TerminalComplete(t: Tables, c: Claim, now: Time, report: Report, id: string)
    requires LedgerOk(t) && id in t.deliveries && t.deliveries[id].state.Terminal()
    ensures SameRow(t, AfterComplete(t, c, now, report), id)
  {
    hide RowOk, Transition, SettledDelivery, FinishedAttempt;
    OwnerHoldsLease(t, c);
  }

  lemma TerminalStep(w: World, a: Step, id: string)
    requires Inv(w) && Enabled(w, a) && id in w.tables.deliveries && w.tables.deliveries[id].state.Terminal()
    ensures (a.Purge? && id in a.deliveries) || SameRow(w.tables, After(w, a).tables, id)
  {
    hide LedgerOk, AllChronological, AfterClaim, AfterRenew, AfterComplete, AfterInsert;
    match a
    case Grant(s, other, attemptId) =>
      TerminalClaim(w.tables, other, w.sessions[s].now, w.sessions[s].lease, attemptId, id);
    case Settle(s) =>
      var work := w.sessions[s];
      if work.Renewing? {
        TerminalRenew(w.tables, work.claim, work.now, RenewedUntil(work.now, work.lease, work.databaseClock), id);
      } else {
        TerminalComplete(w.tables, work.claim, work.now, work.report, id);
      }
    case Insert(s, messageId, deliveryId) =>
      InsertIsOk(w.tables, w.sessions[s].request, messageId, deliveryId, w.sessions[s].now);
    case _ =>
  }

  lemma RowStays(t: Tables, id: string)
    requires id in t.deliveries
    ensures SameRow(t, t, id)
  {
  }

  lemma TerminalOverStep(t: Tables, w: World, a: Step, id: string)
    requires SameRow(t, w.tables, id) && id in t.deliveries && t.deliveries[id].state.Terminal()
    requires Inv(w) && Enabled(w, a) && !(a.Purge? && id in a.deliveries)
    ensures SameRow(t, After(w, a).tables, id)
  {
    hide Inv, Enabled, After;
    TerminalStep(w, a, id);
  }

  /** Terminal states are absorbing until Cleanup removes the row: neither the row nor its attempts change again. */
  lemma {:induction false} TerminalIsAbsorbing(worlds: seq<World>, steps: seq<Step>, i: nat, j: nat, id: string)
    requires Run(worlds, steps) && Inv(worlds[0]) && i <= j < |worlds|
    requires id in worlds[i].tables.deliveries && worlds[i].tables.deliveries[id].state.Terminal()
    requires forall k | i <= k < j :: !(steps[k].Purge? && id in steps[k].deliveries)
    ensures SameRow(worlds[i].tables, worlds[j].tables, id)
    decreases j
  {
    hide Run, Inv, Enabled, After, SameRow;
    RunLength(worlds, steps);
    RunKeepsInv(worlds, steps, i);
    if i == j {
      RowStays(worlds[i].tables, id);
    } else {
      TerminalIsAbsorbing(worlds, steps, i, j - 1, id);
      RunKeepsInv(worlds, steps, j - 1);
      RunStep(worlds, steps, j - 1);
      TerminalOverStep(worlds[i].tables, worlds[j - 1], steps[j - 1], id);
    }
  }

  // ----- outcomes -----

  /** The state a delivery is in after an attempt with the given outcome. */
  predicate StateFits(state: DeliveryState, outcome: S.Outcome) {
    match state
    case Delivered => outcome == S.Delivered
    case Disabled => outcome == S.DisableDestination
    case PermanentlyFailed => outcome == S.PermanentFailure
    case Exhausted => outcome == S.Retry || outcome == S.Unrecognised
    case Retrying => outcome == S.Retry || outcome == S.Unrecognised
    case _ => false
  }

  /** What an attempt that was followed by another one says: its lease was lost, or its worker asked for a retry. */
  ghost predicate Superseded(a: Attempt, next: Attempt) {
    && a.finishedAt.Some?
    && (a.LeaseLost() ==>
          a.outcome == Some(S.Retry) && a.errorCode == Some(CustomCode("lease_expired"))
          && a.finishedAt == Some(next.startedAt))
    && (a.CompletedByWorker() ==>
          a.outcome.Some? && a.outcome.value in {S.Retry, S.Unrecognised} && a.nextAttemptAt.Some?)
  }

  /** The attempts of a delivery tell its history, and what its row says is what its last attempt says. */
  ghost predicate OutcomeRecorded(t: Tables, id: string)
    requires id in t.deliveries && RowOk(t, id)
  {
    var d := t.deliveries[id];
    && (forall k: nat | 1 <= k < d.attemptCount :: Superseded(t.attempts[Key(id, k)], t.attempts[Key(id, k + 1)]))
    && (d.attemptCount >= 1 ==> LastRecorded(d, t.attempts[Key(id, d.attemptCount)]))
  }

  ghost predicate LastRecorded(d: Delivery, last: Attempt) {
    if d.state.InFlight? then last.finishedAt.None? && last.durationNs.None?
    else
      && last.CompletedByWorker() && last.outcome.Some? && StateFits(d.state, last.outcome.value)
      && d.lastStatusCode == last.statusCode && d.lastErrorCode == last.errorCode
      && (d.state.Terminal() ==> d.completedAt == last.finishedAt && last.nextAttemptAt.None?)
      && (d.state.Retrying? ==> last.nextAttemptAt == Some(d.nextAttemptAt))
  }

  ghost predicate OutcomesRecorded(t: Tables)
    requires LedgerOk(t)
  {
    forall id | id in t.deliveries :: OutcomeRecorded(t, id)
  }

  lemma OutcomeFrame(t: Tables, t': Tables, id: string)
    requires SameRow(t, t', id) && RowOk(t, id) && RowOk(t', id) && OutcomeRecorded(t, id)
    ensures OutcomeRecorded(t', id)
  {
  }

  lemma CompletionRecordsLast(d: Delivery, a: Attempt, now: Time, attempt: int, report: Report)
    ensures
      var (state, next) := Transition(now, attempt, report);
      LastRecorded(SettledDelivery(d, now, report, state, next), FinishedAttempt(a, now, report, next))
  {
  }

  lemma CompletionRecordsOutcome(t: Tables, c: Claim, now: Time, report: Report)
    requires LedgerOk(t) && OwnsAttempt(t, c) && c.deliveryId in t.deliveries && RowOk(t, c.deliveryId)
    requires OutcomeRecorded(t, c.deliveryId)
    ensures c.deliveryId in AfterComplete(t, c, now, report).deliveries
    ensures RowOk(AfterComplete(t, c, now, report), c.deliveryId)
    ensures OutcomeRecorded(AfterComplete(t, c, now, report), c.deliveryId)
  {
    hide AfterComplete, LedgerOk, TouchesOnly, Superseded, LastRecorded, Transition, SettledDelivery, FinishedAttempt;
    CompletedAttempts(t, c, now, report);
    CompleteKeepsRowOk(t, c, now, report);
    var id, t' := c.deliveryId, AfterComplete(t, c, now, report);
    var last := Key(id, c.attempt);
    CompletionRecordsLast(t.deliveries[id], t.attempts[last], now, c.attempt, report);
    forall k: nat | 1 <= k < t'.deliveries[id].attemptCount
      ensures Superseded(t'.attempts[Key(id, k)], t'.attempts[Key(id, k + 1)])
    {
      FinishKeepsStart(t.attempts[Key(id, k)], t.attempts[last], now, report, Transition(now, c.attempt, report).1);
      assert Superseded(t.attempts[Key(id, k)], t.attempts[Key(id, k + 1)]);
    }
  }

  lemma FinishKeepsStart(a: Attempt, next: Attempt, now: Time, report: Report, due: Option<Time>)
    ensures Superseded(a, next) ==> Superseded(a, FinishedAttempt(next, now, report, due))
  {
  }

  /** Granting a delivery again closes its abandoned attempt, or finds one whose worker asked for the retry. */
  lemma GrantSupersedes(d: Delivery, last: Attempt, attemptId: string, now: Time)
    requires LastRecorded(d, last) && !d.state.Terminal() && !d.state.Pending?
    ensures Superseded(if d.state.InFlight? then LostAttempt(last, now) else last, StartedAttempt(attemptId, now))
  {
  }

  lemma LossKeepsStart(a: Attempt, next: Attempt, now: Time)
    ensures Superseded(a, next) ==> Superseded(a, LostAttempt(next, now))
  {
  }

  lemma GrantRecordsHistory(t: Tables, id: string, now: Time, lease: Duration, attemptId: string)
    requires id in t.deliveries && RowOk(t, id) && OutcomeRecorded(t, id) && Due(t.deliveries[id], now)
    requires id in AfterClaim(t, id, now, lease, attemptId).deliveries
    requires RowOk(AfterClaim(t, id, now, lease, attemptId), id)
    ensures OutcomeRecorded(AfterClaim(t, id, now, lease, attemptId), id)
  {
    var d, t' := t.deliveries[id], AfterClaim(t, id, now, lease, attemptId);
    var n := d.attemptCount;
    assert n == 0 <==> d.state.Pending?;
    assert t'.deliveries[id].state.InFlight? && t'.deliveries[id].attemptCount == n + 1;
    hide AfterClaim, RowOk, TouchesOnly, Superseded, LostAttempt;
    ClaimedAttempts(t, id, now, lease, attemptId);
    if n >= 1 {
      GrantSupersedes(d, t.attempts[Key(id, n)], attemptId, now);
    }
    forall k: nat | 1 <= k < n + 1 ensures Superseded(t'.attempts[Key(id, k)], t'.attempts[Key(id, k + 1)]) {
      if k < n {
        assert Superseded(t.attempts[Key(id, k)], t.attempts[Key(id, k + 1)]);
        LossKeepsStart(t.attempts[Key(id, k)], t.attempts[Key(id, k + 1)], now);
      }
    }
  }

  lemma GrantRecordsNothing(t: Tables, first: string, now: Time, lease: Duration, attemptId: string, id: string)
    requires first in t.deliveries && RowOk(t, first) && id in t.deliveries && RowOk(t, id) && OutcomeRecorded(t, id)
    requires Due(t.deliveries[first], now) && id in AfterClaim(t, first, now, lease, attemptId).deliveries
    requires RowOk(AfterClaim(t, first, now, lease, attemptId), id)
    ensures OutcomeRecorded(AfterClaim(t, first, now, lease, attemptId), id)
  {
    hide AfterClaim, RowOk, OutcomeRecorded;
    ClaimedAttempts(t, first, now, lease, attemptId);
    if id == first {
      GrantRecordsHistory(t, id, now, lease, attemptId);
    } else {
      OutcomeFrame(t, AfterClaim(t, first, now, lease, attemptId), id);
    }
  }

  lemma OtherStepsRecordNothing(w: World, a: Step, id: string)
    requires Enabled(w, a) && !a.Grant? && !a.Settle? && id in TablesAfter(w, a).deliveries
    ensures SameRow(w.tables, TablesAfter(w, a), id) || TablesAfter(w, a).deliveries[id].attemptCount == 0
  {
  }

  lemma RowsBefore(w: World, a: Step, id: string)
    requires Inv(w) && Enabled(w, a) && OutcomesRecorded(w.tables)
    ensures id in w.tables.deliveries ==> RowOk(w.tables, id) && OutcomeRecorded(w.tables, id)
    ensures a.Grant? ==> a.id in w.tables.deliveries && RowOk(w.tables, a.id)
    ensures !a.Insert? ==> TablesAfter(w, a).deliveries.Keys <= w.tables.deliveries.Keys
  {
    hide RowOk, OutcomeRecorded, AllChronological, ClaimsRecorded;
  }

  /** The row is one the step leaves alone, one it puts in flight or keeps there, a new one, or one it completes. */
  lemma StepRecordsOutcome(w: World, a: Step, id: string)
    requires Inv(w) && Enabled(w, a) && OutcomesRecorded(w.tables)
    requires id in TablesAfter(w, a).deliveries && RowOk(TablesAfter(w, a), id)
    ensures OutcomeRecorded(TablesAfter(w, a), id)
  {
    hide RowOk, Inv, OutcomesRecorded, AfterClaim, AfterRenew, AfterComplete, SameRow;
    RowsBefore(w, a, id);
    var t, t' := w.tables, TablesAfter(w, a);
    if a.Grant? {
      hide OutcomeRecorded;
      GrantRecordsNothing(t, a.id, w.sessions[a.session].now, w.sessions[a.session].lease, a.attemptId, id);
    } else if a.Settle? {
      hide OutcomeRecorded;
      SettleRecordsOutcome(w, a, id);
    } else {
      OtherStepsRecordNothing(w, a, id);
      if SameRow(t, t', id) {
        SameRowIsPresent(t, t', id);
        OutcomeFrame(t, t', id);
      }
    }
  }

  lemma SettleRecordsOutcome(w: World, a: Step, id: string)
    requires Inv(w) && Enabled(w, a) && a.Settle? && id in w.tables.deliveries && RowOk(w.tables, id)
    requires OutcomeRecorded(w.tables, id) && id in TablesAfter(w, a).deliveries && RowOk(TablesAfter(w, a), id)
    ensures OutcomeRecorded(TablesAfter(w, a), id)
  {
    var t, t', work := w.tables, TablesAfter(w, a), w.sessions[a.session];
    hide RowOk, AllChronological, ClaimsRecorded, OutcomeRecorded;
    if work.Renewing? {
      RenewRecordsNothing(t, work.claim, work.now, RenewedUntil(work.now, work.lease, work.databaseClock), id);
    } else if OwnsAttempt(t, work.claim) {
      CompletedAttempts(t, work.claim, work.now, work.report);
      hide AfterComplete;
      if id == work.claim.deliveryId {
        CompletionRecordsOutcome(t, work.claim, work.now, work.report);
      } else {
        OutcomeFrame(t, t', id);
      }
    }
  }

  lemma RenewRecordsNothing(t: Tables, c: Claim, now: Time, until: Time, id: string)
    requires id in t.deliveries && RowOk(t, id) && OutcomeRecorded(t, id)
    requires id in AfterRenew(t, c, now, until).deliveries && RowOk(AfterRenew(t, c, now, until), id)
    ensures OutcomeRecorded(AfterRenew(t, c, now, until), id)
  {
  }

  /**
   * In every reachable state the attempts of a delivery tell its history: each earlier one lost its lease and was
   * closed as such when the next one started, or its worker asked for a retry. A delivery that is neither pending nor
   * in flight was put into its state by the worker of its last attempt: state, status code, error code and times of
   * the row are those of that attempt.
   */
  lemma {:induction false} ReachableOutcomes(worlds: seq<World>, steps: seq<Step>, i: nat)
    requires Run(worlds, steps) && worlds[0] == EMPTY && i < |worlds|
    ensures LedgerOk(worlds[i].tables) && OutcomesRecorded(worlds[i].tables)
    decreases i
  {
    hide Run, Inv, AllChronological, Enabled, TablesAfter, ClaimsAfter, OutcomeRecorded, RowOk;
    ReachableStatesAreSound(worlds, steps, i);
    RunLength(worlds, steps);
    if i > 0 {
      ReachableOutcomes(worlds, steps, i - 1);
      RunStep(worlds, steps, i - 1);
      EmptyInv();
      RunKeepsInv(worlds, steps, i - 1);
      forall id | id in worlds[i].tables.deliveries ensures OutcomeRecorded(worlds[i].tables, id) {
        StepRecordsOutcome(worlds[i - 1], steps[i - 1], id);
      }
    }
  }

  // ----- completions -----

  /** Every column a completion with this report leaves in the attempt and in the row. */
  ghost predicate Honoured(d: Delivery, a: Attempt, attempt: int, now: Time, report: Report) {
    var o := NormalizedOutcome(report.outcome, report.sendErr);
    && a.outcome == Some(o) && a.finishedAt == Some(now) && a.durationNs == Some(report.duration)
    && a.statusCode == report.statusCode == d.lastStatusCode
    && a.errorCode == d.lastErrorCode == (if report.errorCode.Some? then report.errorCode else report.sendErr)
    && d.leaseExpiresAt.None? && d.updatedAt == now
    && (o == S.Delivered ==> d.state.Delivered?) && (o == S.DisableDestination ==> d.state.Disabled?)
    && (o == S.PermanentFailure ==> d.state.PermanentlyFailed?)
    && (o == S.Retry || o == S.Unrecognised ==>
          if report.policy.Retries(attempt) then d.state.Retrying? else d.state.Exhausted?)
    && (if d.state.Retrying?
        then
          var delay := report.policy.Delay(attempt);
          && d.completedAt.None? && a.nextAttemptAt == Some(d.nextAttemptAt) && now + delay <= d.nextAttemptAt
          && (report.retryAt == S.NO_TIME || report.retryAt <= d.nextAttemptAt)
          && (d.nextAttemptAt <= now + delay + delay / 5
              || (report.retryAt != S.NO_TIME && d.nextAttemptAt == report.retryAt))
        else d.completedAt == Some(now) && a.nextAttemptAt.None?)
  }

  lemma SettlingHonours(d: Delivery, a: Attempt, attempt: int, now: Time, report: Report)
    ensures
      var (state, next) := Transition(now, attempt, report);
      var d', a' := SettledDelivery(d, now, report, state, next), FinishedAttempt(a, now, report, next);
      Honoured(d', a', attempt, now, report)
  {
    hide NormalizedOutcome;
  }

  /**
   * Over every run an owned completion does what its report calls for: success, refusal and disablement are final, and
   * any other outcome is retried exactly as long as the policy allows the attempt, when the policy or the destination
   * says; attempt and row record the report column by column.
   */
  lemma CompletionsAreHonoured(worlds: seq<World>, steps: seq<Step>, n: nat, c: Claim)
    requires Run(worlds, steps) && worlds[0] == EMPTY && n < |steps|
    requires steps[n].Settle? && steps[n].session in worlds[n].sessions
    requires worlds[n].sessions[steps[n].session].Completing? && worlds[n].sessions[steps[n].session].claim == c
    requires OwnsAttempt(worlds[n].tables, c)
    ensures
      var work, t' := worlds[n].sessions[steps[n].session], worlds[n + 1].tables;
      && c.deliveryId in t'.deliveries && Key(c.deliveryId, c.attempt) in t'.attempts
      && Honoured(t'.deliveries[c.deliveryId], t'.attempts[Key(c.deliveryId, c.attempt)],
                  c.attempt, work.now, work.report)
  {
    hide Run, Inv, AfterComplete, Honoured, Transition, SettledDelivery, FinishedAttempt, RowOk;
    RunLength(worlds, steps);
    ReachableStatesAreSound(worlds, steps, n);
    RunStep(worlds, steps, n);
    var w := worlds[n];
    var work := w.sessions[steps[n].session];
    CompletedAttempts(w.tables, c, work.now, work.report);
    SettlingHonours(
      w.tables.deliveries[c.deliveryId], w.tables.attempts[Key(c.deliveryId, c.attempt)],
      c.attempt, work.now, work.report);
  }

  // ----- waiting -----

  /** When the row of a delivery that is not finished becomes due. */
  function DueTime(d: Delivery): Option<Time> {
    if d.state.Terminal() then None
    else if d.state.InFlight? then d.leaseExpiresAt
    else Some(d.nextAttemptAt)
  }

  /**
   * Nothing is forgotten: in every reachable state a delivery can be claimed by a worker that reads the clock from its
   * due time on, and by no other; it has such a time exactly while it is not finished.
   */
  lemma EveryDeliveryComesDue(worlds: seq<World>, steps: seq<Step>, n: nat, id: string, now: Time)
    requires Run(worlds, steps) && worlds[0] == EMPTY && n < |worlds| && id in worlds[n].tables.deliveries
    ensures
      var d := worlds[n].tables.deliveries[id];
      && (DueTime(d).Some? <==> !d.state.Terminal())
      && (Claimable(worlds[n].tables, id, now) <==> DueTime(d).Some? && DueTime(d).value <= now)
  {
    hide Run;
    ReachableStatesAreSound(worlds, steps, n);
    assert RowOk(worlds[n].tables, id);
  }

  /** No delivery is removed before it has been finished for as long as its cleanup keeps it. */
  lemma DeliveriesAreRetained(worlds: seq<World>, steps: seq<Step>, n: nat, id: string)
    requires Run(worlds, steps) && worlds[0] == EMPTY && n < |steps|
    requires id in worlds[n].tables.deliveries && id !in worlds[n + 1].tables.deliveries
    ensures steps[n].Purge? && steps[n].session in worlds[n].sessions && worlds[n].sessions[steps[n].session].Cleaning?
    ensures
      var d, keeping := worlds[n].tables.deliveries[id], worlds[n].sessions[steps[n].session].keeping;
      && d.state.Terminal() && d.completedAt.Some?
      && d.completedAt.value + (if d.state.Delivered? then keeping.delivered else keeping.failed) < worlds[n].clock
  {
    hide Run, LedgerOk, AllChronological, ClaimsRecorded, TablesAfter, ClaimsAfter, MayGo;
    EmptyInv();
    RunLength(worlds, steps);
    RunKeepsInv(worlds, steps, n);
    RunStep(worlds, steps, n);
    LostRowsWerePurged(worlds[n], steps[n], id);
    assert SessionOk(worlds[n], worlds[n].sessions[steps[n].session]);
  }

  lemma LostRowsWerePurged(w: World, a: Step, id: string)
    requires Enabled(w, a) && id in w.tables.deliveries && id !in TablesAfter(w, a).deliveries
    ensures a.Purge? && id in a.deliveries
    ensures
      var d, work := w.tables.deliveries[id], w.sessions[a.session];
      && d.state.Terminal() && d.completedAt.Some?
      && d.completedAt.value + (if d.state.Delivered? then work.keeping.delivered else work.keeping.failed) < work.now
  {
    hide Contradicted, InsertAllowed, Transition, SettledDelivery, FinishedAttempt;
  }
}
