/** Termination and fairness over every run of the outbound protocol. */
module OutboxProgress {
  import opened GoTime
  import opened Sets
  import opened Outbox
  import opened Ledger
  import opened OutboxRuns
  import opened OutboxTheorems

  // ----- progress -----

  /** What is left of a delivery's life: two transitions per attempt, with credit for lost leases. */
  ghost function Remaining(t: Tables, id: string, max: int): int
    requires id in t.deliveries && RowOk(t, id)
  {
    var d := t.deliveries[id];
    if d.state.Terminal() then 0
    else 2 * (max + LeasesLost(t, id, d.attemptCount) - d.attemptCount) + (if d.state.InFlight? then 1 else 0)
  }

  lemma {:induction false} LeasesLostFrame(t: Tables, t': Tables, id: string, n: nat)
    requires forall k: nat | 1 <= k <= n :: Key(id, k) in t.attempts && Key(id, k) in t'.attempts
    requires forall k: nat | 1 <= k <= n :: t.attempts[Key(id, k)].LeaseLost() == t'.attempts[Key(id, k)].LeaseLost()
    ensures LeasesLost(t, id, n) == LeasesLost(t', id, n)
  {
    if n > 0 {
      LeasesLostFrame(t, t', id, n - 1);
    }
  }

  lemma GrantLosesNoLease(t: Tables, id: string, now: Time, lease: Duration, attemptId: string)
    requires id in t.deliveries && RowOk(t, id) && t.deliveries[id].state.Queued()
    requires RowOk(AfterClaim(t, id, now, lease, attemptId), id)
    ensures
      var t', n := AfterClaim(t, id, now, lease, attemptId), t.deliveries[id].attemptCount;
      LeasesLost(t', id, n + 1) == LeasesLost(t, id, n)
  {
    var t', n := AfterClaim(t, id, now, lease, attemptId), t.deliveries[id].attemptCount;
    ClaimedAttempts(t, id, now, lease, attemptId);
    hide AfterClaim;
    LeasesLostFrame(t, t', id, n);
  }

  /** Granting a queued delivery uses up part of its remaining life. */
  lemma GrantProgress(t: Tables, id: string, now: Time, lease: Duration, attemptId: string, max: int)
    requires LedgerOk(t) && id in t.deliveries && t.deliveries[id].state.Queued() && Due(t.deliveries[id], now)
    requires AllBudgeted(t, max) && max >= 1
    ensures RowOk(t, id) && RowOk(AfterClaim(t, id, now, lease, attemptId), id)
    ensures 0 <= Remaining(AfterClaim(t, id, now, lease, attemptId), id, max) < Remaining(t, id, max)
  {
    assert RowOk(t, id) && Budgeted(t, id, max);
    ClaimKeepsRow(t, id, now, lease, attemptId);
    GrantLosesNoLease(t, id, now, lease, attemptId);
    hide RowOk, Budgeted, LeasesLost;
    AttemptBudget(AfterClaim(t, id, now, lease, attemptId), id, max);
  }

  lemma CompletionLosesNoLease(t: Tables, c: Claim, now: Time, report: Report)
    requires LedgerOk(t) && OwnsAttempt(t, c) && c.deliveryId in t.deliveries && RowOk(t, c.deliveryId)
    ensures c.deliveryId in AfterComplete(t, c, now, report).deliveries
    ensures RowOk(AfterComplete(t, c, now, report), c.deliveryId)
    ensures
      var id, t' := c.deliveryId, AfterComplete(t, c, now, report);
      && t.deliveries[id].attemptCount == t'.deliveries[id].attemptCount == c.attempt
      && t.deliveries[id].state.InFlight? && !t'.deliveries[id].state.InFlight?
      && LeasesLost(t', id, c.attempt) == LeasesLost(t, id, c.attempt)
  {
    hide AfterComplete, LedgerOk, TouchesOnly, Transition;
    CompletedAttempts(t, c, now, report);
    CompleteKeepsRowOk(t, c, now, report);
    TransitionLooksAhead(now, c.attempt, report);
    LeasesLostFrame(t, AfterComplete(t, c, now, report), c.deliveryId, c.attempt);
  }

  /** Completing an owned claim uses up part of the remaining life, and a retry leaves some. */
  lemma CompletionProgress(t: Tables, c: Claim, now: Time, report: Report)
    requires LedgerOk(t) && OwnsAttempt(t, c) && c.deliveryId in t.deliveries
    requires AllBudgeted(t, report.policy.EffectiveMax())
    ensures RowOk(t, c.deliveryId) && c.deliveryId in AfterComplete(t, c, now, report).deliveries
    ensures RowOk(AfterComplete(t, c, now, report), c.deliveryId)
    ensures
      var max := report.policy.EffectiveMax();
      0 <= Remaining(AfterComplete(t, c, now, report), c.deliveryId, max) < Remaining(t, c.deliveryId, max)
  {
    var t', id, max := AfterComplete(t, c, now, report), c.deliveryId, report.policy.EffectiveMax();
    assert RowOk(t, id) && Budgeted(t, id, max);
    hide RowOk, Budgeted, LedgerOk, AfterComplete, AllBudgeted, LeasesLost, OwnsAttempt;
    CompleteKeepsRow(t, c, now, report);
    CompletionLosesNoLease(t, c, now, report);
    AttemptBudget(t, id, max);
    AttemptBudget(t', id, max);
  }

  lemma SameRowKeepsRemaining(t: Tables, t': Tables, id: string, max: int)
    requires SameRow(t, t', id) && RowOk(t, id) && RowOk(t', id)
    ensures Remaining(t', id, max) == Remaining(t, id, max)
  {
    LeasesLostFrame(t, t', id, t.deliveries[id].attemptCount);
  }

  lemma RenewKeepsCounts(t: Tables, c: Claim, now: Time, until: Time, id: string)
    requires id in t.deliveries
    ensures
      var t' := AfterRenew(t, c, now, until);
      && t'.attempts == t.attempts && id in t'.deliveries
      && t'.deliveries[id].state == t.deliveries[id].state
      && t'.deliveries[id].attemptCount == t.deliveries[id].attemptCount
  {
  }

  lemma RenewKeepsRemaining(t: Tables, c: Claim, now: Time, until: Time, id: string, max: int)
    requires id in t.deliveries && id in AfterRenew(t, c, now, until).deliveries
    requires RowOk(t, id) && RowOk(AfterRenew(t, c, now, until), id)
    ensures Remaining(AfterRenew(t, c, now, until), id, max) == Remaining(t, id, max)
  {
    hide AfterRenew;
    RenewKeepsCounts(t, c, now, until, id);
    LeasesLostFrame(t, AfterRenew(t, c, now, until), id, t.deliveries[id].attemptCount);
  }

  /** Granting a delivery whose lease was lost replaces one attempt by another and is paid for by the lost lease. */
  lemma RegrantKeepsRemaining(t: Tables, id: string, now: Time, lease: Duration, attemptId: string, max: int)
    requires id in t.deliveries && RowOk(t, id) && t.deliveries[id].state.InFlight? && Budgeted(t, id, max)
    requires RowOk(AfterClaim(t, id, now, lease, attemptId), id)
    ensures Remaining(AfterClaim(t, id, now, lease, attemptId), id, max) == Remaining(t, id, max)
  {
    var t', n := AfterClaim(t, id, now, lease, attemptId), t.deliveries[id].attemptCount;
    ClaimedAttempts(t, id, now, lease, attemptId);
    hide AfterClaim;
    LeasesLostFrame(t, t', id, n - 1);
    assert LeasesLost(t, id, n) == LeasesLost(t, id, n - 1);
    assert LeasesLost(t', id, n) == LeasesLost(t', id, n - 1) + 1;
    assert LeasesLost(t', id, n + 1) == LeasesLost(t', id, n);
  }

  /** The step grants the queued delivery `id`, or completes its current attempt. */
  ghost predicate Advances(w: World, a: Step, id: string) {
    || (a.Grant? && a.id == id && id in w.tables.deliveries && w.tables.deliveries[id].state.Queued())
    || (a.Settle? && a.session in w.sessions && w.sessions[a.session].Completing?
        && w.sessions[a.session].claim.deliveryId == id && OwnsAttempt(w.tables, w.sessions[a.session].claim))
  }

  ghost predicate Keeps(t: Tables, t': Tables, id: string, max: int, moves: nat) {
    && id in t.deliveries && id in t'.deliveries && RowOk(t, id) && RowOk(t', id)
    && Remaining(t', id, max) + moves <= Remaining(t, id, max)
  }

  lemma GrantKeepsRemaining(w: World, a: Step, id: string, max: int)
    requires Inv(w) && Enabled(w, a) && a.Grant? && BudgetInv(w, max) && max >= 1 && id in w.tables.deliveries
    requires LedgerOk(TablesAfter(w, a))
    ensures Keeps(w.tables, TablesAfter(w, a), id, max, if Advances(w, a, id) then 1 else 0)
  {
    var t, now, lease := w.tables, w.sessions[a.session].now, w.sessions[a.session].lease;
    assert RowOk(t, id) && RowOk(TablesAfter(w, a), id) && RowOk(t, a.id);
    assert Budgeted(t, id, max);
    ClaimedAttempts(t, a.id, now, lease, a.attemptId);
    hide RowOk, AllChronological, ClaimsRecorded, Budgeted, AfterClaim, Remaining;
    if id != a.id {
      SameRowKeepsRemaining(t, TablesAfter(w, a), id, max);
    } else if t.deliveries[id].state.InFlight? {
      RegrantKeepsRemaining(t, id, now, lease, a.attemptId, max);
    } else {
      GrantProgress(t, id, now, lease, a.attemptId, max);
    }
  }

  lemma CompleteKeepsRemaining(w: World, a: Step, id: string, max: int)
    requires Inv(w) && Enabled(w, a) && a.Settle? && w.sessions[a.session].Completing?
    requires BudgetInv(w, max) && max >= 1 && id in w.tables.deliveries && LedgerOk(TablesAfter(w, a))
    ensures Keeps(w.tables, TablesAfter(w, a), id, max, if Advances(w, a, id) then 1 else 0)
  {
    var t, c := w.tables, w.sessions[a.session].claim;
    var now, report := w.sessions[a.session].now, w.sessions[a.session].report;
    var t' := TablesAfter(w, a);
    assert RowOk(t, id) && t' == AfterComplete(t, c, now, report);
    hide RowOk, AllChronological, ClaimsRecorded, Remaining, Budgeted, Transition, FinishedAttempt, SettledDelivery;
    if OwnsAttempt(t, c) {
      CompletedAttempts(t, c, now, report);
      hide AfterComplete;
      if id == c.deliveryId {
        CompletionProgress(t, c, now, report);
      } else {
        SameRowKeepsRemaining(t, t', id, max);
      }
    }
  }

  lemma OtherStepsKeepRow(w: World, a: Step, id: string)
    requires Enabled(w, a) && !a.Grant? && !a.Settle? && id in w.tables.deliveries && !(a.Purge? && id in a.deliveries)
    ensures SameRow(w.tables, TablesAfter(w, a), id)
  {
  }

  lemma OtherStepsKeepRemaining(w: World, a: Step, id: string, max: int)
    requires Inv(w) && Enabled(w, a) && !a.Grant? && !(a.Settle? && w.sessions[a.session].Completing?)
    requires id in w.tables.deliveries && LedgerOk(TablesAfter(w, a)) && !(a.Purge? && id in a.deliveries)
    ensures Keeps(w.tables, TablesAfter(w, a), id, max, 0)
  {
    var t, t' := w.tables, TablesAfter(w, a);
    assert RowOk(t, id);
    hide RowOk, AllChronological, ClaimsRecorded, Remaining, AfterRenew, SameRow;
    if a.Settle? {
      var work := w.sessions[a.session];
      var until := RenewedUntil(work.now, work.lease, work.databaseClock);
      RenewKeepsCounts(t, work.claim, work.now, until, id);
      RenewKeepsRemaining(t, work.claim, work.now, until, id, max);
    } else {
      OtherStepsKeepRow(w, a, id);
      RowIsPresent(t, t', id);
      SameRowKeepsRemaining(t, t', id, max);
    }
  }

  lemma RowIsPresent(t: Tables, t': Tables, id: string)
    requires SameRow(t, t', id) && LedgerOk(t')
    ensures id in t'.deliveries && RowOk(t', id)
  {
  }

  /** No step adds to what is left of a delivery's life, and a step that advances the delivery takes from it. */
  lemma StepKeepsRemaining(w: World, a: Step, id: string, max: int)
    requires Inv(w) && Enabled(w, a) && BudgetInv(w, max) && max >= 1
    requires id in w.tables.deliveries && !(a.Purge? && id in a.deliveries)
    ensures Keeps(w.tables, TablesAfter(w, a), id, max, if Advances(w, a, id) then 1 else 0)
  {
    StepKeepsTables(w, a);
    hide Keeps, LedgerOk, AllChronological, ClaimsRecorded, TablesAfter, BudgetInv;
    if a.Grant? {
      GrantKeepsRemaining(w, a, id, max);
    } else if a.Settle? && w.sessions[a.session].Completing? {
      CompleteKeepsRemaining(w, a, id, max);
    } else {
      OtherStepsKeepRemaining(w, a, id, max);
    }
  }

  /** How many of the steps from `i` to `j` advance the delivery. */
  ghost function AdvanceCount(worlds: seq<World>, steps: seq<Step>, id: string, i: nat, j: nat): nat
    requires i <= j <= |steps| < |worlds|
    decreases j
  {
    if j == i then 0
    else AdvanceCount(worlds, steps, id, i, j - 1) + (if Advances(worlds[j - 1], steps[j - 1], id) then 1 else 0)
  }

  /** What is left is at most two transitions per allowed attempt, and nothing exactly for a terminal delivery. */
  lemma RemainingRange(t: Tables, id: string, max: int)
    requires id in t.deliveries && RowOk(t, id) && Budgeted(t, id, max) && max >= 1
    ensures 0 <= Remaining(t, id, max) <= 2 * max
    ensures Remaining(t, id, max) == 0 <==> t.deliveries[id].state.Terminal()
  {
    AttemptBudget(t, id, max);
  }

  lemma ReachableRemaining(worlds: seq<World>, steps: seq<Step>, max: int, i: nat, id: string)
    requires Run(worlds, steps) && worlds[0] == EMPTY && OnePolicy(steps, max) && max >= 1
    requires i < |worlds| && id in worlds[i].tables.deliveries
    ensures RowOk(worlds[i].tables, id)
    ensures 0 <= Remaining(worlds[i].tables, id, max) <= 2 * max
    ensures Remaining(worlds[i].tables, id, max) == 0 <==> worlds[i].tables.deliveries[id].state.Terminal()
  {
    RunKeepsBudget(worlds, steps, max, i);
    assert RowOk(worlds[i].tables, id) && Budgeted(worlds[i].tables, id, max);
    hide Run, RowOk, Budgeted, BudgetInv, LedgerOk;
    RemainingRange(worlds[i].tables, id, max);
  }

  lemma LifeOverStep(worlds: seq<World>, steps: seq<Step>, max: int, j: nat, id: string)
    requires Run(worlds, steps) && worlds[0] == EMPTY && OnePolicy(steps, max) && max >= 1
    requires j < |steps| && id in worlds[j].tables.deliveries && !(steps[j].Purge? && id in steps[j].deliveries)
    ensures Keeps(worlds[j].tables, worlds[j + 1].tables, id, max, if Advances(worlds[j], steps[j], id) then 1 else 0)
  {
    hide Run, Inv, Enabled, TablesAfter, BudgetInv, Keeps, Advances;
    RunLength(worlds, steps);
    EmptyInv();
    RunKeepsInv(worlds, steps, j);
    RunKeepsBudget(worlds, steps, max, j);
    RunStep(worlds, steps, j);
    StepKeepsRemaining(worlds[j], steps[j], id, max);
  }

  /**
   * Termination: over any stretch of any run, the grants from the queue and the completions of one delivery number at
   * most what its life shrinks by, so at most 2 * max in all; lost leases, and whatever happens to other deliveries,
   * neither shorten nor lengthen that life, and it is used up exactly when the delivery is terminal.
   */
  lemma {:induction false} LifeIsBounded(worlds: seq<World>, steps: seq<Step>, max: int, i: nat, j: nat, id: string)
    requires Run(worlds, steps) && worlds[0] == EMPTY && OnePolicy(steps, max) && max >= 1
    requires i <= j < |worlds| && id in worlds[i].tables.deliveries
    requires forall k | i <= k < j :: !(steps[k].Purge? && id in steps[k].deliveries)
    ensures id in worlds[j].tables.deliveries && RowOk(worlds[i].tables, id) && RowOk(worlds[j].tables, id)
    ensures
      var left, left' := Remaining(worlds[i].tables, id, max), Remaining(worlds[j].tables, id, max);
      && AdvanceCount(worlds, steps, id, i, j) + left' <= left <= 2 * max
      && 0 <= left' && (left' == 0 <==> worlds[j].tables.deliveries[id].state.Terminal())
    decreases j
  {
    hide Run, Inv, BudgetInv, RowOk, Remaining, Advances, OnePolicy, LedgerOk, Enabled, After;
    RunLength(worlds, steps);
    ReachableRemaining(worlds, steps, max, i, id);
    if i < j {
      LifeIsBounded(worlds, steps, max, i, j - 1, id);
      LifeOverStep(worlds, steps, max, j - 1, id);
      ReachableRemaining(worlds, steps, max, j, id);
    }
  }

  // ----- bounded overtaking -----

  /** The queued rows a claim may prefer to `id`: ordered before it or tied with it. */
  ghost function AheadOf(t: Tables, id: string): set<string>
    requires id in t.deliveries
  {
    set other | other in t.deliveries && other != id && t.deliveries[other].state.Queued()
             && NotAfter(t.deliveries[other], t.deliveries[id])
  }

  ghost predicate Waiting(w: World, id: string, due: Time) {
    id in w.tables.deliveries && w.tables.deliveries[id].state.Queued() && w.tables.deliveries[id].nextAttemptAt == due
  }

  /** Sessions that read the clock no later than `due` and may still publish or reschedule a row by that reading. */
  ghost function Stale(w: World, due: Time): set<nat> {
    set s | s in w.sessions && (w.sessions[s].Publishing? || w.sessions[s].Completing?) && w.sessions[s].now <= due
  }

  ghost predicate NoLeaseExpiry(w: World, a: Step)
    requires Enabled(w, a)
  {
    a.Grant? ==> w.tables.deliveries[a.id].state.Queued()
  }

  /** How many claims the first `n` steps grant. */
  ghost function GrantCount(steps: seq<Step>, n: nat): nat
    requires n <= |steps|
  {
    if n == 0 then 0 else GrantCount(steps, n - 1) + (if steps[n - 1].Grant? then 1 else 0)
  }

  lemma FirstDueIsAhead(t: Tables, first: string, now: Time, id: string)
    requires References(t) && FirstDue(t, first, now) && t.deliveries[first].state.Queued()
    requires id in t.deliveries && t.deliveries[id].state.Queued() && first != id
    ensures first in AheadOf(t, id)
  {
    assert Claimable(t, id, now) <==> t.deliveries[id].nextAttemptAt <= now;
  }

  lemma ClaimLeavesQueue(t: Tables, first: string, now: Time, lease: Duration, attemptId: string, id: string)
    requires first in t.deliveries && id in t.deliveries && first != id
    ensures
      var t' := AfterClaim(t, first, now, lease, attemptId);
      t'.deliveries[id] == t.deliveries[id] && AheadOf(t', id) == AheadOf(t, id) - {first}
  {
    hide CloseAbandoned;
  }

  lemma GrantTakesRowAhead(w: World, a: Step, id: string, due: Time)
    requires Inv(w) && Enabled(w, a) && Waiting(w, id, due) && a.Grant? && a.id != id && NoLeaseExpiry(w, a)
    ensures a.id in AheadOf(w.tables, id)
    ensures Waiting(After(w, a), id, due) && After(w, a).tables.deliveries[id] == w.tables.deliveries[id]
    ensures AheadOf(After(w, a).tables, id) == AheadOf(w.tables, id) - {a.id}
  {
    hide AheadOf, RowOk, Chronological;
    assert FirstDue(w.tables, a.id, w.sessions[a.session].now);
    FirstDueIsAhead(w.tables, a.id, w.sessions[a.session].now, id);
    ClaimLeavesQueue(w.tables, a.id, w.sessions[a.session].now, w.sessions[a.session].lease, a.attemptId, id);
  }

  /** `t'` moves no queued row other than `mover` to a place ahead of `id`. */
  ghost predicate OnlyMovedAhead(t: Tables, t': Tables, id: string, due: Time, mover: string) {
    && id in t.deliveries && id in t'.deliveries && t'.deliveries[id] == t.deliveries[id]
    && forall other | other in t'.deliveries && t'.deliveries[other].state.Queued() && other != mover ::
         || t'.deliveries[other].nextAttemptAt > due
         || (other in t.deliveries && t'.deliveries[other] == t.deliveries[other])
  }

  /** The mover, too, stays behind `id` when it is scheduled past `due`. */
  ghost predicate NoneMovedAhead(t: Tables, t': Tables, id: string, due: Time) {
    && id in t.deliveries && id in t'.deliveries && t'.deliveries[id] == t.deliveries[id]
    && forall other | other in t'.deliveries && t'.deliveries[other].state.Queued() ::
         || t'.deliveries[other].nextAttemptAt > due
         || (other in t.deliveries && t'.deliveries[other] == t.deliveries[other])
  }

  lemma CompleteMovesOneAhead(t: Tables, c: Claim, now: Time, report: Report, id: string, due: Time)
    requires LedgerOk(t) && id in t.deliveries && t.deliveries[id].state.Queued()
    ensures OnlyMovedAhead(t, AfterComplete(t, c, now, report), id, due, c.deliveryId)
    ensures now > due ==> NoneMovedAhead(t, AfterComplete(t, c, now, report), id, due)
  {
    hide RowOk;
    OwnerHoldsLease(t, c);
  }

  lemma InsertMovesOneAhead(
    t: Tables, r: Request, messageId: string, deliveryId: string, now: Time, id: string, due: Time)
    requires InsertAllowed(t, r, messageId, deliveryId) && id in t.deliveries
    ensures OnlyMovedAhead(t, AfterInsert(t, r, messageId, deliveryId, now), id, due, deliveryId)
    ensures now > due ==> NoneMovedAhead(t, AfterInsert(t, r, messageId, deliveryId, now), id, due)
  {
  }

  lemma RenewMovesNoneAhead(t: Tables, c: Claim, now: Time, until: Time, id: string, due: Time)
    requires id in t.deliveries && t.deliveries[id].state.Queued()
    ensures NoneMovedAhead(t, AfterRenew(t, c, now, until), id, due)
  {
  }

  lemma AheadAfterMoves(t: Tables, t': Tables, id: string, due: Time, mover: string)
    requires id in t.deliveries && t.deliveries[id].nextAttemptAt == due
    ensures NoneMovedAhead(t, t', id, due) ==> AheadOf(t', id) <= AheadOf(t, id)
    ensures OnlyMovedAhead(t, t', id, due, mover) ==> AheadOf(t', id) <= AheadOf(t, id) + {mover}
  {
  }

  /** The places ahead of the waiting row, taken or still to be taken by a stalled session. */
  ghost function Places(w: World, id: string, due: Time): nat
    requires id in w.tables.deliveries
  {
    |AheadOf(w.tables, id)| + |Stale(w, due)|
  }

  /** A step that leaves the queue ahead as it is, or moves one row ahead at the expense of one stalled session. */
  lemma PlacesAfter(w: World, w': World, id: string, due: Time, session: nat, mover: string)
    requires id in w.tables.deliveries && id in w'.tables.deliveries
    requires Stale(w', due) <= Stale(w, due)
    requires AheadOf(w'.tables, id) <= AheadOf(w.tables, id)
      || (AheadOf(w'.tables, id) <= AheadOf(w.tables, id) + {mover}
          && session in Stale(w, due) && session !in Stale(w', due))
    ensures Places(w', id, due) <= Places(w, id, due)
  {
    var ahead, ahead' := AheadOf(w.tables, id), AheadOf(w'.tables, id);
    var stale, stale' := Stale(w, due), Stale(w', due);
    hide AheadOf, Stale;
    SubsetIsSmaller(stale', stale);
    if ahead' <= ahead {
      SubsetIsSmaller(ahead', ahead);
    } else {
      SubsetIsSmaller(ahead', ahead + {mover});
      SubsetIsSmaller(stale' + {session}, stale);
    }
  }

  lemma StaleAfterStep(w: World, a: Step, due: Time)
    requires Enabled(w, a) && w.clock > due
    ensures After(w, a).clock > due && Stale(After(w, a), due) <= Stale(w, due)
    ensures (a.Settle? || a.Insert?) ==> a.session !in Stale(After(w, a), due)
    ensures a.Grant? ==> Stale(After(w, a), due) == Stale(w, due)
  {
    hide TablesAfter, ClaimsAfter;
  }

  lemma SettleKeepsPlaces(w: World, a: Step, id: string, due: Time)
    requires Inv(w) && Enabled(w, a) && a.Settle? && Waiting(w, id, due) && w.clock > due
    ensures Waiting(After(w, a), id, due) && Places(After(w, a), id, due) <= Places(w, id, due)
  {
    var t, t', work := w.tables, After(w, a).tables, w.sessions[a.session];
    StaleAfterStep(w, a, due);
    hide LedgerOk, AllChronological, ClaimsRecorded, AfterRenew, AfterComplete, AheadOf;
    if work.Renewing? {
      RenewMovesNoneAhead(t, work.claim, work.now, RenewedUntil(work.now, work.lease, work.databaseClock), id, due);
    } else {
      CompleteMovesOneAhead(t, work.claim, work.now, work.report, id, due);
    }
    AheadAfterMoves(t, t', id, due, work.claim.deliveryId);
    PlacesAfter(w, After(w, a), id, due, a.session, work.claim.deliveryId);
  }

  lemma InsertKeepsPlaces(w: World, a: Step, id: string, due: Time)
    requires Inv(w) && Enabled(w, a) && a.Insert? && Waiting(w, id, due) && w.clock > due
    ensures Waiting(After(w, a), id, due) && Places(After(w, a), id, due) <= Places(w, id, due)
  {
    var t, t', work := w.tables, After(w, a).tables, w.sessions[a.session];
    StaleAfterStep(w, a, due);
    InsertMovesOneAhead(t, work.request, a.messageId, a.deliveryId, work.now, id, due);
    hide LedgerOk, AllChronological, ClaimsRecorded, AfterInsert, AheadOf;
    AheadAfterMoves(t, t', id, due, a.deliveryId);
    PlacesAfter(w, After(w, a), id, due, a.session, a.deliveryId);
  }

  lemma OtherStepsMoveNoneAhead(w: World, a: Step, id: string, due: Time)
    requires Enabled(w, a) && !a.Grant? && !a.Settle? && !a.Insert? && Waiting(w, id, due)
    ensures NoneMovedAhead(w.tables, After(w, a).tables, id, due) && Waiting(After(w, a), id, due)
  {
  }

  lemma OtherStepsKeepPlaces(w: World, a: Step, id: string, due: Time)
    requires Inv(w) && Enabled(w, a) && !a.Grant? && !a.Settle? && !a.Insert? && Waiting(w, id, due) && w.clock > due
    ensures Waiting(After(w, a), id, due) && Places(After(w, a), id, due) <= Places(w, id, due)
  {
    hide LedgerOk, AllChronological, ClaimsRecorded, AheadOf, NoneMovedAhead, Stale, After;
    StaleAfterStep(w, a, due);
    OtherStepsMoveNoneAhead(w, a, id, due);
    AheadAfterMoves(w.tables, After(w, a).tables, id, due, id);
    PlacesAfter(w, After(w, a), id, due, 0, id);
  }

  lemma GrantTakesPlace(w: World, a: Step, id: string, due: Time)
    requires Inv(w) && Enabled(w, a) && a.Grant? && a.id != id && NoLeaseExpiry(w, a)
    requires Waiting(w, id, due) && w.clock > due
    ensures Waiting(After(w, a), id, due) && Places(After(w, a), id, due) == Places(w, id, due) - 1
  {
    StaleAfterStep(w, a, due);
    GrantTakesRowAhead(w, a, id, due);
  }

  /**
   * Bounded overtaking: once the clock is past the due time of a queued row, and while no lease expires, the claims
   * granted before it is claimed number at most the rows ahead of it or tied with it at the start, plus the
   * publishers and completers that had read the clock by its due time and were stalled; whatever else is enqueued or
   * retried does not count. `Places` bounds what is left of that.
   */
  lemma {:induction false} BoundedOvertaking(worlds: seq<World>, steps: seq<Step>, id: string, due: Time, n: nat)
    requires Run(worlds, steps) && Inv(worlds[0]) && n <= |steps|
    requires Waiting(worlds[0], id, due) && worlds[0].clock > due
    requires forall i | 0 <= i < n :: Enabled(worlds[i], steps[i]) && NoLeaseExpiry(worlds[i], steps[i])
    requires forall i | 0 <= i < n :: !(steps[i].Grant? && steps[i].id == id)
    ensures Waiting(worlds[n], id, due) && worlds[n].clock > due
    ensures GrantCount(steps, n) + Places(worlds[n], id, due)
         <= |AheadOf(worlds[0].tables, id)| + |Stale(worlds[0], due)|
  {
    hide Inv, Enabled, After, NoLeaseExpiry;
    if n > 0 {
      BoundedOvertaking(worlds, steps, id, due, n - 1);
      var w, a := worlds[n - 1], steps[n - 1];
      RunKeepsInv(worlds, steps, n - 1);
      StaleAfterStep(w, a, due);
      hide AheadOf, Stale, Waiting;
      if a.Grant? {
        GrantTakesPlace(w, a, id, due);
      } else if a.Settle? {
        SettleKeepsPlaces(w, a, id, due);
      } else if a.Insert? {
        InsertKeepsPlaces(w, a, id, due);
      } else {
        OtherStepsKeepPlaces(w, a, id, due);
      }
    }
  }
}
