/** Termination and fairness over every run of the inbound protocol. */
module InboxProgress {
  import opened Common
  import opened GoTime
  import opened Sets
  import opened Inbox
  import opened InboxRuns
  import opened InboxTheorems
  import S = Scheduling
  import O = Outbox

  // ----- progress -----

  /** What is left of a receipt's life: two transitions per attempt the policy allows; lost leases earn no credit. */
  function Remaining(r: Receipt, max: int): int {
    if r.state.Terminal() then 0
    else if r.state.Queued() then 2 * (max - r.attemptCount)
    else if r.attemptCount < max then 2 * (max - r.attemptCount) + 1
    else 1
  }

  /** The step grants the queued receipt, or completes the attempt it is being processed under. */
  ghost predicate Advances(w: World, a: Step, key: ReceiptKey) {
    || (a.Take? && a.key == key && key in w.rows && w.rows[key].state.Queued())
    || (a.Settle? && a.session in w.sessions && w.sessions[a.session].Completing?
        && w.sessions[a.session].grant.claim.key == key && Answers(w.rows, w.sessions[a.session].grant.claim))
  }

  ghost predicate Keeps(rows: Receipts, rows': Receipts, key: ReceiptKey, max: int, moves: nat) {
    && key in rows && key in rows'
    && 0 <= Remaining(rows'[key], max) && Remaining(rows'[key], max) + moves <= Remaining(rows[key], max)
  }

  lemma RemainingRange(r: Receipt, max: int)
    requires max >= 1 && (r.state.Queued() ==> r.attemptCount < max) && (r.attemptCount == 0 ==> r.state.Pending?)
    ensures 0 <= Remaining(r, max) <= 2 * max && (Remaining(r, max) == 0 <==> r.state.Terminal())
  {
  }

  lemma TakeAdvances(w: World, a: Step, key: ReceiptKey, max: int)
    requires Enabled(w, a) && a.Take? && key in w.rows && max >= 1
    requires w.rows[key].state.Queued() ==> w.rows[key].attemptCount < max
    ensures Keeps(w.rows, RowsAfter(w, a), key, max, if Advances(w, a, key) then 1 else 0)
  {
  }

  lemma CompletionAdvances(
    rows: Receipts, c: ReceiptClaim, now: Time, handlerErr: Option<Code>, policy: S.RetryPolicy, drawn: Duration,
    key: ReceiptKey, max: int)
    requires key in rows && max >= 1 && policy.EffectiveMax() == max
    requires rows[key].state.Queued() ==> rows[key].attemptCount < max
    ensures Keeps(rows, AfterComplete(rows, c, now, handlerErr, policy, drawn), key, max,
                  if c.key == key && Answers(rows, c) then 1 else 0)
  {
    var (state, next) := Transition(now, c.attempt, handlerErr, policy, drawn);
    assert state.Terminal() || (state.Retrying? && c.attempt < max);
    hide Transition;
  }

  lemma OtherStepsKeepRemaining(w: World, a: Step, key: ReceiptKey, max: int)
    requires Enabled(w, a) && !a.Take? && !(a.Settle? && w.sessions[a.session].Completing?)
    requires key in w.rows && max >= 1 && !(a.Purge? && key in a.gone)
    requires w.rows[key].state.Queued() ==> w.rows[key].attemptCount < max
    ensures Keeps(w.rows, RowsAfter(w, a), key, max, 0)
  {
    hide O.RenewedUntil;
  }

  /** No step adds to what is left of a receipt's life, and a step that advances it takes from it. */
  lemma StepKeepsRemaining(w: World, a: Step, key: ReceiptKey, max: int)
    requires Enabled(w, a) && Budgeted(w, max) && max >= 1 && key in w.rows && !(a.Purge? && key in a.gone)
    ensures Keeps(w.rows, RowsAfter(w, a), key, max, if Advances(w, a, key) then 1 else 0)
  {
    hide Keeps, AfterComplete, AfterClaim, AfterRenew, FirstDue, MayPurge, Answers;
    if a.Take? {
      TakeAdvances(w, a, key, max);
    } else if a.Settle? && w.sessions[a.session].Completing? {
      var work := w.sessions[a.session];
      CompletionAdvances(w.rows, work.grant.claim, work.now, work.handlerErr, work.policy, work.drawn, key, max);
    } else {
      OtherStepsKeepRemaining(w, a, key, max);
    }
  }

  /** How many of the steps from `i` to `j` advance the receipt. */
  ghost function AdvanceCount(worlds: seq<World>, steps: seq<Step>, key: ReceiptKey, i: nat, j: nat): nat
    requires i <= j <= |steps| < |worlds|
    decreases j
  {
    if j == i then 0
    else AdvanceCount(worlds, steps, key, i, j - 1) + (if Advances(worlds[j - 1], steps[j - 1], key) then 1 else 0)
  }

  lemma ReachableRemaining(worlds: seq<World>, steps: seq<Step>, max: int, i: nat, key: ReceiptKey)
    requires Run(worlds, steps) && worlds[0] == EMPTY && OnePolicy(steps, max) && max >= 1
    requires i < |worlds| && key in worlds[i].rows
    ensures
      var left := Remaining(worlds[i].rows[key], max);
      0 <= left <= 2 * max && (left == 0 <==> worlds[i].rows[key].state.Terminal())
  {
    hide Run, OnePolicy, Remaining;
    ReachableReceiptsAreSound(worlds, steps, max, i);
    assert RowOk(worlds[i].rows[key]);
    RemainingRange(worlds[i].rows[key], max);
  }

  /**
   * Termination: until Cleanup removes a receipt, its grants from the queue and its completions number at most what
   * its life shrinks by, so at most 2 * max in all, whatever happens to other receipts and however many leases are
   * lost; the life is used up exactly when the receipt is terminal.
   */
  lemma {:induction false} LifeIsBounded(
    worlds: seq<World>, steps: seq<Step>, max: int, i: nat, j: nat, key: ReceiptKey)
    requires Run(worlds, steps) && worlds[0] == EMPTY && OnePolicy(steps, max) && max >= 1
    requires i <= j < |worlds| && key in worlds[i].rows
    requires forall k | i <= k < j :: !(steps[k].Purge? && key in steps[k].gone)
    ensures key in worlds[j].rows
    ensures
      var left, left' := Remaining(worlds[i].rows[key], max), Remaining(worlds[j].rows[key], max);
      && |worlds| == |steps| + 1 && AdvanceCount(worlds, steps, key, i, j) + left' <= left <= 2 * max
      && 0 <= left' && (left' == 0 <==> worlds[j].rows[key].state.Terminal())
    decreases j
  {
    hide Run, OnePolicy, Remaining, Advances, RowsOk, Budgeted, Enabled, RowsAfter;
    RunLength(worlds, steps);
    ReachableRemaining(worlds, steps, max, i, key);
    if i < j {
      LifeIsBounded(worlds, steps, max, i, j - 1, key);
      ReachableReceiptsAreSound(worlds, steps, max, j - 1);
      RunStep(worlds, steps, j - 1);
      StepKeepsRemaining(worlds[j - 1], steps[j - 1], key, max);
      ReachableRemaining(worlds, steps, max, j, key);
    }
  }

  // ----- bounded overtaking -----

  /** The queued receipts a claim may prefer to `key`: ordered before it or tied with it. */
  ghost function AheadOf(rows: Receipts, key: ReceiptKey): set<ReceiptKey>
    requires key in rows
  {
    set other | other in rows && other != key && rows[other].state.Queued() && NotAfter(rows[other], rows[key])
  }

  ghost predicate Waiting(w: World, key: ReceiptKey, due: Time) {
    key in w.rows && w.rows[key].state.Queued() && w.rows[key].nextAttemptAt == due
  }

  /** Sessions that read the clock no later than `due` and may still insert or reschedule a receipt by that reading. */
  ghost function Stale(w: World, due: Time): set<nat> {
    set s | s in w.sessions && (w.sessions[s].Receiving? || w.sessions[s].Completing?) && w.sessions[s].now <= due
  }

  ghost predicate NoLeaseExpiry(w: World, a: Step)
    requires Enabled(w, a)
  {
    a.Take? ==> w.rows[a.key].state.Queued()
  }

  /** How many claims the first `n` steps grant. */
  ghost function TakeCount(steps: seq<Step>, n: nat): nat
    requires n <= |steps|
  {
    if n == 0 then 0 else TakeCount(steps, n - 1) + (if steps[n - 1].Take? then 1 else 0)
  }

  /** `rows'` moves no queued receipt other than `mover` to a place ahead of `key`. */
  ghost predicate OnlyMovedAhead(rows: Receipts, rows': Receipts, key: ReceiptKey, due: Time, mover: ReceiptKey) {
    && key in rows && key in rows' && rows'[key] == rows[key]
    && forall other | other in rows' && rows'[other].state.Queued() && other != mover ::
         rows'[other].nextAttemptAt > due || (other in rows && rows'[other] == rows[other])
  }

  ghost predicate NoneMovedAhead(rows: Receipts, rows': Receipts, key: ReceiptKey, due: Time) {
    && key in rows && key in rows' && rows'[key] == rows[key]
    && forall other | other in rows' && rows'[other].state.Queued() ::
         rows'[other].nextAttemptAt > due || (other in rows && rows'[other] == rows[other])
  }

  lemma AheadAfterMoves(rows: Receipts, rows': Receipts, key: ReceiptKey, due: Time, mover: ReceiptKey)
    requires key in rows && rows[key].nextAttemptAt == due
    ensures NoneMovedAhead(rows, rows', key, due) ==> AheadOf(rows', key) <= AheadOf(rows, key)
    ensures OnlyMovedAhead(rows, rows', key, due, mover) ==> AheadOf(rows', key) <= AheadOf(rows, key) + {mover}
  {
  }

  /** The places ahead of the waiting receipt, taken or still to be taken by a stalled session. */
  ghost function Places(w: World, key: ReceiptKey, due: Time): nat
    requires key in w.rows
  {
    |AheadOf(w.rows, key)| + |Stale(w, due)|
  }

  lemma PlacesAfter(w: World, w': World, key: ReceiptKey, due: Time, session: nat, mover: ReceiptKey)
    requires key in w.rows && key in w'.rows && Stale(w', due) <= Stale(w, due)
    requires AheadOf(w'.rows, key) <= AheadOf(w.rows, key)
      || (AheadOf(w'.rows, key) <= AheadOf(w.rows, key) + {mover}
          && session in Stale(w, due) && session !in Stale(w', due))
    ensures Places(w', key, due) <= Places(w, key, due)
  {
    var ahead, ahead' := AheadOf(w.rows, key), AheadOf(w'.rows, key);
    var stale, stale' := Stale(w, due), Stale(w', due);
    hide AheadOf, Stale;
    SubsetIsSmaller(stale', stale);
    if ahead' <= ahead {
      SubsetIsSmaller(ahead', ahead);
    } else {
      SubsetIsSmaller(ahead', ahead + {mover});
      SubsetIsSmaller(stale' + {session}, stale);
    }
  }

  lemma StaleAfterStep(w: World, a: Step, due: Time)
    requires Enabled(w, a) && w.clock > due && w.births.Keys == w.rows.Keys
    ensures After(w, a).clock > due && Stale(After(w, a), due) <= Stale(w, due)
    ensures (a.Settle? || a.Receive?) ==> a.session !in Stale(After(w, a), due)
    ensures a.Take? ==> Stale(After(w, a), due) == Stale(w, due)
  {
    hide RowsAfter;
  }

  /** What a step does to the queue ahead, as far as it does not grant a claim. */
  lemma StepMovesOneAhead(w: World, a: Step, key: ReceiptKey, due: Time)
    requires Enabled(w, a) && !a.Take? && Waiting(w, key, due)
    ensures Waiting(w.(rows := RowsAfter(w, a)), key, due)
    ensures a.Settle? ==>
      var work := w.sessions[a.session];
      && OnlyMovedAhead(w.rows, RowsAfter(w, a), key, due, work.grant.claim.key)
      && (work.Renewing? || work.now > due ==> NoneMovedAhead(w.rows, RowsAfter(w, a), key, due))
    ensures a.Receive? ==>
      var work := w.sessions[a.session];
      && OnlyMovedAhead(w.rows, RowsAfter(w, a), key, due, work.key)
      && (work.now > due ==> NoneMovedAhead(w.rows, RowsAfter(w, a), key, due))
    ensures !a.Settle? && !a.Receive? ==> NoneMovedAhead(w.rows, RowsAfter(w, a), key, due)
  {
    hide O.RenewedUntil;
  }

  lemma OtherStepsKeepPlaces(w: World, a: Step, key: ReceiptKey, due: Time)
    requires Enabled(w, a) && !a.Take? && Waiting(w, key, due) && w.clock > due && w.births.Keys == w.rows.Keys
    ensures Waiting(After(w, a), key, due) && Places(After(w, a), key, due) <= Places(w, key, due)
  {
    hide RowsAfter, AheadOf, OnlyMovedAhead, NoneMovedAhead;
    StaleAfterStep(w, a, due);
    StepMovesOneAhead(w, a, key, due);
    var mover := if a.Settle? then w.sessions[a.session].grant.claim.key
                 else if a.Receive? then w.sessions[a.session].key else key;
    AheadAfterMoves(w.rows, RowsAfter(w, a), key, due, mover);
    PlacesAfter(w, After(w, a), key, due, if a.Settle? || a.Receive? then a.session else 0, mover);
  }

  lemma TakeTakesPlace(w: World, a: Step, key: ReceiptKey, due: Time)
    requires Enabled(w, a) && a.Take? && a.key != key && NoLeaseExpiry(w, a)
    requires Waiting(w, key, due) && w.clock > due && w.births.Keys == w.rows.Keys
    ensures Waiting(After(w, a), key, due) && Places(After(w, a), key, due) == Places(w, key, due) - 1
  {
    StaleAfterStep(w, a, due);
    assert a.key in AheadOf(w.rows, key) by {
      assert Due(w.rows[key], w.sessions[a.session].now) <==> due <= w.sessions[a.session].now;
    }
    assert AheadOf(RowsAfter(w, a), key) == AheadOf(w.rows, key) - {a.key};
  }

  /**
   * Bounded overtaking: once the clock is past the due time of a queued receipt, and while no lease expires, the claims
   * granted before it is claimed number at most the receipts ahead of it or tied with it at the start, plus the
   * insertions and completions that had read the clock by its due time and were stalled.
   */
  lemma {:induction false} BoundedOvertaking(
    worlds: seq<World>, steps: seq<Step>, key: ReceiptKey, due: Time, n: nat)
    requires Run(worlds, steps) && n <= |steps| && Waiting(worlds[0], key, due) && worlds[0].clock > due
    requires forall i | 0 <= i < n :: Enabled(worlds[i], steps[i]) && NoLeaseExpiry(worlds[i], steps[i])
    requires forall i | 0 <= i < n :: !(steps[i].Take? && steps[i].key == key)
    ensures n < |worlds| && Waiting(worlds[n], key, due) && worlds[n].clock > due
    ensures TakeCount(steps, n) + Places(worlds[n], key, due)
      <= |AheadOf(worlds[0].rows, key)| + |Stale(worlds[0], due)|
    decreases n
  {
    hide Run, Enabled, After, NoLeaseExpiry, AheadOf, Stale;
    RunLength(worlds, steps);
    if n > 0 {
      BoundedOvertaking(worlds, steps, key, due, n - 1);
      var w, a := worlds[n - 1], steps[n - 1];
      RunStep(worlds, steps, n - 1);
      StaleAfterStep(w, a, due);
      if a.Take? {
        TakeTakesPlace(w, a, key, due);
      } else {
        OtherStepsKeepPlaces(w, a, key, due);
      }
    }
  }
}
