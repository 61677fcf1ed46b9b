/** The invariants of the outbound tables, and that every transaction keeps them. */
module Ledger {
  import opened Common
  import opened GoTime
  import opened Outbox

  // ----- the attempt ledger -----

  /**
   * The attempts of a delivery are numbered 1 to attempt_count; all but the last are finished, and the last is
   * unfinished exactly while the delivery is in flight. Leases belong to in-flight rows, completion times to
   * terminal ones.
   */
  ghost predicate RowOk(t: Tables, id: string)
    requires id in t.deliveries
  {
    var d := t.deliveries[id];
    && (forall k: nat :: Key(id, k) in t.attempts <==> 1 <= k <= d.attemptCount)
    && (forall k: nat | 1 <= k < d.attemptCount :: t.attempts[Key(id, k)].finishedAt.Some?)
    && (d.attemptCount >= 1 ==> (t.attempts[Key(id, d.attemptCount)].finishedAt.None? <==> d.state.InFlight?))
    && (d.attemptCount == 0 <==> d.state.Pending?)
    && (d.leaseExpiresAt.Some? <==> d.state.InFlight?)
    && (d.completedAt.Some? <==> d.state.Terminal())
  }

  ghost predicate KeysUnique(t: Tables) {
    forall id, other | id in t.deliveries && other in t.deliveries
      && t.deliveries[id].keyHash.Some? && t.deliveries[id].keyHash == t.deliveries[other].keyHash :: id == other
  }

  ghost predicate References(t: Tables) {
    && (forall id | id in t.deliveries :: t.deliveries[id].messageId in t.messages)
    && (forall key | key in t.attempts :: key.delivery in t.deliveries)
  }

  ghost predicate LedgerOk(t: Tables) {
    && (forall id | id in t.deliveries :: RowOk(t, id))
    && References(t) && KeysUnique(t)
  }

  // ----- the order of events -----

  /** Attempts do not overlap, and a queued or leased row lies in the future of what it follows. */
  ghost predicate Chronological(t: Tables, id: string)
    requires id in t.deliveries && RowOk(t, id)
  {
    var d := t.deliveries[id];
    && (forall k: nat | 1 <= k <= d.attemptCount ::
          var a := t.attempts[Key(id, k)];
          a.finishedAt.Some? ==> a.startedAt <= a.finishedAt.value)
    && (forall k: nat | 1 <= k < d.attemptCount ::
          t.attempts[Key(id, k)].finishedAt.value <= t.attempts[Key(id, k + 1)].startedAt)
    && (d.state.InFlight? ==> t.attempts[Key(id, d.attemptCount)].startedAt <= d.leaseExpiresAt.value)
    && (d.state.Retrying? ==> t.attempts[Key(id, d.attemptCount)].finishedAt.value <= d.nextAttemptAt)
  }

  ghost predicate AllChronological(t: Tables)
    requires LedgerOk(t)
  {
    forall id | id in t.deliveries :: Chronological(t, id)
  }

  // ----- the attempt budget -----

  /**
   * Under policies of effective maximum `max`, only the attempt that made a delivery terminal may have been
   * completed by its worker at or past the maximum; attempts past it end by losing their lease.
   */
  ghost predicate Budgeted(t: Tables, id: string, max: int)
    requires id in t.deliveries && RowOk(t, id)
  {
    var d := t.deliveries[id];
    && (d.state.Queued() ==> d.attemptCount < max)
    && (d.state.Terminal() ==> t.attempts[Key(id, d.attemptCount)].CompletedByWorker())
    && (forall k: nat | 1 <= k <= d.attemptCount && t.attempts[Key(id, k)].CompletedByWorker() ::
          k < max || (k == d.attemptCount && d.state.Terminal()))
    && (forall k: nat | 1 <= k <= d.attemptCount && t.attempts[Key(id, k)].finishedAt.None? ::
          t.attempts[Key(id, k)].durationNs.None?)
  }

  ghost predicate AllBudgeted(t: Tables, max: int)
    requires LedgerOk(t)
  {
    forall id | id in t.deliveries :: Budgeted(t, id, max)
  }

  ghost function WorkerCompleted(t: Tables, id: string, n: nat): (c: nat)
    requires forall k: nat | 1 <= k <= n :: Key(id, k) in t.attempts
    ensures c <= n
  {
    if n == 0 then 0
    else WorkerCompleted(t, id, n - 1) + (if t.attempts[Key(id, n)].CompletedByWorker() then 1 else 0)
  }

  ghost function LeasesLost(t: Tables, id: string, n: nat): (c: nat)
    requires forall k: nat | 1 <= k <= n :: Key(id, k) in t.attempts
  {
    if n == 0 then 0
    else LeasesLost(t, id, n - 1) + (if t.attempts[Key(id, n)].LeaseLost() then 1 else 0)
  }

  lemma {:induction false} FinishedAreCounted(t: Tables, id: string, n: nat)
    requires forall k: nat | 1 <= k <= n :: Key(id, k) in t.attempts && t.attempts[Key(id, k)].finishedAt.Some?
    ensures WorkerCompleted(t, id, n) + LeasesLost(t, id, n) == n
  {
    if n > 0 {
      FinishedAreCounted(t, id, n - 1);
    }
  }

  /** Worker completions below `max` cannot number `max` or more. */
  lemma {:induction false} CompletionsBelow(t: Tables, id: string, n: nat, max: int)
    requires max >= 1
    requires forall k: nat | 1 <= k <= n :: Key(id, k) in t.attempts
    requires forall k: nat | 1 <= k <= n && t.attempts[Key(id, k)].CompletedByWorker() :: k < max
    ensures WorkerCompleted(t, id, n) <= max - 1
  {
    if n > 0 {
      if n < max {
      } else {
        CompletionsBelow(t, id, n - 1, max);
      }
    }
  }

  /**
   * The budget: every attempt was completed by its worker, lost its lease, or is in flight; the worker completes
   * at most `max` of them however many leases are lost, so the total exceeds `max` by lost leases only.
   */
  lemma AttemptBudget(t: Tables, id: string, max: int)
    requires id in t.deliveries && RowOk(t, id) && Budgeted(t, id, max) && max >= 1
    ensures
      var d := t.deliveries[id];
      var completed, lost := WorkerCompleted(t, id, d.attemptCount), LeasesLost(t, id, d.attemptCount);
      && d.attemptCount == completed + lost + (if d.state.InFlight? then 1 else 0)
      && completed <= max
      && (!d.state.Terminal() ==> completed < max)
      && d.attemptCount <= max + lost
      && (d.state.Queued() ==> d.attemptCount < max)
  {
    var d := t.deliveries[id];
    var n := d.attemptCount;
    if d.state.InFlight? {
      FinishedAreCounted(t, id, n - 1);
      CompletionsBelow(t, id, n, max);
    } else {
      FinishedAreCounted(t, id, n);
      if d.state.Terminal() {
        CompletionsBelow(t, id, n - 1, max);
      } else {
        CompletionsBelow(t, id, n, max);
      }
    }
  }

  // ----- ownership of claims -----

  /** Owning the unfinished attempt is owning the lease: the second guard of a completion never fails alone. */
  lemma OwnerHoldsLease(t: Tables, c: Claim)
    requires LedgerOk(t)
    ensures OwnsAttempt(t, c) ==> StillLeased(t, c)
    ensures OwnsAttempt(t, c) <==>
      StillLeased(t, c) && Key(c.deliveryId, c.attempt) in t.attempts
      && t.attempts[Key(c.deliveryId, c.attempt)].id == c.attemptId
  {
    var key := Key(c.deliveryId, c.attempt);
    if key in t.attempts {
      assert key.delivery in t.deliveries;
      assert RowOk(t, c.deliveryId);
    }
  }

  /** At any moment one claim at most owns a delivery. */
  lemma OneOwner(t: Tables, c: Claim, c': Claim)
    requires LedgerOk(t) && OwnsAttempt(t, c) && OwnsAttempt(t, c') && c.deliveryId == c'.deliveryId
    ensures c.attempt == c'.attempt && c.attemptId == c'.attemptId
  {
    OwnerHoldsLease(t, c);
    OwnerHoldsLease(t, c');
  }

  // ----- rows a transaction leaves alone -----

  ghost predicate SameRow(t: Tables, t': Tables, id: string) {
    && id in t.deliveries && id in t'.deliveries && t.deliveries[id] == t'.deliveries[id]
    && forall k: nat ::
         && (Key(id, k) in t.attempts <==> Key(id, k) in t'.attempts)
         && (Key(id, k) in t.attempts ==> t.attempts[Key(id, k)] == t'.attempts[Key(id, k)])
  }

  lemma RowFrame(t: Tables, t': Tables, id: string)
    requires SameRow(t, t', id) && RowOk(t, id)
    ensures RowOk(t', id)
  {
  }

  lemma TimesFrame(t: Tables, t': Tables, id: string)
    requires SameRow(t, t', id) && RowOk(t, id) && RowOk(t', id) && Chronological(t, id)
    ensures Chronological(t', id)
  {
  }

  lemma BudgetFrame(t: Tables, t': Tables, id: string, max: int)
    requires SameRow(t, t', id) && RowOk(t, id) && RowOk(t', id) && Budgeted(t, id, max)
    ensures Budgeted(t', id, max)
  {
  }

  /** The columns that are written once, when a row is inserted. */
  ghost predicate SameIdentity(d: Delivery, d': Delivery) {
    && d.messageId == d'.messageId && d.destination == d'.destination && d.headers == d'.headers
    && d.keyHash == d'.keyHash && d.createdAt == d'.createdAt
  }

  /** `t'` differs from `t` in mutable columns of `id` and in the attempts of `id` only. */
  ghost predicate TouchesOnly(t: Tables, t': Tables, id: string) {
    && id in t.deliveries
    && t'.messages == t.messages && t'.deliveries.Keys == t.deliveries.Keys
    && SameIdentity(t.deliveries[id], t'.deliveries[id])
    && (forall other | other in t.deliveries && other != id :: SameRow(t, t', other))
    && (forall key | key in t'.attempts :: key in t.attempts || key.delivery == id)
  }

  lemma TouchKeepsReferences(t: Tables, t': Tables, id: string)
    requires LedgerOk(t) && TouchesOnly(t, t', id)
    ensures References(t') && KeysUnique(t')
  {
    hide RowOk;
    forall other | other in t'.deliveries ensures SameIdentity(t.deliveries[other], t'.deliveries[other]) {
      if other != id {
        assert SameRow(t, t', other);
      }
    }
  }

  /** A transaction that touches one row keeps all invariants when it keeps those of that row. */
  lemma TouchKeepsLedger(t: Tables, t': Tables, id: string)
    requires LedgerOk(t) && TouchesOnly(t, t', id) && RowOk(t', id)
    ensures LedgerOk(t')
    ensures AllChronological(t) && Chronological(t', id) ==> AllChronological(t')
    ensures forall max | AllBudgeted(t, max) && Budgeted(t', id, max) :: AllBudgeted(t', max)
  {
    TouchKeepsReferences(t, t', id);
    hide RowOk, Chronological, Budgeted, SameRow;
    forall other | other in t'.deliveries && other != id ensures RowOk(t', other) {
      RowFrame(t, t', other);
    }
    if AllChronological(t) && Chronological(t', id) {
      forall other | other in t'.deliveries && other != id ensures Chronological(t', other) {
        TimesFrame(t, t', other);
      }
    }
    forall max | AllBudgeted(t, max) && Budgeted(t', id, max) ensures AllBudgeted(t', max) {
      forall other | other in t'.deliveries && other != id ensures Budgeted(t', other, max) {
        BudgetFrame(t, t', other, max);
      }
    }
  }

  // ----- claims -----

  /** What a claim leaves in the attempts of the claimed row, attempt by attempt. */
  lemma ClaimedAttempts(t: Tables, id: string, now: Time, lease: Duration, attemptId: string)
    requires id in t.deliveries && RowOk(t, id)
    ensures
      var t', n := AfterClaim(t, id, now, lease, attemptId), t.deliveries[id].attemptCount;
      && TouchesOnly(t, t', id)
      && t'.deliveries[id] == Leased(t.deliveries[id], now, now + EffectiveLease(lease))
      && (forall k: nat :: Key(id, k) in t'.attempts <==> 1 <= k <= n + 1)
      && t'.attempts[Key(id, n + 1)] == StartedAttempt(attemptId, now)
      && (forall k: nat | 1 <= k < n :: t'.attempts[Key(id, k)] == t.attempts[Key(id, k)])
      && (n >= 1 && t.deliveries[id].state.InFlight? ==>
            t'.attempts[Key(id, n)] == LostAttempt(t.attempts[Key(id, n)], now))
      && (n >= 1 && !t.deliveries[id].state.InFlight? ==> t'.attempts[Key(id, n)] == t.attempts[Key(id, n)])
  {
  }

  /** A claim of a due row appends the next attempt and overlaps none, whatever instant it read before. */
  lemma ClaimKeepsRow(t: Tables, id: string, now: Time, lease: Duration, attemptId: string)
    requires id in t.deliveries && RowOk(t, id) && Due(t.deliveries[id], now)
    ensures RowOk(AfterClaim(t, id, now, lease, attemptId), id)
    ensures Chronological(t, id) ==> Chronological(AfterClaim(t, id, now, lease, attemptId), id)
    ensures forall max | Budgeted(t, id, max) :: Budgeted(AfterClaim(t, id, now, lease, attemptId), id, max)
  {
    ClaimedAttempts(t, id, now, lease, attemptId);
    var t', n := AfterClaim(t, id, now, lease, attemptId), t.deliveries[id].attemptCount;
    assert RowOk(t', id);
  }

  lemma ClaimKeepsLedger(t: Tables, id: string, now: Time, lease: Duration, attemptId: string)
    requires LedgerOk(t) && id in t.deliveries && Due(t.deliveries[id], now)
    ensures LedgerOk(AfterClaim(t, id, now, lease, attemptId))
    ensures AllChronological(t) ==> AllChronological(AfterClaim(t, id, now, lease, attemptId))
    ensures forall max | AllBudgeted(t, max) :: AllBudgeted(AfterClaim(t, id, now, lease, attemptId), max)
  {
    hide RowOk, Chronological, Budgeted;
    ClaimedAttempts(t, id, now, lease, attemptId);
    ClaimKeepsRow(t, id, now, lease, attemptId);
    TouchKeepsLedger(t, AfterClaim(t, id, now, lease, attemptId), id);
  }

  // ----- renewals -----

  lemma RenewedRow(t: Tables, c: Claim, now: Time, until: Time)
    requires MayRenew(t, c, now)
    ensures
      var t', id := AfterRenew(t, c, now, until), c.deliveryId;
      && TouchesOnly(t, t', id) && t'.attempts == t.attempts
      && t.deliveries[id].state.InFlight? && t.deliveries[id].attemptCount == c.attempt
      && t'.deliveries[id] == t.deliveries[id].(leaseExpiresAt := Some(until), updatedAt := now)
  {
  }

  lemma RenewKeepsRowOk(t: Tables, c: Claim, now: Time, until: Time)
    requires MayRenew(t, c, now) && RowOk(t, c.deliveryId)
    ensures c.deliveryId in AfterRenew(t, c, now, until).deliveries && RowOk(AfterRenew(t, c, now, until), c.deliveryId)
  {
    hide AfterRenew, MayRenew, TouchesOnly;
    RenewedRow(t, c, now, until);
  }

  lemma RenewKeepsTimes(t: Tables, c: Claim, now: Time, until: Time)
    requires MayRenew(t, c, now) && RowOk(t, c.deliveryId) && Chronological(t, c.deliveryId) && now <= until
    requires Key(c.deliveryId, c.attempt) in t.attempts && t.attempts[Key(c.deliveryId, c.attempt)].startedAt <= now
    requires c.deliveryId in AfterRenew(t, c, now, until).deliveries
    requires RowOk(AfterRenew(t, c, now, until), c.deliveryId)
    ensures Chronological(AfterRenew(t, c, now, until), c.deliveryId)
  {
    hide AfterRenew, MayRenew, TouchesOnly;
    RenewedRow(t, c, now, until);
  }

  lemma RenewKeepsBudget(t: Tables, c: Claim, now: Time, until: Time, max: int)
    requires MayRenew(t, c, now) && RowOk(t, c.deliveryId) && Budgeted(t, c.deliveryId, max)
    requires c.deliveryId in AfterRenew(t, c, now, until).deliveries
    requires RowOk(AfterRenew(t, c, now, until), c.deliveryId)
    ensures Budgeted(AfterRenew(t, c, now, until), c.deliveryId, max)
  {
    hide AfterRenew, MayRenew, TouchesOnly;
    RenewedRow(t, c, now, until);
  }

  lemma RenewKeepsRow(t: Tables, c: Claim, now: Time, until: Time)
    requires MayRenew(t, c, now) && RowOk(t, c.deliveryId) && now <= until
    ensures
      var t', id := AfterRenew(t, c, now, until), c.deliveryId;
      && TouchesOnly(t, t', id) && RowOk(t', id) && Key(id, c.attempt) in t.attempts
      && (Chronological(t, id) && t.attempts[Key(id, c.attempt)].startedAt <= now ==> Chronological(t', id))
      && (forall max | Budgeted(t, id, max) :: Budgeted(t', id, max))
  {
    var t', id := AfterRenew(t, c, now, until), c.deliveryId;
    assert Key(id, c.attempt) in t.attempts;
    hide AfterRenew, MayRenew, RowOk, Chronological, Budgeted;
    RenewedRow(t, c, now, until);
    RenewKeepsRowOk(t, c, now, until);
    if Chronological(t, id) && t.attempts[Key(id, c.attempt)].startedAt <= now {
      RenewKeepsTimes(t, c, now, until);
    }
    forall max | Budgeted(t, id, max) ensures Budgeted(t', id, max) {
      RenewKeepsBudget(t, c, now, until, max);
    }
  }

  lemma RenewKeepsLedger(t: Tables, c: Claim, now: Time, until: Time)
    requires LedgerOk(t) && now <= until
    ensures LedgerOk(AfterRenew(t, c, now, until))
    ensures AllChronological(t) && (OwnsAttempt(t, c) ==> t.attempts[Key(c.deliveryId, c.attempt)].startedAt <= now)
        ==> AllChronological(AfterRenew(t, c, now, until))
    ensures forall max | AllBudgeted(t, max) :: AllBudgeted(AfterRenew(t, c, now, until), max)
  {
    hide RowOk, Chronological, Budgeted;
    if MayRenew(t, c, now) {
      RenewKeepsRow(t, c, now, until);
      TouchKeepsLedger(t, AfterRenew(t, c, now, until), c.deliveryId);
    }
  }

  // ----- completions -----

  lemma CompletedAttempts(t: Tables, c: Claim, now: Time, report: Report)
    requires LedgerOk(t) && OwnsAttempt(t, c)
    ensures
      var t', key := AfterComplete(t, c, now, report), Key(c.deliveryId, c.attempt);
      var (state, next) := Transition(now, c.attempt, report);
      && TouchesOnly(t, t', c.deliveryId) && RowOk(t, c.deliveryId)
      && t.deliveries[c.deliveryId].attemptCount == c.attempt
      && t'.deliveries[c.deliveryId] == SettledDelivery(t.deliveries[c.deliveryId], now, report, state, next)
      && t'.attempts == t.attempts[key := FinishedAttempt(t.attempts[key], now, report, next)]
  {
    OwnerHoldsLease(t, c);
  }

  lemma CompleteKeepsRowOk(t: Tables, c: Claim, now: Time, report: Report)
    requires LedgerOk(t) && OwnsAttempt(t, c) && RowOk(t, c.deliveryId)
    ensures c.deliveryId in AfterComplete(t, c, now, report).deliveries
    ensures RowOk(AfterComplete(t, c, now, report), c.deliveryId)
  {
    hide AfterComplete, LedgerOk, Transition, TouchesOnly;
    CompletedAttempts(t, c, now, report);
  }

  lemma CompleteKeepsTimes(t: Tables, c: Claim, now: Time, report: Report)
    requires LedgerOk(t) && OwnsAttempt(t, c) && RowOk(t, c.deliveryId)
    requires Chronological(t, c.deliveryId) && t.attempts[Key(c.deliveryId, c.attempt)].startedAt <= now
    requires c.deliveryId in AfterComplete(t, c, now, report).deliveries
    requires RowOk(AfterComplete(t, c, now, report), c.deliveryId)
    ensures Chronological(AfterComplete(t, c, now, report), c.deliveryId)
  {
    hide AfterComplete, LedgerOk, TouchesOnly, Transition;
    CompletedAttempts(t, c, now, report);
    TransitionLooksAhead(now, c.attempt, report);
  }

  lemma TransitionLooksAhead(now: Time, attempt: int, report: Report)
    ensures
      var (state, next) := Transition(now, attempt, report);
      && (state.Terminal() || state.Retrying?)
      && (next.Some? <==> state.Retrying?) && (next.Some? ==> now <= next.value)
      && (state.Retrying? ==> attempt < report.policy.EffectiveMax())
  {
  }

  lemma CompleteKeepsBudget(t: Tables, c: Claim, now: Time, report: Report)
    requires LedgerOk(t) && OwnsAttempt(t, c) && RowOk(t, c.deliveryId)
    requires Budgeted(t, c.deliveryId, report.policy.EffectiveMax())
    requires c.deliveryId in AfterComplete(t, c, now, report).deliveries
    requires RowOk(AfterComplete(t, c, now, report), c.deliveryId)
    ensures Budgeted(AfterComplete(t, c, now, report), c.deliveryId, report.policy.EffectiveMax())
  {
    hide AfterComplete, LedgerOk, TouchesOnly, Transition;
    CompletedAttempts(t, c, now, report);
    TransitionLooksAhead(now, c.attempt, report);
  }

  lemma CompleteKeepsRow(t: Tables, c: Claim, now: Time, report: Report)
    requires LedgerOk(t) && OwnsAttempt(t, c) && RowOk(t, c.deliveryId)
    ensures
      var t', id := AfterComplete(t, c, now, report), c.deliveryId;
      && RowOk(t', id)
      && (Chronological(t, id) && t.attempts[Key(id, c.attempt)].startedAt <= now ==> Chronological(t', id))
      && (Budgeted(t, id, report.policy.EffectiveMax()) ==> Budgeted(t', id, report.policy.EffectiveMax()))
  {
    assert c.deliveryId in t.deliveries && Key(c.deliveryId, c.attempt) in t.attempts;
    hide AfterComplete, LedgerOk, RowOk, Chronological, Budgeted;
    CompleteKeepsRowOk(t, c, now, report);
    if Chronological(t, c.deliveryId) && t.attempts[Key(c.deliveryId, c.attempt)].startedAt <= now {
      CompleteKeepsTimes(t, c, now, report);
    }
    if Budgeted(t, c.deliveryId, report.policy.EffectiveMax()) {
      CompleteKeepsBudget(t, c, now, report);
    }
  }

  lemma CompleteKeepsLedger(t: Tables, c: Claim, now: Time, report: Report)
    requires LedgerOk(t)
    ensures LedgerOk(AfterComplete(t, c, now, report))
    ensures AllChronological(t) && (OwnsAttempt(t, c) ==> t.attempts[Key(c.deliveryId, c.attempt)].startedAt <= now)
        ==> AllChronological(AfterComplete(t, c, now, report))
    ensures AllBudgeted(t, report.policy.EffectiveMax())
        ==> AllBudgeted(AfterComplete(t, c, now, report), report.policy.EffectiveMax())
  {
    if OwnsAttempt(t, c) {
      CompletedAttempts(t, c, now, report);
      hide AfterComplete, RowOk, Chronological, Budgeted;
      CompleteKeepsRow(t, c, now, report);
      TouchKeepsLedger(t, AfterComplete(t, c, now, report), c.deliveryId);
    }
  }

  // ----- inserts -----

  lemma InsertKeepsKeys(t: Tables, r: Request, messageId: string, deliveryId: string, now: Time)
    requires KeysUnique(t) && InsertAllowed(t, r, messageId, deliveryId)
    ensures KeysUnique(AfterInsert(t, r, messageId, deliveryId, now))
  {
    forall id | id in t.deliveries && r.keyHash.Some? ensures t.deliveries[id].keyHash != r.keyHash {
      assert !HasKey(t, id, r.keyHash.value);
    }
  }

  lemma InsertTouchesNoRow(t: Tables, r: Request, messageId: string, deliveryId: string, now: Time)
    requires References(t) && deliveryId !in t.deliveries
    ensures
      var t' := AfterInsert(t, r, messageId, deliveryId, now);
      && References(t') && RowOk(t', deliveryId)
      && (forall other | other in t.deliveries :: SameRow(t, t', other))
  {
  }

  lemma InsertIsOk(t: Tables, r: Request, messageId: string, deliveryId: string, now: Time)
    requires LedgerOk(t) && InsertAllowed(t, r, messageId, deliveryId)
    ensures
      var t' := AfterInsert(t, r, messageId, deliveryId, now);
      && LedgerOk(t') && (forall other | other in t.deliveries :: SameRow(t, t', other))
  {
    InsertKeepsKeys(t, r, messageId, deliveryId, now);
    InsertTouchesNoRow(t, r, messageId, deliveryId, now);
    hide KeysUnique, RowOk, References, SameRow;
    var t' := AfterInsert(t, r, messageId, deliveryId, now);
    forall other | other in t.deliveries ensures RowOk(t', other) {
      RowFrame(t, t', other);
    }
  }

  lemma InsertKeepsLedger(t: Tables, r: Request, messageId: string, deliveryId: string, now: Time)
    requires LedgerOk(t) && InsertAllowed(t, r, messageId, deliveryId)
    ensures LedgerOk(AfterInsert(t, r, messageId, deliveryId, now))
    ensures AfterInsert(t, r, messageId, deliveryId, now).deliveries.Keys == t.deliveries.Keys + {deliveryId}
    ensures forall other | other in t.deliveries :: SameRow(t, AfterInsert(t, r, messageId, deliveryId, now), other)
    ensures AllChronological(t) ==> AllChronological(AfterInsert(t, r, messageId, deliveryId, now))
    ensures forall max | max >= 1 && AllBudgeted(t, max) ::
      AllBudgeted(AfterInsert(t, r, messageId, deliveryId, now), max)
  {
    hide LedgerOk, AllChronological, AllBudgeted, SameRow, InsertAllowed;
    var t' := AfterInsert(t, r, messageId, deliveryId, now);
    InsertIsOk(t, r, messageId, deliveryId, now);
    hide AfterInsert;
    NewRowIsFresh(t, r, messageId, deliveryId, now);
    OthersKeepInvariants(t, t', deliveryId);
  }

  lemma NewRowIsFresh(t: Tables, r: Request, messageId: string, deliveryId: string, now: Time)
    requires LedgerOk(AfterInsert(t, r, messageId, deliveryId, now))
    ensures
      var t' := AfterInsert(t, r, messageId, deliveryId, now);
      && deliveryId in t'.deliveries && t'.deliveries.Keys == t.deliveries.Keys + {deliveryId}
      && RowOk(t', deliveryId) && Chronological(t', deliveryId)
      && (forall max | max >= 1 :: Budgeted(t', deliveryId, max))
  {
    var t' := AfterInsert(t, r, messageId, deliveryId, now);
    assert RowOk(t', deliveryId) && t'.deliveries[deliveryId].attemptCount == 0;
    hide LedgerOk;
  }

  /** Rows other than `id` that are carried over unchanged carry their invariants over. */
  lemma OthersKeepInvariants(t: Tables, t': Tables, id: string)
    requires LedgerOk(t) && LedgerOk(t')
    requires forall other | other in t'.deliveries && other != id :: SameRow(t, t', other)
    ensures AllChronological(t) && (id in t'.deliveries ==> Chronological(t', id)) ==> AllChronological(t')
    ensures forall max | AllBudgeted(t, max) && (id in t'.deliveries ==> Budgeted(t', id, max)) :: AllBudgeted(t', max)
  {
    hide RowOk, Chronological, Budgeted, SameRow;
    if AllChronological(t) && (id in t'.deliveries ==> Chronological(t', id)) {
      forall other | other in t'.deliveries && other != id ensures Chronological(t', other) {
        SameRowIsPresent(t, t', other);
        TimesFrame(t, t', other);
      }
    }
    forall max | AllBudgeted(t, max) && (id in t'.deliveries ==> Budgeted(t', id, max)) ensures AllBudgeted(t', max) {
      forall other | other in t'.deliveries && other != id ensures Budgeted(t', other, max) {
        SameRowIsPresent(t, t', other);
        BudgetFrame(t, t', other, max);
      }
    }
  }

  lemma SameRowIsPresent(t: Tables, t': Tables, id: string)
    requires SameRow(t, t', id)
    ensures id in t.deliveries && id in t'.deliveries && t.deliveries[id] == t'.deliveries[id]
  {
  }

  // ----- removals and messages -----

  lemma SurvivorsAreOk(t: Tables, t': Tables)
    requires LedgerOk(t) && References(t') && forall id | id in t'.deliveries :: SameRow(t, t', id)
    ensures LedgerOk(t')
  {
    hide RowOk, SameRow, References;
    forall id | id in t'.deliveries
      ensures id in t.deliveries && t'.deliveries[id] == t.deliveries[id] && RowOk(t', id)
    {
      SameRowIsPresent(t, t', id);
      RowFrame(t, t', id);
    }
  }

  /** When every remaining row is carried over unchanged, so are its invariants. */
  lemma SurvivorsKeepLedger(t: Tables, t': Tables)
    requires LedgerOk(t) && References(t') && forall id | id in t'.deliveries :: SameRow(t, t', id)
    ensures LedgerOk(t')
    ensures AllChronological(t) ==> AllChronological(t')
    ensures forall max | AllBudgeted(t, max) :: AllBudgeted(t', max)
  {
    SurvivorsAreOk(t, t');
    hide RowOk, Chronological, Budgeted, SameRow;
    if AllChronological(t) {
      forall id | id in t'.deliveries ensures Chronological(t', id) {
        SameRowIsPresent(t, t', id);
        TimesFrame(t, t', id);
      }
    }
    forall max | AllBudgeted(t, max) ensures AllBudgeted(t', max) {
      forall id | id in t'.deliveries ensures Budgeted(t', id, max) {
        SameRowIsPresent(t, t', id);
        BudgetFrame(t, t', id, max);
      }
    }
  }

  /** A message without deliveries disturbs nothing. */
  lemma MessageKeepsLedger(t: Tables, r: Request, messageId: string, now: Time)
    requires LedgerOk(t)
    ensures LedgerOk(AfterMessage(t, r, messageId, now))
    ensures AllChronological(t) ==> AllChronological(AfterMessage(t, r, messageId, now))
    ensures forall max | AllBudgeted(t, max) :: AllBudgeted(AfterMessage(t, r, messageId, now), max)
  {
    hide RowOk, Chronological, Budgeted;
    SurvivorsKeepLedger(t, AfterMessage(t, r, messageId, now));
  }

  /** Removing deliveries with their attempts keeps every remaining row as it was. */
  lemma RemoveDeliveriesKeepsLedger(t: Tables, gone: set<string>)
    requires LedgerOk(t)
    ensures LedgerOk(WithoutDeliveries(t, gone))
    ensures AllChronological(t) ==> AllChronological(WithoutDeliveries(t, gone))
    ensures forall max | AllBudgeted(t, max) :: AllBudgeted(WithoutDeliveries(t, gone), max)
  {
    hide RowOk, Chronological, Budgeted;
    SurvivorsKeepLedger(t, WithoutDeliveries(t, gone));
  }

  /** Removing messages nobody refers to touches no delivery: the cascade from messages stays idle. */
  lemma RemoveOrphansKeepsLedger(t: Tables, gone: set<string>)
    requires LedgerOk(t) && forall m | m in gone :: !Referenced(t.deliveries, m)
    ensures LedgerOk(WithoutMessages(t, gone))
    ensures AllChronological(t) ==> AllChronological(WithoutMessages(t, gone))
    ensures forall max | AllBudgeted(t, max) :: AllBudgeted(WithoutMessages(t, gone), max)
  {
    hide RowOk, Chronological, Budgeted;
    forall id | id in t.deliveries ensures t.deliveries[id].messageId !in gone {
      assert Referenced(t.deliveries, t.deliveries[id].messageId);
    }
    SurvivorsKeepLedger(t, WithoutMessages(t, gone));
  }
}
