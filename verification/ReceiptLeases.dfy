/** What a heartbeat means for a receipt: over every run of the inbound protocol, the claim is not lost. */
module ReceiptLeases {
  import opened Common
  import opened GoTime
  import opened Inbox
  import opened InboxRuns
  import opened InboxTheorems
  import opened DurableRuntime
  import O = Outbox

  /** The grant is the current one of its row, under a lease that ends at `until`. */
  ghost predicate HeldUntil(w: World, g: Grant, until: Time) {
    g in w.grants && Owns(w, g) && w.rows[g.claim.key].leaseExpiresAt == Some(until)
  }

  ghost predicate ActsFor(w: World, a: Step, g: Grant) {
    a.Settle? && a.session in w.sessions && w.sessions[a.session].HoldsGrant() && w.sessions[a.session].grant == g
  }

  ghost predicate SameRow(w: World, w': World, g: Grant) {
    && g.claim.key in w.rows && g.claim.key in w'.rows && w'.rows[g.claim.key] == w.rows[g.claim.key]
    && g.claim.key in w.births && g.claim.key in w'.births && w'.births[g.claim.key] == w.births[g.claim.key]
    && w.grants <= w'.grants
  }

  lemma SameRowIsHeld(w: World, w': World, g: Grant, until: Time)
    requires HeldUntil(w, g, until) && SameRow(w, w', g)
    ensures HeldUntil(w', g, until)
  {
  }

  /** The holder's renewal succeeds exactly when its clock reading comes before the expiry. */
  lemma RenewalNeedsLiveLease(w: World, g: Grant, now: Time, lease: Duration, databaseClock: bool, until: Time)
    requires HeldUntil(w, g, until)
    ensures MayRenew(w.rows, g.claim, now) <==> now < until
    ensures
      var renewed := AfterRenew(w.rows, g.claim, now, O.RenewedUntil(now, lease, databaseClock));
      if now < until
      then renewed == w.rows[g.claim.key := w.rows[g.claim.key].(
        leaseExpiresAt := Some(O.RenewedUntil(now, lease, databaseClock)), updatedAt := now)]
      else renewed == w.rows
  {
  }

  lemma TakeSparesHeldRow(w: World, a: Step, g: Grant, until: Time)
    requires Inv(w) && Enabled(w, a) && HeldUntil(w, g, until) && w.clock < until && a.Take?
    ensures a.key != g.claim.key
  {
    hide GrantsOk, RowsOk;
    assert SessionOk(w, w.sessions[a.session]);
  }

  /** Another claim of this very row has another attempt number, and does not answer. */
  lemma RivalSparesHeldRow(w: World, a: Step, g: Grant, until: Time)
    requires Inv(w) && Enabled(w, a) && HeldUntil(w, g, until) && a.Settle? && !ActsFor(w, a, g)
    requires Current(w, w.sessions[a.session].grant)
    ensures g.claim.key in RowsAfter(w, a) && RowsAfter(w, a)[g.claim.key] == w.rows[g.claim.key]
  {
    hide RowsOk, O.RenewedUntil, Transition;
    assert SessionOk(w, w.sessions[a.session]);
  }

  /** While the lease is live and every worker is prompt, nothing but the claim's own holder touches the row. */
  lemma OthersLeaveLiveLease(w: World, a: Step, g: Grant, until: Time, retention: Duration)
    requires Inv(w) && Enabled(w, a) && RowsAreRetained(w, retention) && Prompt(w, a, retention)
    requires HeldUntil(w, g, until) && w.clock < until && !ActsFor(w, a, g)
    ensures w.births.Keys == w.rows.Keys && SameRow(w, After(w, a), g) && HeldUntil(After(w, a), g, until)
  {
    BirthsAreRows(w);
    hide RowsOk, GrantsOk, SessionsOk, RowsAreRetained, Prompt, AfterRenew, AfterComplete;
    if a.Take? {
      TakeSparesHeldRow(w, a, g, until);
    } else if a.Settle? {
      PromptIsCurrent(w, a, retention);
      RivalSparesHeldRow(w, a, g, until);
    }
    assert SameRow(w, After(w, a), g);
    hide SameRow, HeldUntil;
    SameRowIsHeld(w, After(w, a), g, until);
  }

  // ----- a heartbeat within a run -----

  ghost predicate IsGrant(w: World, a: Step, g: Grant, lease: Duration, read: Time) {
    && Enabled(w, a) && a.Take? && w.sessions[a.session].now == read && w.sessions[a.session].lease == lease
    && a.key in w.births && g == Grant(ClaimFor(w.rows, a.key, read), w.births[a.key])
  }

  ghost predicate IsRenewal(w: World, a: Step, g: Grant, lease: Duration, read: Time) {
    && a.Settle? && a.session in w.sessions && w.sessions[a.session].Renewing?
    && w.sessions[a.session].grant == g && w.sessions[a.session].lease == lease && w.sessions[a.session].now == read
  }

  /** As for deliveries: beat `k` commits at step `at[k]`, before it returns, and the holder does nothing in between. */
  ghost predicate Beating(
    worlds: seq<World>, steps: seq<Step>, g: Grant, lease: Duration, beats: seq<Beat>, at: seq<nat>)
  {
    && |worlds| == |steps| + 1 && |at| == |beats| >= 1
    && (forall k | 0 <= k < |at| :: at[k] < |steps| && worlds[at[k]].clock <= beats[k].end)
    && (forall k | 0 <= k < |at| - 1 :: at[k] < at[k + 1])
    && IsGrant(worlds[at[0]], steps[at[0]], g, lease, beats[0].read)
    && (forall k | 1 <= k < |at| :: IsRenewal(worlds[at[k]], steps[at[k]], g, lease, beats[k].read))
    && (forall k, q: nat | 0 <= k < |at| - 1 && at[k] < q < at[k + 1] :: !ActsFor(worlds[q], steps[q], g))
  }

  lemma {:induction false} ClockGrows(worlds: seq<World>, steps: seq<Step>, i: nat, j: nat)
    requires Run(worlds, steps) && i <= j < |worlds|
    ensures worlds[i].clock <= worlds[j].clock
    decreases j
  {
    hide Run, RowsAfter;
    RunLength(worlds, steps);
    if i < j {
      ClockGrows(worlds, steps, i, j - 1);
      RunStep(worlds, steps, j - 1);
    }
  }

  lemma GrantHolds(w: World, a: Step, g: Grant, lease: Duration, read: Time)
    requires IsGrant(w, a, g, lease, read) && lease > 0 && w.births.Keys == w.rows.Keys
    ensures HeldUntil(After(w, a), g, read + lease)
  {
  }

  lemma RenewalHolds(w: World, a: Step, g: Grant, lease: Duration, read: Time, until: Time)
    requires HeldUntil(w, g, until) && Enabled(w, a) && IsRenewal(w, a, g, lease, read) && read < until
    requires w.births.Keys == w.rows.Keys
    ensures exists later :: read + lease <= later && HeldUntil(After(w, a), g, later)
  {
    var later := O.RenewedUntil(read, lease, w.sessions[a.session].databaseClock);
    assert HeldUntil(After(w, a), g, later);
  }

  /** From one beat to the step of the next, the row stays held. */
  lemma {:induction false} HeldBetweenBeats(
    worlds: seq<World>, steps: seq<Step>, retention: Duration, g: Grant, i: nat, j: nat, until: Time)
    requires Run(worlds, steps) && worlds[0] == EMPTY && i <= j <= |steps| < |worlds| && worlds[j].clock < until
    requires Disciplined(worlds, steps, retention, retention, j) && HeldUntil(worlds[i], g, until)
    requires forall q: nat | i <= q < j :: !ActsFor(worlds[q], steps[q], g)
    ensures HeldUntil(worlds[j], g, until)
    decreases j
  {
    hide Run, Inv, HeldUntil, Enabled, After, Prompt, Retains, Ordered, RowsFollowGrants, RowsAreRetained, ActsFor;
    if i < j {
      ClockGrows(worlds, steps, j - 1, j);
      HeldBetweenBeats(worlds, steps, retention, g, i, j - 1, until);
      RunKeepsTimely(worlds, steps, retention, j - 1);
      RunStep(worlds, steps, j - 1);
      OthersLeaveLiveLease(worlds[j - 1], steps[j - 1], g, until, retention);
    }
  }

  ghost predicate Held(w: World, g: Grant, from: Time, lease: Duration) {
    exists until :: from + lease <= until && HeldUntil(w, g, until)
  }

  /** After beat `k` the row is held for a lease from the beat's clock reading. */
  lemma {:induction false} BeatHolds(
    worlds: seq<World>, steps: seq<Step>, retention: Duration, g: Grant, lease: Duration, claim: int,
    interval: Duration, timeout: Duration, beats: seq<Beat>, at: seq<nat>, k: nat)
    requires Run(worlds, steps) && worlds[0] == EMPTY && Beating(worlds, steps, g, lease, beats, at)
    requires OnSchedule(beats, claim, interval, timeout) && Fits(lease, claim, interval, timeout)
    requires k < |at| && Disciplined(worlds, steps, retention, retention, at[k])
    ensures Held(worlds[at[k] + 1], g, beats[k].read, lease)
    decreases k
  {
    hide Run, Inv, HeldUntil, Enabled, After, Prompt, Retains, IsGrant, IsRenewal, ActsFor, OnSchedule;
    var p := at[k];
    RunStep(worlds, steps, p);
    if k == 0 {
      GrantHolds(worlds[p], steps[p], g, lease, beats[0].read);
      assert HeldUntil(worlds[p + 1], g, beats[0].read + lease);
    } else {
      BeatHolds(worlds, steps, retention, g, lease, claim, interval, timeout, beats, at, k - 1);
      var until :| beats[k - 1].read + lease <= until && HeldUntil(worlds[at[k - 1] + 1], g, until);
      EndsInTime(beats, lease, claim, interval, timeout, k - 1);
      assert at[k - 1] < at[k - 1 + 1] && worlds[p].clock <= beats[k].end;
      assert forall q: nat | at[k - 1] < q < at[k - 1 + 1] :: !ActsFor(worlds[q], steps[q], g);
      HeldBetweenBeats(worlds, steps, retention, g, at[k - 1] + 1, p, until);
      RenewalHolds(worlds[p], steps[p], g, lease, beats[k].read, until);
    }
  }

  /**
   * Heartbeats hold the lease of a receipt: if the interval, the slower of claim and renewal, and one more renewal
   * timeout fit into the lease, and no worker acts on a claim older than the time Cleanup keeps processed receipts,
   * then between two beats the receipt is granted to nobody else and still answers to the holder's claim, as its
   * current one.
   */
  lemma HeartbeatsHoldTheLease(
    worlds: seq<World>, steps: seq<Step>, retention: Duration, g: Grant, lease: Duration, claim: int,
    interval: Duration, timeout: Duration, beats: seq<Beat>, at: seq<nat>, k: nat, q: nat)
    requires Run(worlds, steps) && worlds[0] == EMPTY && Beating(worlds, steps, g, lease, beats, at)
    requires OnSchedule(beats, claim, interval, timeout) && Fits(lease, claim, interval, timeout)
    requires k + 1 < |at| && at[k] < q <= at[k + 1] && Disciplined(worlds, steps, retention, retention, at[k + 1])
    ensures Owns(worlds[q], g)
    ensures !(steps[q].Take? && steps[q].key == g.claim.key)
  {
    hide Run, Inv, Enabled, After, Prompt, Retains, IsGrant, IsRenewal, ActsFor, TimelyInv, OnSchedule;
    BeatHolds(worlds, steps, retention, g, lease, claim, interval, timeout, beats, at, k);
    var until :| beats[k].read + lease <= until && HeldUntil(worlds[at[k] + 1], g, until);
    EndsInTime(beats, lease, claim, interval, timeout, k);
    assert at[k + 1] < |steps| && worlds[at[k + 1]].clock <= beats[k + 1].end;
    ClockGrows(worlds, steps, q, at[k + 1]);
    assert forall p: nat | at[k] < p < at[k + 1] :: !ActsFor(worlds[p], steps[p], g);
    HeldBetweenBeats(worlds, steps, retention, g, at[k] + 1, q, until);
    RunKeepsTimely(worlds, steps, retention, q);
    RunStep(worlds, steps, q);
    if steps[q].Take? {
      TakeSparesHeldRow(worlds[q], steps[q], g, until);
    }
  }
}
