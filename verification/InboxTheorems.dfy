/** Fencing, what it is worth when receipts are removed and received again, budget and content, over every run. */
module InboxTheorems {
  import opened Common
  import opened GoTime
  import opened HttpHeaders
  import opened Inbox
  import opened InboxRuns
  import S = Scheduling
  import O = Outbox

  // ----- fencing -----

  /** The grant is the current one of the row it was made on. */
  ghost predicate Owns(w: World, g: Grant) {
    Answers(w.rows, g.claim) && g.claim.key in w.births && w.births[g.claim.key] == g.birth
  }

  /** The row is another one, inserted under the key of the grant after Cleanup removed the granted row. */
  ghost predicate Reborn(w: World, g: Grant) {
    g.claim.key in w.births && w.births[g.claim.key] != g.birth
  }

  /** A granted claim that still answers is the row's one current claim, or the row was re-created after Cleanup. */
  lemma AnswerMeansOwnerOrReborn(w: World, g: Grant)
    requires Inv(w) && g in w.grants
    ensures Answers(w.rows, g.claim) ==> (Owns(w, g) <==> !Reborn(w, g))
    ensures Owns(w, g) ==> forall h | h in w.grants && Owns(w, h) && h.claim.key == g.claim.key :: h == g
  {
  }

  lemma LostStaysLost(w: World, a: Step, g: Grant)
    requires Inv(w) && Enabled(w, a) && g in w.grants && !Owns(w, g)
    ensures g in After(w, a).grants && !Owns(After(w, a), g)
  {
    AttemptCounts(w, a);
    hide RowsOk;
  }

  lemma {:induction false} LostForever(worlds: seq<World>, steps: seq<Step>, i: nat, j: nat, g: Grant)
    requires Run(worlds, steps) && Inv(worlds[0]) && i <= j < |worlds|
    requires g in worlds[i].grants && !Owns(worlds[i], g)
    ensures g in worlds[j].grants && !Owns(worlds[j], g)
    decreases j
  {
    hide Inv, Enabled, After, Owns, Run;
    RunLength(worlds, steps);
    if i < j {
      LostForever(worlds, steps, i, j - 1, g);
      RunKeepsInv(worlds, steps, j - 1);
      RunStep(worlds, steps, j - 1);
      LostStaysLost(worlds[j - 1], steps[j - 1], g);
    }
  }

  /** The step completes the claim, or grants its receipt again. */
  ghost predicate Ends(w: World, a: Step, g: Grant) {
    || (a.Take? && a.key == g.claim.key)
    || (a.Settle? && a.session in w.sessions && w.sessions[a.session].Completing? && w.sessions[a.session].grant == g)
  }

  /** Completing a claim, or granting its row again, ends it. */
  lemma StepEndsGrant(w: World, a: Step, g: Grant)
    requires Inv(w) && Enabled(w, a) && g in w.grants
    requires Ends(w, a, g)
    ensures g in After(w, a).grants && !Owns(After(w, a), g)
  {
  }

  /** No renewal or completion with the claim succeeds or changes anything. */
  ghost predicate Fenced(rows: Receipts, c: ReceiptClaim) {
    && !Answers(rows, c)
    && (forall now, until :: AfterRenew(rows, c, now, until) == rows)
    && (forall now, handlerErr, policy, drawn :: AfterComplete(rows, c, now, handlerErr, policy, drawn) == rows)
  }

  lemma EndedForever(worlds: seq<World>, steps: seq<Step>, i: nat, j: nat, g: Grant)
    requires Run(worlds, steps) && worlds[0] == EMPTY && i < j < |worlds| && i < |steps|
    requires g in worlds[i].grants && Ends(worlds[i], steps[i], g)
    ensures Inv(worlds[j]) && g in worlds[j].grants && !Owns(worlds[j], g)
  {
    hide Inv, Enabled, After, Owns, Run;
    RunLength(worlds, steps);
    EmptyInv();
    RunKeepsInv(worlds, steps, i);
    RunStep(worlds, steps, i);
    StepEndsGrant(worlds[i], steps[i], g);
    LostForever(worlds, steps, i + 1, j, g);
    RunKeepsInv(worlds, steps, j);
  }

  /**
   * Fencing by attempt number: after a claim was completed or superseded, a later completion or renewal with it
   * changes nothing as long as the row in the table is not one re-created after Cleanup.
   */
  lemma StaleClaimsAreFenced(worlds: seq<World>, steps: seq<Step>, i: nat, j: nat, g: Grant)
    requires Run(worlds, steps) && worlds[0] == EMPTY && i < |steps| && i < j < |worlds|
    requires g in worlds[i].grants && Ends(worlds[i], steps[i], g)
    ensures !Reborn(worlds[j], g) ==> Fenced(worlds[j].rows, g.claim)
  {
    hide Run, Inv, Owns;
    EndedForever(worlds, steps, i, j, g);
    AnswerMeansOwnerOrReborn(worlds[j], g);
  }

  // ----- fencing within the retention -----

  /** The row of the grant is still the one it was made on. */
  ghost predicate Current(w: World, g: Grant) {
    g.claim.key in w.rows && g.claim.key in w.births && w.births[g.claim.key] == g.birth
  }

  /** The row became what it is no earlier than `t`, or stays leased or delayed until `t`. */
  ghost predicate NotBefore(r: Receipt, t: Time) {
    && (r.state.Processing? ==> r.leaseExpiresAt.Some? && t <= r.leaseExpiresAt.value)
    && (r.state.Retrying? ==> t <= r.nextAttemptAt)
    && (r.state.Terminal() ==> r.processedAt.Some? && t <= r.processedAt.value)
  }

  /** Later attempts of a row start later. */
  ghost predicate Ordered(w: World) {
    forall g, h | g in w.grants && h in w.grants && g.claim.key == h.claim.key && g.birth == h.birth
      && g.claim.attempt <= h.claim.attempt :: g.claim.startedAt <= h.claim.startedAt
  }

  ghost predicate RowsFollowGrants(w: World) {
    forall g | g in w.grants && Current(w, g) :: NotBefore(w.rows[g.claim.key], g.claim.startedAt)
  }

  /** A claim outlives its row only when it is older than the retention. */
  ghost predicate RowsAreRetained(w: World, retention: Duration) {
    && (forall g | g in w.grants && !Current(w, g) :: g.claim.startedAt + retention < w.clock)
    && (forall s | s in w.sessions && w.sessions[s].Cleaning? :: w.sessions[s].retention >= retention)
  }

  ghost predicate TimelyInv(w: World, retention: Duration) {
    Ordered(w) && RowsFollowGrants(w) && RowsAreRetained(w, retention)
  }

  /** No worker acts on a claim that is older than the retention. */
  ghost predicate Prompt(w: World, a: Step, retention: Duration) {
    a.Settle? && a.session in w.sessions && w.sessions[a.session].HoldsGrant() ==>
      w.clock <= w.sessions[a.session].grant.claim.startedAt + retention
  }

  ghost predicate Retains(a: Step, retention: Duration) {
    a.Begin? && a.work.Cleaning? ==> a.work.retention >= retention
  }

  /** A prompt worker acts on the row its claim was granted on, or on none. */
  lemma PromptIsCurrent(w: World, a: Step, retention: Duration)
    requires Inv(w) && Enabled(w, a) && RowsAreRetained(w, retention) && Prompt(w, a, retention) && a.Settle?
    ensures Current(w, w.sessions[a.session].grant)
  {
    hide RowsOk, GrantsOk;
    assert SessionOk(w, w.sessions[a.session]);
  }

  lemma TakeFollowsGrants(w: World, a: Step, g: Grant)
    requires Inv(w) && Enabled(w, a) && a.Take? && RowsFollowGrants(w) && g in w.grants && Current(w, g)
    requires g.claim.key == a.key
    ensures g.claim.startedAt <= w.sessions[a.session].now && g.claim.attempt <= w.rows[a.key].attemptCount
  {
    assert NotBefore(w.rows[a.key], g.claim.startedAt) && RowOk(w.rows[a.key]);
  }

  /** The taken row is leased from the clock reading on, and no other row is touched. */
  lemma TakenRow(w: World, a: Step)
    requires Inv(w) && Enabled(w, a) && a.Take?
    ensures w.births.Keys == w.rows.Keys && a.key in w.rows
    ensures
      var rows', now := RowsAfter(w, a), w.sessions[a.session].now;
      && rows' == AfterClaim(w.rows, a.key, now, w.sessions[a.session].lease)
      && rows'.Keys == w.rows.Keys && (forall key | key in w.rows && key != a.key :: rows'[key] == w.rows[key])
      && (forall t | t <= now :: NotBefore(rows'[a.key], t))
  {
    BirthsAreRows(w);
    hide RowsOk, GrantsOk, SessionsOk;
  }

  lemma TakeKeepsTimely(w: World, a: Step, retention: Duration)
    requires Inv(w) && Enabled(w, a) && a.Take? && TimelyInv(w, retention)
    ensures w.births.Keys == w.rows.Keys && TimelyInv(After(w, a), retention)
  {
    hide Inv, NotBefore;
    TakenRow(w, a);
    var w', now := After(w, a), w.sessions[a.session].now;
    forall g | g in w.grants && Current(w, g) && g.claim.key == a.key
      ensures g.claim.startedAt <= now && g.claim.attempt <= w.rows[a.key].attemptCount
    {
      TakeFollowsGrants(w, a, g);
    }
    hide AfterClaim, FirstDue;
    assert forall g | g in w.grants :: Current(w', g) <==> Current(w, g);
  }

  /** The settling claim is the latest of its row, and has read the clock since it was granted. */
  lemma SettleFollowsGrants(w: World, a: Step, g: Grant)
    requires Inv(w) && Enabled(w, a) && a.Settle? && Ordered(w)
    requires Current(w, w.sessions[a.session].grant) && Answers(w.rows, w.sessions[a.session].grant.claim)
    requires g in w.grants && Current(w, g) && g.claim.key == w.sessions[a.session].grant.claim.key
    ensures g.claim.startedAt <= w.sessions[a.session].now
  {
    assert SessionOk(w, w.sessions[a.session]);
  }

  lemma SettledRow(w: World, a: Step)
    requires Inv(w) && Enabled(w, a) && a.Settle?
    ensures
      var work, rows' := w.sessions[a.session], RowsAfter(w, a);
      && rows'.Keys == w.rows.Keys
      && (forall key | key in w.rows && key != work.grant.claim.key :: rows'[key] == w.rows[key])
      && (rows' != w.rows ==> Answers(w.rows, work.grant.claim))
      && (rows' != w.rows ==> forall t | t <= work.now :: NotBefore(rows'[work.grant.claim.key], t))
  {
    assert SessionOk(w, w.sessions[a.session]);
    hide RowsOk, GrantsOk;
  }

  lemma SettleKeepsTimely(w: World, a: Step, retention: Duration)
    requires Inv(w) && Enabled(w, a) && a.Settle? && TimelyInv(w, retention) && Prompt(w, a, retention)
    ensures w.births.Keys == w.rows.Keys && TimelyInv(After(w, a), retention)
  {
    BirthsAreRows(w);
    PromptIsCurrent(w, a, retention);
    SettledRow(w, a);
    var w', work := After(w, a), w.sessions[a.session];
    if RowsAfter(w, a) != w.rows {
      forall g | g in w.grants && Current(w, g) && g.claim.key == work.grant.claim.key
        ensures g.claim.startedAt <= work.now
      {
        SettleFollowsGrants(w, a, g);
      }
    }
    hide Inv, RowsAfter, NotBefore;
    assert forall g :: Current(w', g) <==> Current(w, g);
    forall g | g in w'.grants && Current(w', g) ensures NotBefore(w'.rows[g.claim.key], g.claim.startedAt) {
      assert NotBefore(w.rows[g.claim.key], g.claim.startedAt);
    }
  }

  lemma PurgeKeepsTimely(w: World, a: Step, retention: Duration)
    requires Inv(w) && Enabled(w, a) && a.Purge? && TimelyInv(w, retention)
    ensures w.births.Keys == w.rows.Keys && TimelyInv(After(w, a), retention)
  {
    BirthsAreRows(w);
    assert SessionOk(w, w.sessions[a.session]);
    hide RowsOk, GrantsOk, SessionsOk;
    var w' := After(w, a);
    forall g | g in w.grants && !Current(w', g) ensures g.claim.startedAt + retention < w'.clock {
      assert Current(w, g) ==> g.claim.key in a.gone && NotBefore(w.rows[g.claim.key], g.claim.startedAt);
    }
  }

  lemma OtherStepsKeepTimely(w: World, a: Step, retention: Duration)
    requires Inv(w) && Enabled(w, a) && !a.Take? && !a.Settle? && !a.Purge?
    requires TimelyInv(w, retention) && Retains(a, retention)
    ensures w.births.Keys == w.rows.Keys && TimelyInv(After(w, a), retention)
  {
    BirthsAreRows(w);
    hide RowsOk, SessionsOk, NotBefore;
    var w' := After(w, a);
    forall g | g in w.grants
      ensures Current(w', g) <==> Current(w, g)
      ensures Current(w, g) ==> w'.rows[g.claim.key] == w.rows[g.claim.key]
    {
    }
  }

  lemma StepKeepsTimely(w: World, a: Step, retention: Duration)
    requires Inv(w) && Enabled(w, a) && TimelyInv(w, retention) && Prompt(w, a, retention) && Retains(a, retention)
    ensures w.births.Keys == w.rows.Keys && TimelyInv(After(w, a), retention)
  {
    hide Inv, Enabled, TimelyInv, Prompt, Retains, RowsAfter;
    match a
    case Take(_, _) => TakeKeepsTimely(w, a, retention);
    case Settle(_) => SettleKeepsTimely(w, a, retention);
    case Purge(_, _) => PurgeKeepsTimely(w, a, retention);
    case _ => OtherStepsKeepTimely(w, a, retention);
  }

  /** Up to step `j` workers act on claims no older than `prompt`, and Cleanup keeps receipts for `retention`. */
  ghost predicate Disciplined(
    worlds: seq<World>, steps: seq<Step>, retention: Duration, prompt: Duration, j: nat)
    requires j <= |steps| < |worlds|
  {
    forall k: nat | k < j :: Prompt(worlds[k], steps[k], prompt) && Retains(steps[k], retention)
  }

  lemma {:induction false} RunKeepsTimely(worlds: seq<World>, steps: seq<Step>, retention: Duration, j: nat)
    requires Run(worlds, steps) && worlds[0] == EMPTY && j <= |steps|
    requires Disciplined(worlds, steps, retention, retention, j)
    ensures j < |worlds| && Inv(worlds[j]) && TimelyInv(worlds[j], retention)
    decreases j
  {
    hide Run, Inv, TimelyInv, Enabled, After, Prompt, Retains;
    RunLength(worlds, steps);
    EmptyInv();
    RunKeepsInv(worlds, steps, j);
    if j == 0 {
      EmptyIsTimely(retention);
    } else {
      RunKeepsTimely(worlds, steps, retention, j - 1);
      RunStep(worlds, steps, j - 1);
      StepKeepsTimely(worlds[j - 1], steps[j - 1], retention);
    }
  }

  lemma EmptyIsTimely(retention: Duration)
    ensures TimelyInv(EMPTY, retention)
  {
  }

  /**
   * Within the retention fencing holds for receipts as it does for deliveries: while no worker acts on a claim older
   * than the time Cleanup keeps processed receipts, a completed or superseded claim that is itself no older than
   * that is refused and changes nothing.
   */
  lemma StaleClaimsAreFencedWithinRetention(
    worlds: seq<World>, steps: seq<Step>, retention: Duration, i: nat, j: nat, g: Grant)
    requires Run(worlds, steps) && worlds[0] == EMPTY && i < j <= |steps|
    requires Disciplined(worlds, steps, retention, retention, j)
    requires g in worlds[i].grants && Ends(worlds[i], steps[i], g)
    requires worlds[j].clock <= g.claim.startedAt + retention
    ensures Fenced(worlds[j].rows, g.claim)
  {
    hide Run, Inv, Owns, Fenced;
    RunLength(worlds, steps);
    EndedForever(worlds, steps, i, j, g);
    RunKeepsTimely(worlds, steps, retention, j);
    assert Current(worlds[j], g);
    StaleClaimsAreFenced(worlds, steps, i, j, g);
  }

  // ----- budget and absorption -----

  /** Under one policy, a receipt that waits for another attempt has attempts left. */
  lemma QueuedReceiptHasAttemptsLeft(w: World, a: Step, max: int)
    requires Inv(w) && Enabled(w, a) && max >= 1
    requires a.Settle? && w.sessions[a.session].Completing? ==> w.sessions[a.session].policy.EffectiveMax() == max
    requires forall key | key in w.rows && w.rows[key].state.Queued() :: w.rows[key].attemptCount < max
    ensures forall key | key in RowsAfter(w, a) && RowsAfter(w, a)[key].state.Queued() ::
      RowsAfter(w, a)[key].attemptCount < max
  {
    hide GrantsOk, O.RenewedUntil;
  }

  ghost predicate OnePolicy(steps: seq<Step>, max: int) {
    forall i | 0 <= i < |steps| && steps[i].Begin? && steps[i].work.Completing? ::
      steps[i].work.policy.EffectiveMax() == max
  }

  ghost predicate Budgeted(w: World, max: int) {
    && (forall s | s in w.sessions && w.sessions[s].Completing? :: w.sessions[s].policy.EffectiveMax() == max)
    && (forall key | key in w.rows && w.rows[key].state.Queued() :: w.rows[key].attemptCount < max)
  }

  lemma StepKeepsBudget(w: World, a: Step, max: int)
    requires Inv(w) && Enabled(w, a) && Budgeted(w, max) && max >= 1
    requires a.Begin? && a.work.Completing? ==> a.work.policy.EffectiveMax() == max
    ensures Budgeted(After(w, a), max)
  {
    QueuedReceiptHasAttemptsLeft(w, a, max);
    hide RowsAfter, GrantsOk, RowsOk;
  }

  /** In every reachable state receipts are well formed, and one that waits for another attempt has attempts left. */
  lemma {:induction false} ReachableReceiptsAreSound(worlds: seq<World>, steps: seq<Step>, max: int, i: nat)
    requires Run(worlds, steps) && worlds[0] == EMPTY && OnePolicy(steps, max) && max >= 1 && i < |worlds|
    ensures RowsOk(worlds[i].rows) && Budgeted(worlds[i], max)
  {
    assert Inv(EMPTY);
    RunKeepsInv(worlds, steps, i);
    if i > 0 {
      hide Enabled, After, Budgeted;
      ReachableReceiptsAreSound(worlds, steps, max, i - 1);
      RunKeepsInv(worlds, steps, i - 1);
      StepKeepsBudget(worlds[i - 1], steps[i - 1], max);
    }
  }

  lemma TerminalStep(w: World, a: Step, key: ReceiptKey)
    requires Inv(w) && Enabled(w, a) && key in w.rows && w.rows[key].state.Terminal()
    ensures (a.Purge? && key in a.gone) || (key in RowsAfter(w, a) && RowsAfter(w, a)[key] == w.rows[key])
  {
    hide GrantsOk, O.RenewedUntil;
  }

  /** A terminal receipt stays as it is, in every continuation of the run, until Cleanup removes it. */
  lemma {:induction false} TerminalReceiptIsAbsorbing(
    worlds: seq<World>, steps: seq<Step>, i: nat, j: nat, key: ReceiptKey)
    requires Run(worlds, steps) && Inv(worlds[0]) && i <= j < |worlds|
    requires key in worlds[i].rows && worlds[i].rows[key].state.Terminal()
    requires forall k | i <= k < j :: !(steps[k].Purge? && key in steps[k].gone)
    ensures key in worlds[j].rows && worlds[j].rows[key] == worlds[i].rows[key]
  {
    hide Inv, Enabled;
    if i < j {
      TerminalReceiptIsAbsorbing(worlds, steps, i, j - 1, key);
      RunKeepsInv(worlds, steps, j - 1);
      TerminalStep(worlds[j - 1], steps[j - 1], key);
    }
  }

  lemma StepKeepsContent(w: World, a: Step, key: ReceiptKey)
    requires Inv(w) && Enabled(w, a) && key in w.rows && !(a.Purge? && key in a.gone)
    ensures key in RowsAfter(w, a) && RowsAfter(w, a)[key].content == w.rows[key].content
  {
    hide GrantsOk, O.RenewedUntil;
  }

  /** Until Cleanup removes it, a receipt keeps the content it was first received with. */
  lemma {:induction false} ContentIsKept(worlds: seq<World>, steps: seq<Step>, i: nat, j: nat, key: ReceiptKey)
    requires Run(worlds, steps) && Inv(worlds[0]) && i <= j < |worlds| && key in worlds[i].rows
    requires forall k | i <= k < j :: !(steps[k].Purge? && key in steps[k].gone)
    ensures key in worlds[j].rows && worlds[j].rows[key].content == worlds[i].rows[key].content
    decreases j
  {
    hide Inv, Enabled, Run, RowsAfter;
    RunLength(worlds, steps);
    if i < j {
      ContentIsKept(worlds, steps, i, j - 1, key);
      RunKeepsInv(worlds, steps, j - 1);
      RunStep(worlds, steps, j - 1);
      StepKeepsContent(worlds[j - 1], steps[j - 1], key);
    }
  }

  /**
   * Deduplication: a message received again, whenever its insert and the read after it take place, is accepted exactly
   * when its event type, content type and body are those of the receipt first stored, and refused with a conflict
   * otherwise; the read finds nothing only if Cleanup removed the receipt.
   */
  lemma DuplicatesAreRecognised(
    worlds: seq<World>, steps: seq<Step>, i: nat, j: nat, key: ReceiptKey, content: Content)
    requires Run(worlds, steps) && Inv(worlds[0]) && i <= j < |worlds| && key in worlds[i].rows
    requires forall k | i <= k < j :: !(steps[k].Purge? && key in steps[k].gone)
    ensures
      var stored := worlds[i].rows[key].content;
      DuplicateVerdict(worlds[j].rows, key, content) ==
        if stored.eventType == content.eventType && stored.contentType == content.contentType
           && stored.body == content.body
        then Common.Ok(()) else Err(Conflict)
  {
    hide Inv, Run;
    ContentIsKept(worlds, steps, i, j, key);
  }

  /** The step stores the first receipt of `content` under `key`. */
  ghost predicate Stores(w: World, a: Step, key: ReceiptKey, content: Content) {
    && a.Receive? && a.session in w.sessions && w.sessions[a.session].Receiving?
    && w.sessions[a.session].key == key && key !in w.rows && w.sessions[a.session].content == content
  }

  /** A received message waits from the instant its receiver read, with no attempt made. */
  lemma NewReceiptsAreDueAtOnce(w: World, a: Step, key: ReceiptKey, content: Content)
    requires Enabled(w, a) && Stores(w, a, key, content)
    ensures
      var now, rows' := w.sessions[a.session].now, RowsAfter(w, a);
      && key in rows' && rows'[key].state.Pending? && rows'[key].attemptCount == 0 && rows'[key].receivedAt == now
      && (forall reading :: Due(rows'[key], reading) <==> now <= reading)
      && rows'[key].content == content.(headers := ReadBackHeaders(content.headers))
  {
    hide ReadBackHeaders;
  }

  lemma TakenClaim(w: World, a: Step)
    requires Enabled(w, a) && a.Take? && w.births.Keys == w.rows.Keys
    ensures a.key in w.rows
    ensures
      var g := Grant(
        ReceiptClaim(a.key, w.rows[a.key].content, w.rows[a.key].attemptCount + 1, w.sessions[a.session].now),
        w.births[a.key]);
      g in After(w, a).grants && Owns(After(w, a), g)
  {
  }

  /**
   * Handlers see what was received: whenever a receipt is granted, before Cleanup removes it, the claim carries the
   * source, id, type, timestamp, body, content type and metadata of the message first received, its headers as the
   * column gives them back, and the right to complete the attempt.
   */
  lemma HandlersSeeWhatWasReceived(
    worlds: seq<World>, steps: seq<Step>, p: nat, q: nat, key: ReceiptKey, content: Content) returns (g: Grant)
    requires Run(worlds, steps) && worlds[0] == EMPTY && p < q < |steps|
    requires Stores(worlds[p], steps[p], key, content)
    requires steps[q].Take? && steps[q].key == key && steps[q].session in worlds[q].sessions
    requires forall k | p < k < q :: !(steps[k].Purge? && key in steps[k].gone)
    ensures q + 1 < |worlds| && Carries(worlds[q + 1], g, key, content)
    ensures g !in worlds[q].grants && g.claim.startedAt == worlds[q].sessions[steps[q].session].now
  {
    hide Run, Inv, After, RowsAfter, ReadBackHeaders;
    EmptyInv();
    RunLength(worlds, steps);
    RunStep(worlds, steps, p);
    NewReceiptsAreDueAtOnce(worlds[p], steps[p], key, content);
    RowsFollow(worlds[p], steps[p]);
    hide Enabled;
    RunKeepsInv(worlds, steps, p + 1);
    ContentIsKept(worlds, steps, p + 1, q, key);
    RunStep(worlds, steps, q);
    TakenClaim(worlds[q], steps[q]);
    var w := worlds[q];
    g := Grant(
      ReceiptClaim(key, w.rows[key].content, w.rows[key].attemptCount + 1, w.sessions[steps[q].session].now),
      w.births[key]);
    RunKeepsInv(worlds, steps, q);
    NewGrantIsNew(w, g);
  }

  lemma NewGrantIsNew(w: World, g: Grant)
    requires Inv(w) && g.claim.key in w.rows && g.claim.key in w.births && w.births[g.claim.key] == g.birth
    requires g.claim.attempt == w.rows[g.claim.key].attemptCount + 1
    ensures g !in w.grants
  {
  }

  lemma RowsFollow(w: World, a: Step)
    requires Enabled(w, a) && w.births.Keys == w.rows.Keys
    ensures After(w, a).rows == RowsAfter(w, a)
  {
  }

  /** The grant is the row's own, and gives the handler the received content. */
  ghost predicate Carries(w: World, g: Grant, key: ReceiptKey, content: Content) {
    && g in w.grants && Owns(w, g) && g.claim.key == key
    && g.claim.content.eventType == content.eventType && g.claim.content.timestamp == content.timestamp
    && g.claim.content.body == content.body && g.claim.content.contentType == content.contentType
    && g.claim.content.metadata == content.metadata && g.claim.content.headers == ReadBackHeaders(content.headers)
  }

  /** When the row of a receipt that is not finished becomes due. */
  function DueTime(r: Receipt): Option<Time> {
    if r.state.Terminal() then None
    else if r.state.Processing? then r.leaseExpiresAt
    else Some(r.nextAttemptAt)
  }

  /** Nothing is forgotten: a receipt that is not finished can be claimed from its due time on, and only then. */
  lemma EveryReceiptComesDue(worlds: seq<World>, steps: seq<Step>, n: nat, key: ReceiptKey, now: Time)
    requires Run(worlds, steps) && worlds[0] == EMPTY && n < |worlds| && key in worlds[n].rows
    ensures
      var r := worlds[n].rows[key];
      && (DueTime(r).Some? <==> !r.state.Terminal())
      && (Due(r, now) <==> DueTime(r).Some? && DueTime(r).value <= now)
  {
    hide Run;
    EmptyInv();
    RunKeepsInv(worlds, steps, n);
    assert RowOk(worlds[n].rows[key]);
  }

  // ----- completions -----

  /** Every column a completion leaves in the row. */
  ghost predicate Honoured(
    r: Receipt, was: Receipt, now: Time, handlerErr: Option<Code>, policy: S.RetryPolicy)
  {
    && r.content == was.content && r.attemptCount == was.attemptCount && r.receivedAt == was.receivedAt
    && r.leaseExpiresAt.None? && r.lastErrorCode == handlerErr && r.updatedAt == now
    && (r.state.Processed? <==> handlerErr.None?)
    && (r.state.Failed? <==>
        handlerErr in {Some(InvalidConfiguration), Some(InvalidMessage), Some(DecodeFailed), Some(UnknownEvent)})
    && (r.state.Retrying? <==> handlerErr.Some? && !Permanent(handlerErr.value) && policy.Retries(was.attemptCount))
    && (r.state.Exhausted? <==> handlerErr.Some? && !Permanent(handlerErr.value) && !policy.Retries(was.attemptCount))
    && (if r.state.Retrying?
        then
          var delay := policy.Delay(was.attemptCount);
          r.processedAt.None? && now + delay <= r.nextAttemptAt <= now + delay + delay / 5
        else r.processedAt == Some(now))
  }

  /**
   * A completion that is answered does what the handler's result calls for: nil is final, an error that no retry can
   * mend is final, and any other is retried exactly as long as the policy allows, within the policy's window.
   */
  lemma CompletionsAreHonoured(w: World, a: Step)
    requires Inv(w) && Enabled(w, a) && a.Settle? && w.sessions[a.session].Completing?
    requires Answers(w.rows, w.sessions[a.session].grant.claim)
    ensures
      var work, rows' := w.sessions[a.session], RowsAfter(w, a);
      var key := work.grant.claim.key;
      && key in rows' && Honoured(rows'[key], w.rows[key], work.now, work.handlerErr, work.policy)
  {
    hide RowsOk, GrantsOk, SessionsOk;
  }

  /** No claim of any run takes a receipt whose lease is live when its update runs, however stale its clock reading. */
  lemma LiveLeasesAreSpared(worlds: seq<World>, steps: seq<Step>, i: nat)
    requires Run(worlds, steps) && worlds[0] == EMPTY && i < |steps| && steps[i].Take?
    requires steps[i].key in worlds[i].rows && worlds[i].rows[steps[i].key].state.Processing?
    ensures
      var lease := worlds[i].rows[steps[i].key].leaseExpiresAt;
      lease.Some? && lease.value <= worlds[i].clock
  {
    hide Run, GrantsOk;
    RunLength(worlds, steps);
    EmptyInv();
    RunKeepsInv(worlds, steps, i);
    RunStep(worlds, steps, i);
    assert SessionOk(worlds[i], worlds[i].sessions[steps[i].session]) && RowOk(worlds[i].rows[steps[i].key]);
  }
}
