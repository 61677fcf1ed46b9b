/**
 * How far the fencing of receipt claims reaches: the exact condition on the age of a claim, on the promptness of
 * the workers and on the time Cleanup keeps processed receipts. Where it fails, a run from the empty table shows it.
 */
module InboxBoundary {
  import opened Common
  import opened GoTime
  import opened Inbox
  import opened InboxRuns
  import opened InboxTheorems
  import S = Scheduling

  /** Cleanup keeps processed receipts for `retention`; workers act on claims no older than `prompt`. */
  datatype Bounds = Bounds(retention: Duration, prompt: Duration)

  /** In this run within the bounds, step `i` ended the claim, and at world `j` it is no older than `age`. */
  ghost predicate EndedAndRecent(
    worlds: seq<World>, steps: seq<Step>, i: nat, j: nat, g: Grant, b: Bounds, age: int)
  {
    && Run(worlds, steps) && |worlds| == |steps| + 1 && worlds[0] == EMPTY && i < j <= |steps|
    && Disciplined(worlds, steps, b.retention, b.prompt, j)
    && g in worlds[i].grants && Ends(worlds[i], steps[i], g) && worlds[j].clock <= g.claim.startedAt + age
  }

  /** Every such claim of every such run is refused and changes nothing. */
  ghost predicate FencedUpTo(b: Bounds, age: int) {
    forall worlds: seq<World>, steps, i: nat, j: nat, g: Grant ::
      EndedAndRecent(worlds, steps, i, j, g, b, age) ==> Fenced(worlds[j].rows, g.claim)
  }

  lemma TighterBounds(
    worlds: seq<World>, steps: seq<Step>, retention: Duration, prompt: Duration, slack: Duration, j: nat)
    requires j <= |steps| < |worlds| && Disciplined(worlds, steps, retention, prompt, j) && prompt <= slack
    ensures Disciplined(worlds, steps, retention, slack, j)
  {
    forall k: nat | k < j ensures Prompt(worlds[k], steps[k], slack) && Retains(steps[k], retention) {
      assert Prompt(worlds[k], steps[k], prompt);
    }
  }

  lemma FencedWithinRetention(b: Bounds, age: int)
    requires b.prompt <= b.retention && age <= b.retention
    ensures FencedUpTo(b, age)
  {
    hide Run, Fenced, Ends;
    forall worlds: seq<World>, steps, i: nat, j: nat, g: Grant | EndedAndRecent(worlds, steps, i, j, g, b, age)
      ensures Fenced(worlds[j].rows, g.claim)
    {
      TighterBounds(worlds, steps, b.retention, b.prompt, b.retention, j);
      StaleClaimsAreFencedWithinRetention(worlds, steps, b.retention, i, j, g);
    }
  }

  // ----- building runs -----

  datatype Trace = Trace(worlds: seq<World>, steps: seq<Step>) {
    function Last(): World
      requires worlds != []
    {
      worlds[|worlds| - 1]
    }
  }

  /** A run from the empty table within the bounds. */
  ghost predicate Good(r: Trace, b: Bounds) {
    && Run(r.worlds, r.steps) && r.worlds[0] == EMPTY
    && Disciplined(r.worlds, r.steps, b.retention, b.prompt, |r.steps|)
  }

  ghost predicate Continues(r: Trace, s: Trace) {
    r.worlds <= s.worlds && r.steps <= s.steps
  }

  lemma Extend(r: Trace, b: Bounds, a: Step) returns (s: Trace)
    requires Good(r, b) && Enabled(r.Last(), a) && r.Last().births.Keys == r.Last().rows.Keys
    requires Prompt(r.Last(), a, b.prompt) && Retains(a, b.retention)
    ensures Good(s, b) && Continues(r, s) && |r.worlds| == |r.steps| + 1 && |s.steps| == |r.steps| + 1
    ensures s.Last() == After(r.Last(), a) && s.steps[|r.steps|] == a && s.worlds[|r.steps|] == r.Last()
  {
    hide Enabled, After, Prompt, Retains;
    s := Trace(r.worlds + [After(r.Last(), a)], r.steps + [a]);
  }

  /** Session 0 reads the clock for `work` and carries it out with `a`. */
  lemma Act(r: Trace, b: Bounds, work: Session, a: Step) returns (s: Trace)
    requires Good(r, b) && r.Last().births.Keys == r.Last().rows.Keys
    requires 0 !in r.Last().sessions && MayBegin(r.Last(), work) && (work.Cleaning? ==> work.retention >= b.retention)
    requires !a.Tick? && !a.Begin? && a.session == 0
    requires
      var w := r.Last().(sessions := r.Last().sessions[0 := work]);
      Enabled(w, a) && Prompt(w, a, b.prompt)
    ensures
      var w := r.Last().(sessions := r.Last().sessions[0 := work]);
      && Good(s, b) && Continues(r, s) && |r.worlds| == |r.steps| + 1 && |s.steps| == |r.steps| + 2
      && s.steps[|r.steps| + 1] == a && s.worlds[|r.steps| + 1] == w
      && s.Last() == After(w, a).(sessions := r.Last().sessions)
  {
    hide MayBegin, After, Run, Disciplined, Enabled;
    RunLength(r.worlds, r.steps);
    var sessions := r.Last().sessions;
    var w := r.Last().(sessions := sessions[0 := work]);
    SessionBegins(r.Last(), work);
    SessionEnds(w, a, sessions, work);
    hide Good;
    s := Extend(r, b, Begin(0, work));
    s := Extend(s, b, a);
  }

  lemma SessionBegins(w: World, work: Session)
    requires 0 !in w.sessions && MayBegin(w, work) && w.births.Keys == w.rows.Keys
    ensures Enabled(w, Begin(0, work)) && After(w, Begin(0, work)) == w.(sessions := w.sessions[0 := work])
  {
  }

  lemma SessionEnds(w: World, a: Step, sessions: map<nat, Session>, work: Session)
    requires Enabled(w, a) && !a.Tick? && !a.Begin? && a.session == 0 && w.births.Keys == w.rows.Keys
    requires 0 !in sessions && w.sessions == sessions[0 := work]
    ensures After(w, a).(sessions := sessions) == After(w, a)
  {
    assert forall x | x in sessions :: x in sessions[0 := work] - {0};
    assert sessions[0 := work] - {0} == sessions;
    hide RowsAfter, Enabled;
  }

  // ----- one receipt -----

  const KEY: ReceiptKey := ReceiptKey("source", "id")
  const CONTENT: Content := Content("type", 0, [], "", map[], map[])

  /** The world without receipts, and the world with the one receipt `row`, the latest inserted so far. */
  function Empty(births: nat, clock: Time, sessions: map<nat, Session>, grants: set<Grant>): World {
    World(map[], map[], births, clock, sessions, grants)
  }
  function Holding(row: Receipt, births: nat, clock: Time, sessions: map<nat, Session>, grants: set<Grant>): World
    requires births > 0
  {
    World(map[KEY := row], map[KEY := births - 1], births, clock, sessions, grants)
  }

  function Arrived(now: Time): Receipt { NewReceipt(CONTENT, now) }
  function Taken(now: Time): Receipt { AfterClaim(map[KEY := Arrived(now)], KEY, now, MINUTE)[KEY] }
  /** Taken at `now` and settled by a completion that read the clock at `read`. */
  function Finished(now: Time, read: Time): Receipt { Settled(Taken(now), read, None, Processed, None) }

  /** The claim granted at `now` on the row of number `birth`. */
  function Claimed(birth: nat, now: Time): Grant { Grant(ClaimFor(map[KEY := Arrived(now)], KEY, now), birth) }
  function Completion(g: Grant, read: Time): Session { Completing(g, read, None, S.STANDARD_POLICY, 0) }

  lemma ArriveAndTake(
    r: Trace, b: Bounds, births: nat, now: Time, sessions: map<nat, Session>, grants: set<Grant>) returns (s: Trace)
    requires Good(r, b) && r.Last() == Empty(births, now, sessions, grants) && 0 !in sessions
    ensures Good(s, b) && Continues(r, s) && |s.steps| == |r.steps| + 4
    ensures s.Last() == Holding(Taken(now), births + 1, now, sessions, grants + {Claimed(births, now)})
    ensures s.steps[|r.steps| + 3] == Take(0, KEY)
    ensures s.worlds[|r.steps| + 3]
      == Holding(Arrived(now), births + 1, now, sessions[0 := Claiming(now, MINUTE)], grants)
  {
    hide Good;
    var arrived := Act(r, b, Receiving(KEY, CONTENT, now), Receive(0));
    assert arrived.Last() == Holding(Arrived(now), births + 1, now, sessions, grants);
    s := Act(arrived, b, Claiming(now, MINUTE), Take(0, KEY));
  }

  /** A completion settles the taken receipt, whichever of its incarnations the claim was granted on. */
  lemma SettledWorld(
    births: nat, now: Time, at: Time, s: nat, sessions: map<nat, Session>, grants: set<Grant>, g: Grant, read: Time)
    requires births > 0 && s in sessions && sessions[s] == Completion(g, read)
    requires g.claim.key == KEY && g.claim.attempt == 1
    ensures
      var w := Holding(Taken(now), births, at, sessions, grants);
      && Enabled(w, Settle(s)) && w.births.Keys == w.rows.Keys
      && After(w, Settle(s)) == Holding(Finished(now, read), births, at, sessions - {s}, grants)
  {
  }

  lemma Finish(r: Trace, b: Bounds, births: nat, now: Time, sessions: map<nat, Session>, grants: set<Grant>, g: Grant)
    returns (s: Trace)
    requires Good(r, b) && births > 0 && r.Last() == Holding(Taken(now), births, now, sessions, grants)
    requires 0 !in sessions && g in grants && g.claim.key == KEY && g.claim.attempt == 1
    requires now <= g.claim.startedAt + b.prompt
    ensures Good(s, b) && Continues(r, s) && |s.steps| == |r.steps| + 2
    ensures s.Last() == Holding(Finished(now, now), births, now, sessions, grants)
    ensures
      var work := Completion(g, now);
      && s.steps[|r.steps| + 1] == Settle(0)
      && s.worlds[|r.steps| + 1] == Holding(Taken(now), births, now, sessions[0 := work], grants)
  {
    hide Good, Finished, Taken;
    SettledWorld(births, now, now, 0, sessions[0 := Completion(g, now)], grants, g, now);
    hide RowsAfter;
    s := Act(r, b, Completion(g, now), Settle(0));
  }

  lemma Clean(
    r: Trace, b: Bounds, row: Receipt, births: nat, now: Time, sessions: map<nat, Session>, grants: set<Grant>)
    returns (s: Trace)
    requires Good(r, b) && births > 0 && r.Last() == Holding(row, births, now, sessions, grants) && 0 !in sessions
    requires b.retention > 0 && row.state.Terminal() && row.processedAt.Some?
    requires row.processedAt.value < now - b.retention
    ensures Good(s, b) && Continues(r, s) && |s.steps| == |r.steps| + 2
    ensures s.Last() == Empty(births, now, sessions, grants)
  {
    hide Good;
    s := Act(r, b, Cleaning(now, b.retention), Purge(0, {KEY}));
  }

  // ----- the two failures -----

  /** The claim of instant 1, and the instant at which Cleanup may first remove the receipt it completed at once. */
  const FIRST: Grant := Claimed(0, 1)
  function Later(b: Bounds): Time { b.retention + 2 }
  function SecondGrant(b: Bounds): Grant { Claimed(1, Later(b)) }

  /** A second worker of the first claim has read the clock at 1 and stalls in session 1, or there is none. */
  function Stalled(stalls: bool): map<nat, Session> {
    if stalls then map[1 := Completion(FIRST, 1)] else map[]
  }

  /** The receipt is received, claimed and, at once, completed: step 5, or 6 with the stalled worker. */
  lemma Opening(b: Bounds, stalls: bool) returns (r: Trace, i: nat)
    requires b.retention >= 1 && b.prompt >= 0
    ensures Good(r, b) && i < |r.steps| && r.Last() == Holding(Finished(1, 1), 1, 1, Stalled(stalls), {FIRST})
    ensures FIRST in r.worlds[i].grants && Ends(r.worlds[i], r.steps[i], FIRST)
  {
    r := Trace([EMPTY], []);
    assert Good(r, b);
    hide Good, Finished, Taken;
    r := ArriveAndTake(r, b, 0, 1, map[], {});
    if stalls {
      assert r.Last().grants == {FIRST};
      r := Extend(r, b, Begin(1, Completion(FIRST, 1)));
      assert r.Last() == Holding(Taken(1), 1, 1, Stalled(true), {FIRST});
    }
    i := |r.steps| + 1;
    r := Finish(r, b, 1, 1, Stalled(stalls), {FIRST}, FIRST);
  }

  /** After the retention Cleanup removes it, and it is received and claimed again. */
  lemma SecondLife(b: Bounds, stalls: bool) returns (r: Trace, i: nat)
    requires b.retention >= 1 && b.prompt >= 0
    ensures Good(r, b) && i < |r.steps|
    ensures r.Last() == Holding(Taken(Later(b)), 2, Later(b), Stalled(stalls), {FIRST, SecondGrant(b)})
    ensures FIRST in r.worlds[i].grants && Ends(r.worlds[i], r.steps[i], FIRST)
  {
    r, i := Opening(b, stalls);
    hide Good, Ends, Taken;
    assert Finished(1, 1).state.Terminal() && Finished(1, 1).processedAt == Some(1);
    hide Finished;
    r := Extend(r, b, Tick(Later(b)));
    assert r.Last() == Holding(Finished(1, 1), 1, Later(b), Stalled(stalls), {FIRST});
    r := Clean(r, b, Finished(1, 1), 1, Later(b), Stalled(stalls), {FIRST});
    r := ArriveAndTake(r, b, 1, Later(b), Stalled(stalls), {FIRST});
    assert {FIRST} + {SecondGrant(b)} == {FIRST, SecondGrant(b)};
  }

  /**
   * The exception is real, and starts right after the retention: at `retention + 1` a completed claim answers to the
   * receipt that was received again, although every worker acts at once. Completing with it settles the receipt, and
   * the completion of the worker that holds it is refused.
   */
  lemma RebornReceiptAnswersStaleClaim(b: Bounds) returns (r: Trace, i: nat, g: Grant, live: Grant)
    requires b.retention >= 1 && b.prompt >= 0
    ensures Good(r, b) && i < |r.steps|
    ensures g in r.worlds[i].grants && Ends(r.worlds[i], r.steps[i], g)
    ensures r.Last().clock == g.claim.startedAt + b.retention + 1 && !Fenced(r.Last().rows, g.claim)
    ensures live in r.Last().grants && Owns(r.Last(), live)
    ensures
      var settled := AfterComplete(r.Last().rows, g.claim, r.Last().clock, None, S.STANDARD_POLICY, 0);
      settled != r.Last().rows && Fenced(settled, live.claim)
  {
    r, i := SecondLife(b, false);
    g, live := FIRST, SecondGrant(b);
    hide Good, Ends;
    var settled := AfterComplete(r.Last().rows, g.claim, r.Last().clock, None, S.STANDARD_POLICY, 0);
    assert !Answers(settled, live.claim);
  }

  /**
   * One worker that is not prompt spoils the bound for all others: when it may act on a claim one instant older than
   * the retention, a completion that has read the clock at 1 settles the second receipt as if it had been processed
   * then. Cleanup removes it at once, it is received and claimed a third time, and the second claim, superseded at
   * the age of 0, answers.
   */
  lemma SlackWorkerSpoilsTheBound(b: Bounds) returns (r: Trace, i: nat, g: Grant)
    requires b.retention >= 1 && b.prompt > b.retention
    ensures Good(r, b) && i < |r.steps|
    ensures g in r.worlds[i].grants && Ends(r.worlds[i], r.steps[i], g)
    ensures r.Last().clock == g.claim.startedAt && !Fenced(r.Last().rows, g.claim)
  {
    var now, grants := Later(b), {FIRST, SecondGrant(b)};
    g := SecondGrant(b);
    r, i := SecondLife(b, true);
    hide Good;
    SettledWorld(2, now, now, 1, Stalled(true), grants, FIRST, 1);
    hide RowsAfter;
    r := Extend(r, b, Settle(1));
    assert Stalled(true) - {1} == map[];
    assert r.Last() == Holding(Finished(now, 1), 2, now, map[], grants);
    r := Clean(r, b, Finished(now, 1), 2, now, map[], grants);
    i := |r.steps| + 3;
    r := ArriveAndTake(r, b, 2, now, map[], grants);
  }

  /**
   * The boundary: a completed or superseded receipt claim is refused up to the given age, in every run within the
   * bounds, exactly when neither that age nor the age of the claims workers act on exceeds the time Cleanup keeps
   * processed receipts.
   */
  lemma FencedExactlyWithinRetention(b: Bounds, age: int)
    requires b.retention >= 1 && b.prompt >= 0 && age >= 0
    ensures FencedUpTo(b, age) <==> b.prompt <= b.retention && age <= b.retention
  {
    hide Run, Fenced, Ends, FencedUpTo, Good;
    if b.prompt <= b.retention && age <= b.retention {
      FencedWithinRetention(b, age);
    } else if b.prompt > b.retention {
      var r, i, g := SlackWorkerSpoilsTheBound(b);
      NotFencedUpTo(b, age, r, i, g);
    } else {
      var r, i, g, _ := RebornReceiptAnswersStaleClaim(b);
      NotFencedUpTo(b, age, r, i, g);
    }
  }

  lemma NotFencedUpTo(b: Bounds, age: int, r: Trace, i: nat, g: Grant)
    requires Good(r, b) && i < |r.steps| && g in r.worlds[i].grants && Ends(r.worlds[i], r.steps[i], g)
    requires r.Last().clock <= g.claim.startedAt + age && !Fenced(r.Last().rows, g.claim)
    ensures !FencedUpTo(b, age)
  {
    hide Fenced, Ends, Run;
    RunLength(r.worlds, r.steps);
    assert EndedAndRecent(r.worlds, r.steps, i, |r.steps|, g, b, age);
  }
}
