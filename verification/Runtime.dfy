/** postgres/runtime.go: the timing rules of NewRuntime and the heartbeat that renews a lease. */
module DurableRuntime {
  import opened Common
  import opened GoTime
  import S = Scheduling
  import O = Outbox

  // ----- NewRuntime -----

  datatype Config = Config(
    hasStore: bool,
    hasSender: bool,
    hasInboundHandler: bool,
    retryPolicy: S.RetryPolicy,
    lease: Duration,
    renewalInterval: Duration,
    renewalTimeout: Duration,
    pollInterval: Duration,
    completionTimeout: Duration,
    outboundWorkers: int64,
    inboundWorkers: int64)

  function Lease(c: Config): Duration { if c.lease <= 0 then MINUTE else c.lease }
  function Interval(c: Config): Duration { if c.renewalInterval == 0 then TruncDiv(Lease(c), 3) else c.renewalInterval }
  function Timeout(c: Config): Duration {
    if c.renewalTimeout != 0 then c.renewalTimeout else if 5 * SECOND < Interval(c) then 5 * SECOND else Interval(c)
  }

  /** The rule for renewals: pause plus timeout are shorter than the lease, none of the three is negative. */
  predicate TimingsFit(c: Config) {
    c.renewalTimeout >= 0 && Interval(c) > 0 && Interval(c) + Timeout(c) < Lease(c)
  }

  predicate PartsFit(c: Config) {
    && c.hasStore && c.outboundWorkers >= 0 && c.inboundWorkers >= 0
    && (c.outboundWorkers > 0 ==> c.hasSender) && (c.inboundWorkers > 0 ==> c.hasInboundHandler)
  }

  function Defaulted(c: Config): Config {
    Config(c.hasStore, c.hasSender, c.hasInboundHandler,
           if c.retryPolicy.maxAttempts == 0 && c.retryPolicy.schedule == [] then S.STANDARD_POLICY else c.retryPolicy,
           Lease(c), Interval(c), Timeout(c),
           if c.pollInterval <= 0 then 250 * MILLISECOND else c.pollInterval,
           if c.completionTimeout <= 0 then 10 * SECOND else c.completionTimeout,
           if c.outboundWorkers == 0 && c.hasSender then 4 else c.outboundWorkers,
           if c.inboundWorkers == 0 && c.hasInboundHandler then 4 else c.inboundWorkers)
  }

  /** What the workers and heartbeats of an accepted runtime rely on. */
  predicate Runnable(c: Config) {
    && c.hasStore && c.retryPolicy.EffectiveMax() >= 1 && c.pollInterval > 0 && c.completionTimeout > 0
    && c.renewalInterval > 0 && c.renewalTimeout > 0 && c.renewalInterval + c.renewalTimeout < c.lease
    && (c.outboundWorkers > 0 <==> c.hasSender) && (c.inboundWorkers > 0 <==> c.hasInboundHandler)
  }

  /** Values that were given are used as given, and left-out ones have the documented defaults. */
  predicate KeepsGiven(given: Config, c: Config) {
    && c.hasSender == given.hasSender && c.hasInboundHandler == given.hasInboundHandler
    && (c.lease == if given.lease > 0 then given.lease else 60 * SECOND)
    && (c.renewalInterval == if given.renewalInterval != 0 then given.renewalInterval else c.lease / 3)
    && (c.renewalTimeout == if given.renewalTimeout != 0 then given.renewalTimeout
                            else if c.renewalInterval > 5 * SECOND then 5 * SECOND else c.renewalInterval)
    && (c.pollInterval == if given.pollInterval > 0 then given.pollInterval else SECOND / 4)
    && (c.completionTimeout == if given.completionTimeout > 0 then given.completionTimeout else 10 * SECOND)
    && (c.outboundWorkers == if given.outboundWorkers == 0 && given.hasSender then 4 else given.outboundWorkers)
    && (c.inboundWorkers == if given.inboundWorkers == 0 && given.hasInboundHandler then 4 else given.inboundWorkers)
    && (c.retryPolicy == if given.retryPolicy == S.RetryPolicy([], 0) then S.STANDARD_POLICY else given.retryPolicy)
  }

  lemma DefaultedIsRunnable(c: Config)
    requires PartsFit(c) && TimingsFit(c)
    ensures Runnable(Defaulted(c)) && KeepsGiven(c, Defaulted(c))
  {
  }

  /** Only these configurations are refused: a missing part, a negative number, or timings that do not fit. */
  lemma RefusedExactly(c: Config)
    ensures !(PartsFit(c) && TimingsFit(c)) <==>
      || !c.hasStore || c.outboundWorkers < 0 || c.inboundWorkers < 0
      || (c.outboundWorkers != 0 && !c.hasSender) || (c.inboundWorkers != 0 && !c.hasInboundHandler)
      || c.renewalInterval < 0 || c.renewalTimeout < 0
      || (c.renewalInterval == 0 && Lease(c) < 3)
      || Interval(c) + Timeout(c) >= Lease(c)
  {
  }

  /**
   * A configuration is accepted exactly when its parts are there and its effective timings fit. The subtraction in
   * the last timing check cannot wrap: the interval has been checked by then.
   */
  method NewRuntime(given: Config) returns (r: Result<Config>)
    ensures r == if PartsFit(given) && TimingsFit(given) then Ok(Defaulted(given)) else Err(InvalidConfiguration)
    ensures r.Ok? ==> Runnable(r.value) && KeepsGiven(given, r.value)
  {
    hide Runnable, KeepsGiven;
    if PartsFit(given) && TimingsFit(given) {
      DefaultedIsRunnable(given);
    }
    var retryPolicy, lease, interval, timeout := given.retryPolicy, given.lease, given.renewalInterval,
      given.renewalTimeout;
    var poll, completion := given.pollInterval, given.completionTimeout;
    var outbound, inbound := given.outboundWorkers, given.inboundWorkers;
    if !given.hasStore {
      return Err(InvalidConfiguration);
    }
    if !given.hasSender && outbound != 0 {
      return Err(InvalidConfiguration);
    }
    if !given.hasInboundHandler && inbound != 0 {
      return Err(InvalidConfiguration);
    }
    if retryPolicy.maxAttempts == 0 && |retryPolicy.schedule| == 0 {
      retryPolicy := S.STANDARD_POLICY;
    }
    if lease <= 0 {
      lease := MINUTE;
    }
    if interval < 0 || timeout < 0 {
      return Err(InvalidConfiguration);
    }
    if interval == 0 {
      interval := TruncDiv(lease, 3);
    }
    if interval <= 0 || interval >= lease {
      return Err(InvalidConfiguration);
    }
    if timeout == 0 {
      timeout := if 5 * SECOND < interval then 5 * SECOND else interval;
    }
    var rest: Duration := lease - interval;
    if timeout >= rest {
      return Err(InvalidConfiguration);
    }
    if poll <= 0 {
      poll := 250 * MILLISECOND;
    }
    if completion <= 0 {
      completion := 10 * SECOND;
    }
    if outbound < 0 || inbound < 0 {
      return Err(InvalidConfiguration);
    }
    if outbound == 0 && given.hasSender {
      outbound := 4;
    }
    if inbound == 0 && given.hasInboundHandler {
      inbound := 4;
    }
    return Ok(Config(given.hasStore, given.hasSender, given.hasInboundHandler, retryPolicy, lease, interval, timeout,
                     poll, completion, outbound, inbound));
  }

  /** The default renewal settings are accepted for every lease of at least 3ns, and for no shorter one. */
  lemma DefaultTimingsFit(c: Config)
    requires c.renewalInterval == 0 && c.renewalTimeout == 0
    ensures TimingsFit(c) <==> Lease(c) >= 3
  {
  }

  // ----- the schedule of a heartbeat -----

  /** One call of the database: it begins, reads the clock, and returns. */
  datatype Beat = Beat(start: Time, read: Time, end: Time)

  ghost predicate InTime(b: Beat, bound: int) {
    b.start <= b.read <= b.end <= b.start + bound
  }

  /**
   * The claim and the renewals after it, with exact timers: each renewal starts one interval after the last call. The
   * renewals end within the renewal timeout; the claim has no timeout of its own, it takes at most `claim`.
   */
  ghost predicate OnSchedule(beats: seq<Beat>, claim: int, interval: Duration, timeout: Duration) {
    && |beats| >= 1 && InTime(beats[0], claim)
    && (forall k | 1 <= k < |beats| :: InTime(beats[k], timeout))
    && (forall k | 0 <= k < |beats| - 1 :: beats[k + 1].start == beats[k].end + interval)
  }

  function Max(a: int, b: int): int { if a < b then b else a }

  ghost predicate StartsInTime(beats: seq<Beat>, lease: Duration) {
    forall k | 0 <= k < |beats| - 1 :: beats[k + 1].start < beats[k].read + lease
  }

  ghost predicate ReadsInTime(beats: seq<Beat>, lease: Duration) {
    forall k | 0 <= k < |beats| - 1 :: beats[k + 1].read < beats[k].read + lease
  }

  /** A call that reads the clock at once and takes as long as it may, and one that reads it at the last moment. */
  function EarlyBeat(start: Time, bound: int): Beat { Beat(start, start, start + bound) }
  function LateBeat(start: Time, bound: int): Beat { Beat(start, start + bound, start + bound) }

  /** The slowest claim before a late renewal, and a renewal of the slowest kind before a late one. */
  function SlowClaim(claim: int, interval: Duration, timeout: Duration): seq<Beat> {
    [EarlyBeat(0, claim), LateBeat(claim + interval, timeout)]
  }
  function SlowRenewal(interval: Duration, timeout: Duration): seq<Beat> {
    [Beat(0, 0, 0), EarlyBeat(interval, timeout), LateBeat(interval + timeout + interval, timeout)]
  }

  lemma SlowBeatsAreOnSchedule(claim: int, interval: Duration, timeout: Duration)
    requires claim >= 0 && interval > 0 && timeout > 0
    ensures OnSchedule(SlowClaim(claim, interval, timeout), claim, interval, timeout)
    ensures OnSchedule(SlowRenewal(interval, timeout), claim, interval, timeout)
  {
  }

  /** No call of a schedule takes longer than the slower of the two bounds. */
  lemma BeatIsBounded(beats: seq<Beat>, claim: int, interval: Duration, timeout: Duration, k: nat)
    requires OnSchedule(beats, claim, interval, timeout) && k < |beats|
    ensures InTime(beats[k], Max(claim, timeout))
    ensures k > 0 ==> InTime(beats[k], timeout) && beats[k].start == beats[k - 1].end + interval
  {
    assert k > 0 ==> beats[(k - 1) + 1].start == beats[k - 1].end + interval;
  }

  /** The exact condition for every renewal to start before the lease it renews has expired. */
  lemma StartsInTimeExactly(lease: Duration, claim: int, interval: Duration, timeout: Duration)
    requires claim >= 0 && interval > 0 && timeout > 0
    ensures (forall beats | OnSchedule(beats, claim, interval, timeout) :: StartsInTime(beats, lease))
      <==> interval + Max(claim, timeout) < lease
  {
    var a, b := SlowClaim(claim, interval, timeout), SlowRenewal(interval, timeout);
    SlowBeatsAreOnSchedule(claim, interval, timeout);
    if forall beats | OnSchedule(beats, claim, interval, timeout) :: StartsInTime(beats, lease) {
      assert StartsInTime(a, lease) && StartsInTime(b, lease);
      assert a[0 + 1].start < a[0].read + lease && b[1 + 1].start < b[1].read + lease;
    }
    if interval + Max(claim, timeout) < lease {
      forall beats: seq<Beat> | OnSchedule(beats, claim, interval, timeout) ensures StartsInTime(beats, lease) {
        forall k: nat | k < |beats| - 1 ensures beats[k + 1].start < beats[k].read + lease {
          BeatIsBounded(beats, claim, interval, timeout, k);
          BeatIsBounded(beats, claim, interval, timeout, k + 1);
        }
      }
    }
  }

  /** For the renewal's clock reading to precede the expiry, as its WHERE clause needs, one more timeout must fit. */
  lemma ReadsInTimeExactly(lease: Duration, claim: int, interval: Duration, timeout: Duration)
    requires claim >= 0 && interval > 0 && timeout > 0
    ensures (forall beats | OnSchedule(beats, claim, interval, timeout) :: ReadsInTime(beats, lease))
      <==> interval + Max(claim, timeout) + timeout < lease
  {
    var a, b := SlowClaim(claim, interval, timeout), SlowRenewal(interval, timeout);
    SlowBeatsAreOnSchedule(claim, interval, timeout);
    if forall beats | OnSchedule(beats, claim, interval, timeout) :: ReadsInTime(beats, lease) {
      assert ReadsInTime(a, lease) && ReadsInTime(b, lease);
      assert a[0 + 1].read < a[0].read + lease && b[1 + 1].read < b[1].read + lease;
    }
    if interval + Max(claim, timeout) + timeout < lease {
      forall beats: seq<Beat> | OnSchedule(beats, claim, interval, timeout) ensures ReadsInTime(beats, lease) {
        forall k: nat | k < |beats| - 1 ensures beats[k + 1].read < beats[k].read + lease {
          BeatIsBounded(beats, claim, interval, timeout, k);
          BeatIsBounded(beats, claim, interval, timeout, k + 1);
        }
      }
    }
  }

  /** The condition of ReadsInTimeExactly, with the bounds it is stated for. */
  ghost predicate Fits(lease: Duration, claim: int, interval: Duration, timeout: Duration) {
    claim >= 0 && interval > 0 && timeout > 0 && interval + Max(claim, timeout) + timeout < lease
  }

  /** A call ends before the lease stamped by the call before it has expired. */
  lemma EndsInTime(
    beats: seq<Beat>, lease: Duration, claim: int, interval: Duration, timeout: Duration, k: nat)
    requires OnSchedule(beats, claim, interval, timeout) && Fits(lease, claim, interval, timeout) && k + 1 < |beats|
    ensures beats[k + 1].read <= beats[k + 1].end < beats[k].read + lease
  {
    BeatIsBounded(beats, claim, interval, timeout, k);
    BeatIsBounded(beats, claim, interval, timeout, k + 1);
  }

  /**
   * Every accepted configuration starts its renewals in time, whichever clock the lease was stamped with, provided
   * that the claim returns within the lease less one interval.
   */
  lemma AcceptedRenewalsStartInTime(c: Config, claim: int, beats: seq<Beat>, k: nat, databaseClock: bool)
    requires TimingsFit(c) && 0 <= claim < Lease(c) - Interval(c)
    requires OnSchedule(beats, claim, Interval(c), Timeout(c)) && k + 1 < |beats|
    ensures beats[k + 1].start < beats[k].read + O.EffectiveLease(c.lease)
    ensures beats[k + 1].start < O.RenewedUntil(beats[k].read, Lease(c), databaseClock)
  {
    StartsInTimeExactly(Lease(c), claim, Interval(c), Timeout(c));
    assert StartsInTime(beats, Lease(c));
  }

  /**
   * That proviso is exact, and nothing enforces it: in an accepted configuration the first renewal after a claim of
   * that length starts at the expiry. An example is a lease of 60s, an interval of 20s, a timeout of 5s and a claim
   * of 40s.
   */
  lemma SlowClaimStartsTooLate(c: Config, claim: int)
    requires TimingsFit(c) && claim >= Lease(c) - Interval(c)
    ensures
      var beats := SlowClaim(claim, Interval(c), Timeout(c));
      && OnSchedule(beats, claim, Interval(c), Timeout(c))
      && beats[1].start >= beats[0].read + O.EffectiveLease(c.lease)
    ensures
      var example := Config(true, true, true, S.STANDARD_POLICY, MINUTE, 20 * SECOND, 5 * SECOND, 0, 0, 0, 0);
      PartsFit(example) && TimingsFit(example) && 40 * SECOND >= Lease(example) - Interval(example)
  {
    SlowBeatsAreOnSchedule(claim, Interval(c), Timeout(c));
  }

  /**
   * Not every accepted configuration lets its renewals read the clock in time, however fast the claim: 60s, 40s and
   * 19s are accepted.
   */
  lemma AcceptedRenewalMayReadTooLate(claim: int)
    requires claim >= 0
    ensures
      var c := Config(true, true, true, S.STANDARD_POLICY, MINUTE, 40 * SECOND, 19 * SECOND, 0, 0, 0, 0);
      && PartsFit(c) && TimingsFit(c)
      && !(forall beats | OnSchedule(beats, claim, Interval(c), Timeout(c)) :: ReadsInTime(beats, Lease(c)))
  {
    var c := Config(true, true, true, S.STANDARD_POLICY, MINUTE, 40 * SECOND, 19 * SECOND, 0, 0, 0, 0);
    assert Lease(c) == MINUTE && Interval(c) == 40 * SECOND && Timeout(c) == 19 * SECOND;
    ReadsInTimeExactly(Lease(c), claim, Interval(c), Timeout(c));
  }

  /** After a claim within the timeout the defaults read in time unless the lease is a multiple of 3ns up to 15s. */
  lemma DefaultRenewalsReadInTime(c: Config)
    requires c.renewalInterval == 0 && c.renewalTimeout == 0 && Lease(c) >= 3
    ensures Interval(c) > 0 && Timeout(c) > 0
    ensures (forall beats | OnSchedule(beats, Timeout(c), Interval(c), Timeout(c)) :: ReadsInTime(beats, Lease(c)))
      <==> Lease(c) > 15 * SECOND || Lease(c) % 3 != 0
  {
    ReadsInTimeExactly(Lease(c), Timeout(c), Interval(c), Timeout(c));
  }

  // ----- the heartbeat -----

  /** What the select of the loop meets, and how the renewal goes when the timer fired. */
  datatype Round =
    | ContextDone
    | StopClosed
    | Fired(latency: nat, rest: nat, failure: Option<Code>, contextEnded: bool)
  {
    predicate Goes() { Fired? && failure.None? }
    predicate Reports() { Fired? && failure.Some? && !contextEnded }
  }

  class LeaseHeartbeat {
    var stopped: bool
    var done: bool
    var cancelled: bool
    var err: Option<Code>

    constructor ()
      ensures !stopped && !done && !cancelled && err == None
    {
      stopped, done, cancelled, err := false, false, false, None;
    }

    /**
     * The loop, for as long as `rounds` lasts; the channel `done` is closed when it has returned. It renews until
     * something ends it; it reports an error, and cancels the work, exactly when a renewal failed while the work
     * context was still live. `beats` are the claim and the renewals that were started.
     */
    method Run(rounds: seq<Round>, claimed: Beat, interval: Duration, timeout: Duration)
      returns (last: nat, beats: seq<Beat>)
      requires !done && err == None && interval > 0 && claimed.start <= claimed.read <= claimed.end
      requires forall r | r in rounds && r.Fired? :: r.latency + r.rest <= timeout
      modifies this
      ensures last <= |rounds| && (forall k | 0 <= k < last :: rounds[k].Goes())
      ensures last < |rounds| ==> !rounds[last].Goes()
      ensures done <==> last < |rounds|
      ensures err == if last < |rounds| && rounds[last].Reports() then Some(Persistence) else None
      ensures cancelled == (old(cancelled) || err.Some?) && stopped == old(stopped)
      ensures beats != [] && beats[0] == claimed && OnSchedule(beats, claimed.end - claimed.start, interval, timeout)
      ensures |beats| == 1 + last + (if last < |rounds| && rounds[last].Fired? then 1 else 0)
    {
      last, beats := 0, [claimed];
      while last < |rounds|
        invariant last <= |rounds| && (forall k | 0 <= k < last :: rounds[k].Goes())
        invariant !done && err == None && cancelled == old(cancelled) && stopped == old(stopped)
        invariant |beats| == 1 + last && beats[0] == claimed
        invariant OnSchedule(beats, claimed.end - claimed.start, interval, timeout)
      {
        match rounds[last]
        case ContextDone =>
          done := true;
          return;
        case StopClosed =>
          done := true;
          return;
        case Fired(latency, rest, failure, contextEnded) =>
          var start := beats[last].end + interval;
          beats := beats + [Beat(start, start + latency, start + latency + rest)];
          if failure.Some? {
            if !contextEnded {
              err := Some(Persistence);
              cancelled := true;
            }
            done := true;
            return;
          }
          last := last + 1;
      }
    }

    /** Stop, once the loop has returned: it blocks until then. */
    method Stop() returns (e: Option<Code>)
      requires done
      modifies this
      ensures e == err && err == old(err)
      ensures stopped && done && (cancelled <==> old(cancelled) || !old(stopped))
    {
      if !stopped {
        stopped := true;
        cancelled := true;
      }
      return err;
    }
  }
}

/** What a heartbeat means for the rows: over every run of the outbound protocol, the claim is not lost. */
module LeaseKeeping {
  import opened Common
  import opened GoTime
  import opened Outbox
  import opened Ledger
  import opened OutboxRuns
  import opened DurableRuntime

  /** The claim owns its attempt, under a lease that ends at `until`. */
  ghost predicate HeldUntil(t: Tables, c: Claim, until: Time) {
    OwnsAttempt(t, c) && StillLeased(t, c) && t.deliveries[c.deliveryId].leaseExpiresAt == Some(until)
  }

  /** The step is a renewal or completion with this very claim. */
  ghost predicate ActsFor(w: World, a: Step, c: Claim)
    requires Enabled(w, a)
  {
    a.Settle? && w.sessions[a.session].claim.attemptId == c.attemptId
  }

  lemma RivalGrantKeepsRow(t: Tables, id: string, now: Time, lease: Duration, attemptId: string, c: Claim, until: Time)
    requires HeldUntil(t, c, until) && FirstDue(t, id, now) && now < until
    ensures SameRow(t, AfterClaim(t, id, now, lease, attemptId), c.deliveryId)
  {
    assert id != c.deliveryId;
  }

  lemma RivalRenewKeepsRow(t: Tables, other: Claim, now: Time, later: Time, c: Claim, until: Time)
    requires HeldUntil(t, c, until) && other.attemptId != c.attemptId
    ensures SameRow(t, AfterRenew(t, other, now, later), c.deliveryId)
  {
    assert MayRenew(t, other, now) ==> other.deliveryId != c.deliveryId;
  }

  lemma RivalCompleteKeepsRow(t: Tables, other: Claim, now: Time, report: Report, c: Claim, until: Time)
    requires HeldUntil(t, c, until) && other.attemptId != c.attemptId
    ensures SameRow(t, AfterComplete(t, other, now, report), c.deliveryId)
  {
    assert OwnsAttempt(t, other) && StillLeased(t, other) ==> other.deliveryId != c.deliveryId;
    hide Transition, FinishedAttempt, SettledDelivery;
  }

  lemma OtherStepsKeepHeldRow(w: World, a: Step, c: Claim, until: Time)
    requires Enabled(w, a) && HeldUntil(w.tables, c, until) && !a.Grant? && !a.Settle?
    ensures SameRow(w.tables, TablesAfter(w, a), c.deliveryId)
  {
  }

  lemma SameRowIsHeld(t: Tables, t': Tables, c: Claim, until: Time)
    requires HeldUntil(t, c, until) && SameRow(t, t', c.deliveryId)
    ensures HeldUntil(t', c, until)
  {
  }

  /** While the lease is live, nothing but the claim's own holder touches the row or its attempts. */
  lemma OthersLeaveLiveLease(w: World, a: Step, c: Claim, until: Time)
    requires Inv(w) && Enabled(w, a) && HeldUntil(w.tables, c, until) && w.clock < until && !ActsFor(w, a, c)
    ensures SameRow(w.tables, After(w, a).tables, c.deliveryId) && HeldUntil(After(w, a).tables, c, until)
  {
    hide LedgerOk, AllChronological, ClaimsRecorded, HeldUntil, SameRow, AfterClaim, AfterRenew, AfterComplete;
    match a {
      case Grant(s, id, attemptId) =>
        assert SessionOk(w, w.sessions[s]);
        RivalGrantKeepsRow(w.tables, id, w.sessions[s].now, w.sessions[s].lease, attemptId, c, until);
      case Settle(s) =>
        var work := w.sessions[s];
        if work.Renewing? {
          var later := RenewedUntil(work.now, work.lease, work.databaseClock);
          RivalRenewKeepsRow(w.tables, work.claim, work.now, later, c, until);
        } else {
          RivalCompleteKeepsRow(w.tables, work.claim, work.now, work.report, c, until);
        }
      case _ => OtherStepsKeepHeldRow(w, a, c, until);
    }
    SameRowIsHeld(w.tables, After(w, a).tables, c, until);
  }

  lemma LiveLeaseIsNotGranted(w: World, a: Step, c: Claim, until: Time)
    requires Inv(w) && Enabled(w, a) && HeldUntil(w.tables, c, until) && w.clock < until
    ensures !(a.Grant? && a.id == c.deliveryId)
  {
    hide LedgerOk, AllChronological, ClaimsRecorded;
    assert a.Grant? ==> SessionOk(w, w.sessions[a.session]);
  }

  /** The holder's renewal succeeds exactly when its clock reading comes before the expiry. */
  lemma RenewalNeedsLiveLease(t: Tables, c: Claim, now: Time, lease: Duration, databaseClock: bool, until: Time)
    requires HeldUntil(t, c, until)
    ensures MayRenew(t, c, now) <==> now < until
    ensures
      var renewed := AfterRenew(t, c, now, RenewedUntil(now, lease, databaseClock));
      if now < until then HeldUntil(renewed, c, RenewedUntil(now, lease, databaseClock)) else renewed == t
  {
  }

  // ----- a heartbeat within a run -----

  /** Step `p` is the claim's own renewal, with the given clock reading. */
  ghost predicate IsRenewal(w: World, a: Step, c: Claim, lease: Duration, read: Time) {
    && a.Settle? && a.session in w.sessions && w.sessions[a.session].Renewing?
    && w.sessions[a.session].claim == c && w.sessions[a.session].lease == lease && w.sessions[a.session].now == read
  }

  ghost predicate IsGrant(w: World, a: Step, c: Claim, lease: Duration, read: Time) {
    && Enabled(w, a) && a.Grant? && w.sessions[a.session].now == read && w.sessions[a.session].lease == lease
    && c == ClaimFor(w.tables, a.id, read, a.attemptId)
  }

  /**
   * Calls number k = 0, 1, … of the heartbeat (the claim, then the renewals) commit at step `at[k]`, before they
   * return; between them the holder does nothing else with the claim.
   */
  ghost predicate Beating(
    worlds: seq<World>, steps: seq<Step>, c: Claim, lease: Duration, beats: seq<Beat>, at: seq<nat>)
  {
    && Run(worlds, steps)
    && |at| == |beats| >= 1
    && (forall k | 0 <= k < |at| :: at[k] < |steps| && worlds[at[k]].clock <= beats[k].end)
    && (forall k | 0 <= k < |at| - 1 :: at[k] < at[k + 1])
    && IsGrant(worlds[at[0]], steps[at[0]], c, lease, beats[0].read)
    && (forall k | 1 <= k < |at| :: IsRenewal(worlds[at[k]], steps[at[k]], c, lease, beats[k].read))
    && (forall k, q | 0 <= k < |at| - 1 && at[k] < q < at[k + 1] :: NotByHolder(worlds, steps, q, c))
  }

  ghost predicate NotByHolder(worlds: seq<World>, steps: seq<Step>, q: nat, c: Claim)
    requires Run(worlds, steps)
  {
    q < |steps| && Enabled(worlds[q], steps[q]) && !ActsFor(worlds[q], steps[q], c)
  }

  lemma {:induction false} ClockGrows(worlds: seq<World>, steps: seq<Step>, i: nat, j: nat)
    requires Run(worlds, steps) && i <= j < |worlds|
    ensures worlds[i].clock <= worlds[j].clock
  {
    if i < j {
      hide TablesAfter, ClaimsAfter;
      ClockGrows(worlds, steps, i, j - 1);
      assert Enabled(worlds[j - 1], steps[j - 1]) && worlds[j] == After(worlds[j - 1], steps[j - 1]);
    }
  }

  lemma GrantHolds(w: World, a: Step, c: Claim, lease: Duration, read: Time)
    requires IsGrant(w, a, c, lease, read) && lease > 0
    ensures HeldUntil(After(w, a).tables, c, read + lease)
  {
    hide CloseAbandoned;
  }

  lemma RenewalHolds(w: World, a: Step, c: Claim, lease: Duration, read: Time, until: Time)
    requires HeldUntil(w.tables, c, until) && Enabled(w, a) && IsRenewal(w, a, c, lease, read) && read < until
    ensures exists later :: read + lease <= later && HeldUntil(After(w, a).tables, c, later)
  {
    var later := RenewedUntil(read, lease, w.sessions[a.session].databaseClock);
    assert HeldUntil(After(w, a).tables, c, later);
  }

  lemma HeldForAnotherStep(worlds: seq<World>, steps: seq<Step>, c: Claim, q: nat, until: Time)
    requires Run(worlds, steps) && q < |steps| && Inv(worlds[q]) && NotByHolder(worlds, steps, q, c)
    requires HeldUntil(worlds[q].tables, c, until) && worlds[q].clock < until
    ensures HeldUntil(worlds[q + 1].tables, c, until)
  {
    hide Inv, HeldUntil, After, ActsFor, Enabled, Run;
    RunStep(worlds, steps, q);
    OthersLeaveLiveLease(worlds[q], steps[q], c, until);
  }

  /** From one beat to the step of the next, the row stays held. */
  lemma {:induction false} HeldBetweenBeats(worlds: seq<World>, steps: seq<Step>, c: Claim, i: nat, j: nat, until: Time)
    requires Run(worlds, steps) && Inv(worlds[0]) && i <= j < |worlds| && worlds[j].clock < until
    requires HeldUntil(worlds[i].tables, c, until)
    requires forall q: nat | i <= q < j :: NotByHolder(worlds, steps, q, c)
    ensures HeldUntil(worlds[j].tables, c, until)
    decreases j
  {
    hide Inv, HeldUntil, Run, NotByHolder, Enabled, After;
    RunLength(worlds, steps);
    if i < j {
      ClockGrows(worlds, steps, j - 1, j);
      HeldBetweenBeats(worlds, steps, c, i, j - 1, until);
      RunKeepsInv(worlds, steps, j - 1);
      HeldForAnotherStep(worlds, steps, c, j - 1, until);
    }
  }

  ghost predicate Held(w: World, c: Claim, from: Time, lease: Duration) {
    exists until :: from + lease <= until && HeldUntil(w.tables, c, until)
  }

  /** After beat `k` the row is held for a lease from the beat's clock reading. */
  lemma {:induction false} BeatHolds(
    worlds: seq<World>, steps: seq<Step>, c: Claim, lease: Duration, claim: int, interval: Duration,
    timeout: Duration, beats: seq<Beat>, at: seq<nat>, k: nat)
    requires worlds != [] && Inv(worlds[0]) && Beating(worlds, steps, c, lease, beats, at)
    requires OnSchedule(beats, claim, interval, timeout) && Fits(lease, claim, interval, timeout) && k < |at|
    ensures Held(worlds[at[k] + 1], c, beats[k].read, lease)
    decreases k
  {
    hide After, Inv, Enabled, IsGrant, HeldUntil, OnSchedule;
    var p := at[k];
    RunStep(worlds, steps, p);
    if k == 0 {
      GrantHolds(worlds[p], steps[p], c, lease, beats[0].read);
      assert HeldUntil(worlds[p + 1].tables, c, beats[0].read + lease);
    } else {
      BeatHolds(worlds, steps, c, lease, claim, interval, timeout, beats, at, k - 1);
      var until :| beats[k - 1].read + lease <= until && HeldUntil(worlds[at[k - 1] + 1].tables, c, until);
      EndsInTime(beats, lease, claim, interval, timeout, k - 1);
      assert at[k - 1] < at[k - 1 + 1] && worlds[p].clock <= beats[k].end;
      assert forall q: nat | at[k - 1] < q < at[k - 1 + 1] :: NotByHolder(worlds, steps, q, c);
      HeldBetweenBeats(worlds, steps, c, at[k - 1] + 1, p, until);
      RenewalHolds(worlds[p], steps[p], c, lease, beats[k].read, until);
    }
  }

  /**
   * Heartbeats hold the lease: if the interval, the slower of claim and renewal, and one more renewal timeout fit into
   * the lease, then whatever all other workers, publishers and cleanups do, between two beats nobody else is granted
   * the delivery and the holder's attempt stays its own.
   */
  lemma HeartbeatsHoldTheLease(
    worlds: seq<World>, steps: seq<Step>, c: Claim, lease: Duration, claim: int, interval: Duration,
    timeout: Duration, beats: seq<Beat>, at: seq<nat>, k: nat, q: nat)
    requires worlds != [] && worlds[0] == EMPTY && Beating(worlds, steps, c, lease, beats, at)
    requires OnSchedule(beats, claim, interval, timeout) && Fits(lease, claim, interval, timeout)
    requires k + 1 < |at| && at[k] < q <= at[k + 1]
    ensures OwnsAttempt(worlds[q].tables, c)
    ensures !(steps[q].Grant? && steps[q].id == c.deliveryId)
  {
    hide OnSchedule;
    EmptyInv();
    BeatHolds(worlds, steps, c, lease, claim, interval, timeout, beats, at, k);
    var until :| beats[k].read + lease <= until && HeldUntil(worlds[at[k] + 1].tables, c, until);
    EndsInTime(beats, lease, claim, interval, timeout, k);
    ClockGrows(worlds, steps, q, at[k + 1]);
    HeldBetweenBeats(worlds, steps, c, at[k] + 1, q, until);
    assert HeldUntil(worlds[q].tables, c, until);
    RunKeepsInv(worlds, steps, q);
    assert Enabled(worlds[q], steps[q]);
    LiveLeaseIsNotGranted(worlds[q], steps[q], c, until);
  }
}
