/**
 * receiver.go: concurrent ServeHTTP calls over one replay guard. Each call is a small program counter machine; a step
 * is one critical section of the guard, one clock reading, or one outcome of the handler.
 */
module Receiver {
  import opened GoTime
  import opened ReplayGuard

  // ----- calls -----

  /** Where a call stands after its message was verified. */
  datatype Call =
    | Arriving(key: Key)                       // about to enter Claim
    | Parked(key: Key, channel: nat)           // waiting for another call's claim
    | Handling(key: Key)                       // the handler is running
    | Failing(key: Key)                        // the handler returned an error
    | Panicking(key: Key)                      // the handler panicked, the deferred function runs
    | Handled(key: Key)                        // the handler returned nil
    | Committing(key: Key, readAt: Time)       // the clock has been read for the commit
    | Acknowledged(key: Key)                   // a 2xx response was written
    | Refused(key: Key)                        // an error response was written
    | Unwound(key: Key)                        // the panic has left ServeHTTP
  {
    /** The call has been granted its claim and has not settled it yet. */
    predicate Holds() { Handling? || Failing? || Panicking? || Handled? || Committing? }
    predicate HandlerReturnedNil() { Handled? || Committing? }
  }

  /** What an observer records. */
  datatype Event =
    | HandlerSucceeded(call: nat, key: Key)
    | Commit(call: nat, key: Key, readAt: Time)
    | Ack(call: nat, key: Key, at: Time)

  /** `conflicts` counts the Commit and Release calls of claim holders that were refused by the guard. */
  datatype World = World(guard: Guard, clock: Time, calls: map<nat, Call>, log: seq<Event>, conflicts: nat)

  datatype Step =
    | Tick(to: Time)
    | Arrive(call: nat, key: Key)
    | Claim(call: nat)
    | Wake(call: nat)
    | Cancel(call: nat)
    | Return(call: nat)
    | Fail(call: nat)
    | Panic(call: nat)
    | ReadClock(call: nat)
    | Settle(call: nat)

  ghost predicate Enabled(w: World, a: Step) {
    match a
    case Tick(to) => w.clock <= to
    case Arrive(c, _) => c !in w.calls
    case Claim(c) => c in w.calls && w.calls[c].Arriving?
    case Wake(c) => c in w.calls && w.calls[c].Parked? && w.calls[c].channel in w.guard.closed
    case Cancel(c) => c in w.calls && w.calls[c].Parked?
    case Return(c) => c in w.calls && w.calls[c].Handling?
    case Fail(c) => c in w.calls && w.calls[c].Handling?
    case Panic(c) => c in w.calls && w.calls[c].Handling?
    case ReadClock(c) => c in w.calls && w.calls[c].Handled?
    case Settle(c) => c in w.calls && (w.calls[c].Committing? || w.calls[c].Failing? || w.calls[c].Panicking?)
  }

  /** The next state of a call that leaves Claim with `answer`. */
  function Claimed(key: Key, answer: Answer): Call {
    match answer
    case Duplicate => Acknowledged(key)
    case Wait(channel) => Parked(key, channel)
    case Claimed => Handling(key)
    case Full => Refused(key)
  }

  function SettleCall(w: World, c: nat, ttl: Duration): World
    requires c in w.calls && (w.calls[c].Committing? || w.calls[c].Failing? || w.calls[c].Panicking?)
  {
    match w.calls[c]
    case Committing(key, readAt) =>
      var (r, g) := AfterCommit(w.guard, key, readAt + ttl);
      if r.Ok?
      then World(g, w.clock, w.calls[c := Acknowledged(key)], w.log + [Commit(c, key, readAt), Ack(c, key, w.clock)],
        w.conflicts)
      else World(g, w.clock, w.calls[c := Refused(key)], w.log, w.conflicts + 1)
    case Failing(key) =>
      var (r, g) := AfterRelease(w.guard, key);
      World(g, w.clock, w.calls[c := Refused(key)], w.log, if r.Ok? then w.conflicts else w.conflicts + 1)
    case Panicking(key) =>
      var (r, g) := AfterRelease(w.guard, key);
      World(g, w.clock, w.calls[c := Unwound(key)], w.log, if r.Ok? then w.conflicts else w.conflicts + 1)
  }

  ghost function After(w: World, a: Step, ttl: Duration): World
    requires Enabled(w, a)
  {
    match a
    case Tick(to) => w.(clock := to)
    case Arrive(c, key) => w.(calls := w.calls[c := Arriving(key)])
    case Claim(c) =>
      var key := w.calls[c].key;
      var (answer, g) := AfterClaim(w.guard, key, w.clock);
      w.(guard := g, calls := w.calls[c := Claimed(key, answer)],
         log := if answer.Duplicate? then w.log + [Ack(c, key, w.clock)] else w.log)
    case Wake(c) => w.(calls := w.calls[c := Arriving(w.calls[c].key)])
    case Cancel(c) => w.(calls := w.calls[c := Refused(w.calls[c].key)])
    case Return(c) =>
      w.(calls := w.calls[c := Handled(w.calls[c].key)], log := w.log + [HandlerSucceeded(c, w.calls[c].key)])
    case Fail(c) => w.(calls := w.calls[c := Failing(w.calls[c].key)])
    case Panic(c) => w.(calls := w.calls[c := Panicking(w.calls[c].key)])
    case ReadClock(c) => w.(calls := w.calls[c := Committing(w.calls[c].key, w.clock)])
    case Settle(c) => SettleCall(w, c, ttl)
  }

  ghost predicate Run(worlds: seq<World>, steps: seq<Step>, ttl: Duration) {
    && |worlds| == |steps| + 1
    && forall i | 0 <= i < |steps| :: Enabled(worlds[i], steps[i]) && worlds[i + 1] == After(worlds[i], steps[i], ttl)
  }

  ghost predicate Initial(w: World) {
    w.guard.max >= 1 && w == World(Guard(map[], w.guard.max, 0, {}), w.clock, map[], [], 0)
  }

  // ----- ownership -----

  /** Every entry in progress belongs to exactly one call, and every holder has its entry. */
  ghost predicate OwnershipOk(w: World) {
    && (forall c | c in w.calls && w.calls[c].Holds() :: ActiveKey(w.guard, w.calls[c].key))
    && (forall c, d | c in w.calls && d in w.calls && w.calls[c].Holds() && w.calls[d].Holds()
          && w.calls[c].key == w.calls[d].key :: c == d)
    && (forall key | ActiveKey(w.guard, key) :: exists c :: Owner(w, c, key))
  }

  ghost predicate Owner(w: World, c: nat, key: Key) {
    c in w.calls && w.calls[c].Holds() && w.calls[c].key == key
  }

  /** A parked call waits for the entry in progress under its key, or its channel has been closed. */
  ghost predicate WaitersOk(w: World) {
    forall c | c in w.calls && w.calls[c].Parked? ::
      w.calls[c].channel in w.guard.closed || HoldsChannel(w.guard, w.calls[c].key, w.calls[c].channel)
  }

  // ----- the history -----

  ghost predicate IsCommit(log: seq<Event>, i: int, key: Key) {
    0 <= i < |log| && log[i].Commit? && log[i].key == key
  }

  /** Commits of one identity are at least `ttl` apart; each follows a successful run of that call's handler. */
  ghost predicate CommitsOk(log: seq<Event>, ttl: Duration) {
    && (forall i, j, key | i < j && IsCommit(log, i, key) && IsCommit(log, j, key) ::
      log[i].readAt + ttl <= log[j].readAt)
    && (forall i, key | IsCommit(log, i, key) :: Preceded(log, i, HandlerSucceeded(log[i].call, key)))
  }

  ghost predicate Preceded(log: seq<Event>, i: int, e: Event)
    requires 0 <= i < |log|
  {
    e in log[..i]
  }

  /** Each acknowledgement follows the call's own commit, or a commit of the identity that has not expired by then. */
  ghost predicate AcksOk(log: seq<Event>, ttl: Duration) {
    forall i | 0 <= i < |log| && log[i].Ack? :: exists j :: Justifies(log, j, i, ttl)
  }

  ghost predicate Justifies(log: seq<Event>, j: int, i: int, ttl: Duration)
    requires 0 <= i < |log| && log[i].Ack?
  {
    0 <= j < i && IsCommit(log, j, log[i].key) && (log[j].call == log[i].call || log[i].at < log[j].readAt + ttl)
  }

  ghost predicate CommitsReflected(w: World, ttl: Duration) {
    forall i, key | IsCommit(w.log, i, key) :: CommitReflected(w, key, w.log[i].readAt + ttl)
  }

  /** Every acceptance in the map stems from a commit. */
  ghost predicate EntriesExplained(w: World, ttl: Duration) {
    forall key | key in w.guard.entries && w.guard.entries[key].Accepted? :: exists i :: Expiry(w, i, key, ttl)
  }

  ghost predicate SuccessesLogged(w: World) {
    forall c | c in w.calls && w.calls[c].HandlerReturnedNil() :: HandlerSucceeded(c, w.calls[c].key) in w.log
  }

  /** How the guard and the calls reflect the commits made so far. */
  ghost predicate HistoryOk(w: World, ttl: Duration) {
    CommitsReflected(w, ttl) && EntriesExplained(w, ttl) && SuccessesLogged(w)
  }

  ghost predicate Expiry(w: World, i: int, key: Key, ttl: Duration)
    requires key in w.guard.entries && w.guard.entries[key].Accepted?
  {
    IsCommit(w.log, i, key) && w.guard.entries[key].expiresAt == w.log[i].readAt + ttl
  }

  /** A commit's acceptance is in the map, or the clock (and a pending commit's reading) has passed its expiry. */
  ghost predicate CommitReflected(w: World, key: Key, expiry: Time) {
    if key in w.guard.entries && w.guard.entries[key].Accepted? then expiry <= w.guard.entries[key].expiresAt
    else expiry <= w.clock && forall c | c in w.calls && w.calls[c].Committing? && w.calls[c].key == key ::
      expiry <= w.calls[c].readAt
  }

  ghost predicate ReadingsOk(w: World) {
    forall c | c in w.calls && w.calls[c].Committing? :: w.calls[c].readAt <= w.clock
  }

  ghost predicate Inv(w: World, ttl: Duration) {
    && GuardOk(w.guard) && OwnershipOk(w) && WaitersOk(w) && w.conflicts == 0
    && CommitsOk(w.log, ttl) && AcksOk(w.log, ttl) && HistoryOk(w, ttl) && ReadingsOk(w)
  }

  // ----- every step keeps the invariant -----

  /** What the guard's answer to a claim means for the claimed identity, and that the others are left alone. */
  ghost predicate Answered(g: Guard, g': Guard, answer: Answer, key: Key, now: Time) {
    && g'.closed == g.closed
    && (forall k | k != key :: ActiveKey(g', k) <==> ActiveKey(g, k))
    && (forall k | k != key && ActiveKey(g, k) :: g'.entries[k] == g.entries[k])
    && (forall k | k in g'.entries && g'.entries[k].Accepted? :: k in g.entries && g'.entries[k] == g.entries[k])
    && (forall k | k in g.entries && g.entries[k].Accepted? && g.entries[k].expiresAt > now ::
          k in g'.entries && g'.entries[k] == g.entries[k])
    && (answer.Wait? ==> g' == g && HoldsChannel(g, key, answer.channel))
    && (answer.Duplicate? ==> g' == g && key in g.entries && g.entries[key].Accepted? && now < g.entries[key].expiresAt)
    && (answer.Claimed? ==> ActiveKey(g', key) && !ActiveKey(g, key))
    && (answer.Full? ==> !ActiveKey(g', key) && !ActiveKey(g, key))
  }

  lemma AdmitFacts(g: Guard, key: Key, now: Time, trimmed: Entries)
    requires key !in trimmed && !(key in g.entries && g.entries[key].Live(now))
    requires forall k | k in trimmed :: k in g.entries && trimmed[k] == g.entries[k]
    requires forall k | k in g.entries && k != key && g.entries[k].Live(now) :: k in trimmed
    ensures Answered(g, Admit(g, key, trimmed).1, Admit(g, key, trimmed).0, key, now)
  {
  }

  lemma StandingFacts(g: Guard, key: Key, now: Time)
    requires key in g.entries && g.entries[key].Live(now)
    ensures Answered(g, AfterClaim(g, key, now).1, AfterClaim(g, key, now).0, key, now)
  {
  }

  lemma ClaimFacts(g: Guard, key: Key, now: Time)
    requires GuardOk(g)
    ensures GuardOk(AfterClaim(g, key, now).1)
    ensures Answered(g, AfterClaim(g, key, now).1, AfterClaim(g, key, now).0, key, now)
  {
    hide GuardOk, Trimmed, Admit, Answered;
    ClaimKeepsGuard(g, key, now);
    if key in g.entries && g.entries[key].Live(now) {
      StandingFacts(g, key, now);
    } else {
      TrimmedFacts(g, key, now);
      AdmitFacts(g, key, now, Trimmed(g, key, now));
    }
  }

  /** Settling an active identity closes the channel of its entry, and touches no other identity. */
  ghost predicate Settles(g: Guard, g': Guard, key: Key) {
    && GuardOk(g') && ActiveKey(g, key) && !ActiveKey(g', key)
    && g'.closed == g.closed + {g.entries[key].done}
    && (forall k | k != key ::
          (k in g'.entries <==> k in g.entries) && (k in g.entries ==> g'.entries[k] == g.entries[k]))
  }

  lemma CommitFacts(g: Guard, key: Key, expiresAt: Time)
    requires GuardOk(g) && ActiveKey(g, key)
    ensures
      var (r, g') := AfterCommit(g, key, expiresAt);
      r.Ok? && Settles(g, g', key) && key in g'.entries && g'.entries[key] == Accepted(expiresAt)
  {
    hide GuardOk;
    CommitKeepsGuard(g, key, expiresAt);
  }

  lemma ReleaseFacts(g: Guard, key: Key)
    requires GuardOk(g) && ActiveKey(g, key)
    ensures
      var (r, g') := AfterRelease(g, key);
      r.Ok? && Settles(g, g', key) && key !in g'.entries
  {
    hide GuardOk;
    ReleaseKeepsGuard(g, key);
  }

  /** The settling step of a call: its Commit or Release is not refused, and the call no longer holds anything. */
  ghost predicate Settled(w: World, w': World, c: nat)
    requires c in w.calls
  {
    && Settles(w.guard, w'.guard, w.calls[c].key) && w'.conflicts == w.conflicts && w'.clock == w.clock
    && c in w'.calls && !w'.calls[c].Holds() && !w'.calls[c].Parked?
    && (forall d | d != c :: (d in w'.calls <==> d in w.calls) && (d in w.calls ==> w'.calls[d] == w.calls[d]))
  }

  lemma HolderIsActive(w: World, c: nat)
    requires OwnershipOk(w) && c in w.calls && w.calls[c].Holds()
    ensures ActiveKey(w.guard, w.calls[c].key)
  {
  }

  lemma CommitOutcome(w: World, c: nat, ttl: Duration)
    requires GuardOk(w.guard) && OwnershipOk(w) && c in w.calls && w.calls[c].Committing?
    ensures
      var key, w' := w.calls[c].key, SettleCall(w, c, ttl);
      && w'.guard == AfterCommit(w.guard, key, w.calls[c].readAt + ttl).1
      && Settles(w.guard, w'.guard, key)
      && key in w'.guard.entries && w'.guard.entries[key] == Accepted(w.calls[c].readAt + ttl)
      && w' == World(w'.guard, w.clock, w.calls[c := Acknowledged(key)],
                     w.log + [Commit(c, key, w.calls[c].readAt), Ack(c, key, w.clock)], w.conflicts)
  {
    hide GuardOk, Settles, AfterCommit, OwnershipOk, ActiveKey;
    HolderIsActive(w, c);
    CommitFacts(w.guard, w.calls[c].key, w.calls[c].readAt + ttl);
  }

  lemma CommitStep(w: World, c: nat, ttl: Duration)
    requires GuardOk(w.guard) && OwnershipOk(w) && c in w.calls && w.calls[c].Committing?
    ensures
      var key, w' := w.calls[c].key, SettleCall(w, c, ttl);
      && Settled(w, w', c)
      && key in w'.guard.entries && w'.guard.entries[key] == Accepted(w.calls[c].readAt + ttl)
      && w'.log == w.log + [Commit(c, key, w.calls[c].readAt), Ack(c, key, w.clock)]
      && w'.calls[c] == Acknowledged(key)
  {
    hide GuardOk, Settles, SettleCall, OwnershipOk, AfterCommit;
    CommitOutcome(w, c, ttl);
  }

  lemma ReleaseOutcome(w: World, c: nat, ttl: Duration)
    requires GuardOk(w.guard) && OwnershipOk(w) && c in w.calls && (w.calls[c].Failing? || w.calls[c].Panicking?)
    ensures
      var key, w' := w.calls[c].key, SettleCall(w, c, ttl);
      && Settles(w.guard, w'.guard, key) && key !in w'.guard.entries
      && w' == World(w'.guard, w.clock, w.calls[c := if w.calls[c].Failing? then Refused(key) else Unwound(key)],
                     w.log, w.conflicts)
  {
    hide GuardOk, Settles, AfterRelease, OwnershipOk, ActiveKey;
    HolderIsActive(w, c);
    ReleaseFacts(w.guard, w.calls[c].key);
  }

  lemma ReleaseStep(w: World, c: nat, ttl: Duration)
    requires GuardOk(w.guard) && OwnershipOk(w) && c in w.calls && (w.calls[c].Failing? || w.calls[c].Panicking?)
    ensures
      var key, w' := w.calls[c].key, SettleCall(w, c, ttl);
      && Settled(w, w', c) && key !in w'.guard.entries && w'.log == w.log
      && w'.calls[c] == if w.calls[c].Failing? then Refused(key) else Unwound(key)
  {
    hide GuardOk, Settles, SettleCall, OwnershipOk;
    ReleaseOutcome(w, c, ttl);
  }

  /** A holder's Commit or Release is never refused. */
  lemma SettleFacts(w: World, c: nat, ttl: Duration)
    requires GuardOk(w.guard) && OwnershipOk(w)
    requires c in w.calls && (w.calls[c].Committing? || w.calls[c].Failing? || w.calls[c].Panicking?)
    ensures Settled(w, SettleCall(w, c, ttl), c)
  {
    hide GuardOk, Settled, SettleCall, OwnershipOk;
    if w.calls[c].Committing? {
      CommitStep(w, c, ttl);
    } else {
      ReleaseStep(w, c, ttl);
    }
  }

  /** What a claiming step does to the calls and to the guard. */
  lemma ClaimStep(w: World, c: nat, ttl: Duration)
    requires GuardOk(w.guard) && Enabled(w, Step.Claim(c))
    ensures
      var key, w' := w.calls[c].key, After(w, Step.Claim(c), ttl);
      var answer := AfterClaim(w.guard, key, w.clock).0;
      && GuardOk(w'.guard) && Answered(w.guard, w'.guard, answer, key, w.clock)
      && w'.clock == w.clock && w'.conflicts == w.conflicts
      && w'.calls == w.calls[c := Claimed(key, answer)]
      && w'.log == if answer.Duplicate? then w.log + [Ack(c, key, w.clock)] else w.log
  {
    hide GuardOk, Answered, AfterClaim, Claimed;
    ClaimFacts(w.guard, w.calls[c].key, w.clock);
  }

  lemma StepKeepsGuard(w: World, a: Step, ttl: Duration)
    requires Inv(w, ttl) && Enabled(w, a)
    ensures GuardOk(After(w, a, ttl).guard) && After(w, a, ttl).conflicts == 0
  {
    hide HistoryOk, CommitsOk, AcksOk, WaitersOk, GuardOk, OwnershipOk, AfterClaim, SettleCall;
    match a
    case Claim(c) => ClaimStep(w, c, ttl);
    case Settle(c) => SettleFacts(w, c, ttl);
    case _ =>
  }

  /** A call that is granted a free identity becomes its one owner. */
  lemma GainKeepsOwnership(w: World, w': World, c: nat, key: Key)
    requires OwnershipOk(w) && !ActiveKey(w.guard, key) && Owner(w', c, key)
    requires forall d | d != c :: (d in w'.calls <==> d in w.calls) && (d in w.calls ==> w'.calls[d] == w.calls[d])
    requires c in w.calls && !w.calls[c].Holds()
    requires forall k :: ActiveKey(w'.guard, k) <==> ActiveKey(w.guard, k) || k == key
    ensures OwnershipOk(w')
  {
    forall k | ActiveKey(w'.guard, k) ensures exists d :: Owner(w', d, k) {
      if k == key {
        assert Owner(w', c, k);
      } else {
        var d :| Owner(w, d, k);
        assert Owner(w, d, k) && Owner(w', d, k);
      }
    }
  }

  /** A call that does not hold an identity afterwards leaves the others' ownership alone. */
  lemma LossKeepsOwnership(w: World, w': World, c: nat)
    requires OwnershipOk(w) && c in w'.calls && !w'.calls[c].Holds()
    requires forall d | d != c :: (d in w'.calls <==> d in w.calls) && (d in w.calls ==> w'.calls[d] == w.calls[d])
    requires forall k :: ActiveKey(w'.guard, k) <==> ActiveKey(w.guard, k) && !Owner(w, c, k)
    ensures OwnershipOk(w')
  {
    forall k | ActiveKey(w'.guard, k) ensures exists d :: Owner(w', d, k) {
      var d :| Owner(w, d, k);
      assert Owner(w, d, k) && Owner(w', d, k);
    }
    forall d | d in w'.calls && w'.calls[d].Holds() ensures ActiveKey(w'.guard, w'.calls[d].key) {
      assert Owner(w, d, w.calls[d].key);
    }
  }

  lemma ClaimKeepsOwnership(w: World, c: nat, ttl: Duration)
    requires GuardOk(w.guard) && OwnershipOk(w) && Enabled(w, Step.Claim(c))
    ensures OwnershipOk(After(w, Step.Claim(c), ttl))
  {
    hide GuardOk, AfterClaim, OwnershipOk, After;
    var w' := After(w, Step.Claim(c), ttl);
    ClaimStep(w, c, ttl);
    if w'.calls[c].Handling? {
      GainKeepsOwnership(w, w', c, w.calls[c].key);
    } else {
      LossKeepsOwnership(w, w', c);
    }
  }

  lemma SettleKeepsOwnership(w: World, c: nat, ttl: Duration)
    requires GuardOk(w.guard) && OwnershipOk(w) && Enabled(w, Settle(c))
    ensures OwnershipOk(After(w, Settle(c), ttl))
  {
    hide GuardOk, SettleCall, OwnershipOk;
    SettleFacts(w, c, ttl);
    LossKeepsOwnership(w, SettleCall(w, c, ttl), c);
  }

  lemma OtherStepsKeepOwners(w: World, a: Step, ttl: Duration, c: nat, key: Key)
    requires Enabled(w, a) && !a.Claim? && !a.Settle?
    ensures After(w, a, ttl).guard == w.guard && (Owner(After(w, a, ttl), c, key) <==> Owner(w, c, key))
  {
  }

  /** Ownership is a matter of the guard and of who owns what. */
  lemma SameOwners(w: World, w': World)
    requires OwnershipOk(w) && w'.guard == w.guard && forall c, key :: Owner(w', c, key) <==> Owner(w, c, key)
    ensures OwnershipOk(w')
  {
    forall key | ActiveKey(w'.guard, key) ensures exists c :: Owner(w', c, key) {
      var c :| Owner(w, c, key);
      assert Owner(w', c, key);
    }
    forall c | c in w'.calls && w'.calls[c].Holds() ensures Owner(w, c, w'.calls[c].key) {
      assert Owner(w', c, w'.calls[c].key);
    }
  }

  lemma OtherStepsKeepOwnership(w: World, a: Step, ttl: Duration)
    requires OwnershipOk(w) && Enabled(w, a) && !a.Claim? && !a.Settle?
    ensures OwnershipOk(After(w, a, ttl))
  {
    hide OwnershipOk, Owner, After, Enabled;
    forall c, key
      ensures After(w, a, ttl).guard == w.guard && (Owner(After(w, a, ttl), c, key) <==> Owner(w, c, key))
    {
      OtherStepsKeepOwners(w, a, ttl, c, key);
    }
    OtherStepsKeepOwners(w, a, ttl, 0, []);
    SameOwners(w, After(w, a, ttl));
  }

  lemma ClaimKeepsWaiters(w: World, c: nat, ttl: Duration)
    requires GuardOk(w.guard) && WaitersOk(w) && Enabled(w, Step.Claim(c))
    ensures WaitersOk(After(w, Step.Claim(c), ttl))
  {
    hide GuardOk, AfterClaim, After;
    ClaimStep(w, c, ttl);
  }

  lemma SettleKeepsWaiters(w: World, c: nat, ttl: Duration)
    requires GuardOk(w.guard) && OwnershipOk(w) && WaitersOk(w) && Enabled(w, Settle(c))
    ensures WaitersOk(SettleCall(w, c, ttl))
  {
    hide GuardOk, SettleCall, OwnershipOk;
    SettleFacts(w, c, ttl);
  }

  lemma StepKeepsWaiters(w: World, a: Step, ttl: Duration)
    requires Inv(w, ttl) && Enabled(w, a)
    ensures WaitersOk(After(w, a, ttl))
  {
    hide HistoryOk, CommitsOk, AcksOk, OwnershipOk, GuardOk, AfterClaim, SettleCall;
    match a
    case Claim(c) => ClaimKeepsWaiters(w, c, ttl);
    case Settle(c) => SettleKeepsWaiters(w, c, ttl);
    case _ =>
  }

  // ----- the log -----

  lemma AppendOther(log: seq<Event>, e: Event, ttl: Duration)
    requires !e.Commit? && CommitsOk(log, ttl)
    ensures CommitsOk(log + [e], ttl)
  {
    var log' := log + [e];
    forall i, key | IsCommit(log', i, key) ensures IsCommit(log, i, key) && log'[..i] == log[..i] {
    }
  }

  lemma AppendCommit(log: seq<Event>, e: Event, ttl: Duration)
    requires e.Commit? && CommitsOk(log, ttl) && HandlerSucceeded(e.call, e.key) in log
    requires forall i | IsCommit(log, i, e.key) :: log[i].readAt + ttl <= e.readAt
    ensures CommitsOk(log + [e], ttl)
  {
    var log' := log + [e];
    forall i, key | IsCommit(log', i, key) ensures Preceded(log', i, HandlerSucceeded(log'[i].call, key)) {
      if i < |log| {
        assert IsCommit(log, i, key) && log'[..i] == log[..i];
        assert Preceded(log, i, HandlerSucceeded(log[i].call, key));
      } else {
        assert log'[..i] == log;
      }
    }
    forall i, j, key | i < j && IsCommit(log', i, key) && IsCommit(log', j, key)
      ensures log'[i].readAt + ttl <= log'[j].readAt
    {
      assert IsCommit(log, i, key);
      assert j < |log| ==> IsCommit(log, j, key);
    }
  }

  lemma AppendKeepsAcks(log: seq<Event>, e: Event, ttl: Duration)
    requires AcksOk(log, ttl)
    requires e.Ack? ==> exists j :: IsCommit(log, j, e.key) && (log[j].call == e.call || e.at < log[j].readAt + ttl)
    ensures AcksOk(log + [e], ttl)
  {
    var log' := log + [e];
    forall i | 0 <= i < |log'| && log'[i].Ack? ensures exists j :: Justifies(log', j, i, ttl) {
      if i < |log| {
        var j :| Justifies(log, j, i, ttl);
        assert Justifies(log, j, i, ttl);
        assert Justifies(log', j, i, ttl);
      } else {
        var j :| IsCommit(log, j, e.key) && (log[j].call == e.call || e.at < log[j].readAt + ttl);
        assert IsCommit(log, j, e.key);
        assert Justifies(log', j, i, ttl);
      }
    }
  }

  /** The commits of the identity so far have expired when a call that holds it commits. */
  lemma EarlierCommitsExpired(w: World, c: nat, ttl: Duration, i: int)
    requires OwnershipOk(w) && CommitsReflected(w, ttl) && c in w.calls && w.calls[c].Committing?
    requires IsCommit(w.log, i, w.calls[c].key)
    ensures w.log[i].readAt + ttl <= w.calls[c].readAt
  {
    HolderIsActive(w, c);
    hide OwnershipOk;
    assert CommitReflected(w, w.calls[c].key, w.log[i].readAt + ttl);
  }

  lemma CommitKeepsLog(w: World, c: nat, ttl: Duration)
    requires Inv(w, ttl) && c in w.calls && w.calls[c].Committing?
    ensures CommitsOk(SettleCall(w, c, ttl).log, ttl) && AcksOk(SettleCall(w, c, ttl).log, ttl)
  {
    hide GuardOk, SettleCall, WaitersOk, OwnershipOk, CommitsOk, AcksOk, CommitsReflected, EntriesExplained, ReadingsOk,
      Settled;
    CommitStep(w, c, ttl);
    var key := w.calls[c].key;
    var e, ack := Commit(c, key, w.calls[c].readAt), Ack(c, key, w.clock);
    forall i | IsCommit(w.log, i, key) ensures w.log[i].readAt + ttl <= e.readAt {
      EarlierCommitsExpired(w, c, ttl, i);
    }
    AppendCommit(w.log, e, ttl);
    AppendKeepsAcks(w.log, e, ttl);
    AppendOther(w.log + [e], ack, ttl);
    assert IsCommit(w.log + [e], |w.log|, key);
    AppendKeepsAcks(w.log + [e], ack, ttl);
    assert w.log + [e] + [ack] == w.log + [e, ack];
  }

  lemma ClaimKeepsLog(w: World, c: nat, ttl: Duration)
    requires Inv(w, ttl) && Enabled(w, Step.Claim(c))
    ensures CommitsOk(After(w, Step.Claim(c), ttl).log, ttl) && AcksOk(After(w, Step.Claim(c), ttl).log, ttl)
  {
    hide GuardOk, After, AfterClaim, CommitsOk, AcksOk, WaitersOk, OwnershipOk, CommitsReflected, ReadingsOk;
    var key := w.calls[c].key;
    ClaimStep(w, c, ttl);
    if AfterClaim(w.guard, key, w.clock).0.Duplicate? {
      var i :| Expiry(w, i, key, ttl);
      assert Expiry(w, i, key, ttl);
      AppendOther(w.log, Ack(c, key, w.clock), ttl);
      AppendKeepsAcks(w.log, Ack(c, key, w.clock), ttl);
    }
  }

  lemma StepKeepsLog(w: World, a: Step, ttl: Duration)
    requires Inv(w, ttl) && Enabled(w, a)
    ensures CommitsOk(After(w, a, ttl).log, ttl) && AcksOk(After(w, a, ttl).log, ttl)
  {
    hide GuardOk, SettleCall, AfterClaim, CommitsOk, AcksOk, HistoryOk, ReadingsOk, WaitersOk, OwnershipOk;
    match a
    case Claim(c) => ClaimKeepsLog(w, c, ttl);
    case Return(c) =>
      AppendOther(w.log, HandlerSucceeded(c, w.calls[c].key), ttl);
      AppendKeepsAcks(w.log, HandlerSucceeded(c, w.calls[c].key), ttl);
    case Settle(c) =>
      if w.calls[c].Committing? {
        CommitKeepsLog(w, c, ttl);
      } else {
        ReleaseStep(w, c, ttl);
      }
    case _ =>
  }

  // ----- the history -----

  /** Appending an event that is no commit leaves the commits as they were. */
  lemma CommitsOfLonger(log: seq<Event>, log': seq<Event>)
    requires log <= log' && forall i | |log| <= i < |log'| :: !log'[i].Commit?
    ensures forall i, key :: IsCommit(log', i, key) <==> IsCommit(log, i, key)
    ensures forall i | 0 <= i < |log| :: log'[i] == log[i]
  {
  }

  /** Entries that are accepted afterwards were accepted before, with the same expiry; the commits are the same. */
  lemma ExplanationsPersist(w: World, w': World, ttl: Duration)
    requires EntriesExplained(w, ttl)
    requires forall i, key :: IsCommit(w'.log, i, key) <==> IsCommit(w.log, i, key)
    requires forall i | 0 <= i < |w.log| :: i < |w'.log| && w'.log[i] == w.log[i]
    requires forall k | k in w'.guard.entries && w'.guard.entries[k].Accepted? ::
      k in w.guard.entries && w'.guard.entries[k] == w.guard.entries[k]
    ensures EntriesExplained(w', ttl)
  {
    forall k | k in w'.guard.entries && w'.guard.entries[k].Accepted? ensures exists i :: Expiry(w', i, k, ttl) {
      var i :| Expiry(w, i, k, ttl);
      assert Expiry(w, i, k, ttl) && Expiry(w', i, k, ttl);
    }
  }

  ghost predicate AcceptedKey(g: Guard, key: Key) {
    key in g.entries && g.entries[key].Accepted?
  }

  lemma ClaimKeepsReflected(w: World, c: nat, ttl: Duration, key: Key, expiry: Time)
    requires GuardOk(w.guard) && OwnershipOk(w) && Enabled(w, Step.Claim(c)) && CommitReflected(w, key, expiry)
    ensures CommitReflected(After(w, Step.Claim(c), ttl), key, expiry)
  {
    assert forall d | d in w.calls && w.calls[d].Committing? :: !AcceptedKey(w.guard, w.calls[d].key);
    assert forall k, answer :: !Claimed(k, answer).Committing?;
    hide GuardOk, AfterClaim, After, OwnershipOk, Claimed, ActiveKey, HoldsChannel;
    ClaimStep(w, c, ttl);
  }

  lemma ClaimKeepsHistory(w: World, c: nat, ttl: Duration)
    requires GuardOk(w.guard) && OwnershipOk(w) && HistoryOk(w, ttl) && ReadingsOk(w) && Enabled(w, Step.Claim(c))
    ensures HistoryOk(After(w, Step.Claim(c), ttl), ttl) && ReadingsOk(After(w, Step.Claim(c), ttl))
  {
    hide GuardOk, AfterClaim, OwnershipOk, EntriesExplained, CommitReflected, After;
    var w' := After(w, Step.Claim(c), ttl);
    ClaimStep(w, c, ttl);
    CommitsOfLonger(w.log, w'.log);
    ExplanationsPersist(w, w', ttl);
    forall i, key | IsCommit(w'.log, i, key) ensures CommitReflected(w', key, w'.log[i].readAt + ttl) {
      assert IsCommit(w.log, i, key);
      ClaimKeepsReflected(w, c, ttl, key, w.log[i].readAt + ttl);
    }
  }

  lemma CommitKeepsReflected(w: World, c: nat, ttl: Duration, key: Key, expiry: Time)
    requires GuardOk(w.guard) && OwnershipOk(w) && c in w.calls && w.calls[c].Committing? && ttl > 0
    requires CommitReflected(w, key, expiry)
    ensures CommitReflected(SettleCall(w, c, ttl), key, expiry)
  {
    HolderIsActive(w, c);
    hide GuardOk, SettleCall, OwnershipOk;
    CommitStep(w, c, ttl);
  }

  lemma CommitIsReflected(w: World, c: nat, ttl: Duration)
    requires GuardOk(w.guard) && OwnershipOk(w) && c in w.calls && w.calls[c].Committing? && ttl > 0
    ensures CommitReflected(SettleCall(w, c, ttl), w.calls[c].key, w.calls[c].readAt + ttl)
  {
    hide GuardOk, SettleCall, OwnershipOk, Settled;
    CommitStep(w, c, ttl);
  }

  lemma CommitKeepsReflection(w: World, c: nat, ttl: Duration)
    requires GuardOk(w.guard) && OwnershipOk(w) && CommitsReflected(w, ttl) && ttl > 0
    requires c in w.calls && w.calls[c].Committing?
    ensures CommitsReflected(SettleCall(w, c, ttl), ttl)
  {
    hide GuardOk, SettleCall, OwnershipOk, Settled, CommitReflected;
    var w' := SettleCall(w, c, ttl);
    CommitStep(w, c, ttl);
    forall i, k | IsCommit(w'.log, i, k) ensures CommitReflected(w', k, w'.log[i].readAt + ttl) {
      if i < |w.log| {
        assert IsCommit(w.log, i, k);
        CommitKeepsReflected(w, c, ttl, k, w.log[i].readAt + ttl);
      } else {
        CommitIsReflected(w, c, ttl);
      }
    }
  }

  lemma CommitKeepsExplanations(w: World, c: nat, ttl: Duration)
    requires GuardOk(w.guard) && OwnershipOk(w) && EntriesExplained(w, ttl) && c in w.calls && w.calls[c].Committing?
    ensures EntriesExplained(SettleCall(w, c, ttl), ttl)
  {
    hide GuardOk, SettleCall, OwnershipOk;
    var w', key, n := SettleCall(w, c, ttl), w.calls[c].key, |w.log|;
    CommitStep(w, c, ttl);
    assert forall i | 0 <= i < n :: w'.log[i] == w.log[i];
    forall k | k in w'.guard.entries && w'.guard.entries[k].Accepted? ensures exists i :: Expiry(w', i, k, ttl) {
      if k == key {
        assert Expiry(w', n, k, ttl);
      } else {
        var i :| Expiry(w, i, k, ttl);
        assert Expiry(w, i, k, ttl) && Expiry(w', i, k, ttl);
      }
    }
  }

  lemma ReleaseKeepsReflected(w: World, c: nat, ttl: Duration, key: Key, expiry: Time)
    requires GuardOk(w.guard) && OwnershipOk(w) && c in w.calls && (w.calls[c].Failing? || w.calls[c].Panicking?)
    requires CommitReflected(w, key, expiry)
    ensures CommitReflected(SettleCall(w, c, ttl), key, expiry)
  {
    HolderIsActive(w, c);
    hide GuardOk, SettleCall, OwnershipOk;
    ReleaseStep(w, c, ttl);
  }

  lemma ReleaseKeepsReflection(w: World, c: nat, ttl: Duration)
    requires GuardOk(w.guard) && OwnershipOk(w) && CommitsReflected(w, ttl)
    requires c in w.calls && (w.calls[c].Failing? || w.calls[c].Panicking?)
    ensures CommitsReflected(SettleCall(w, c, ttl), ttl)
  {
    hide GuardOk, SettleCall, OwnershipOk, Settled, CommitReflected;
    var w' := SettleCall(w, c, ttl);
    ReleaseStep(w, c, ttl);
    forall i, k | IsCommit(w'.log, i, k) ensures CommitReflected(w', k, w'.log[i].readAt + ttl) {
      ReleaseKeepsReflected(w, c, ttl, k, w.log[i].readAt + ttl);
    }
  }

  lemma ReleaseKeepsExplanations(w: World, c: nat, ttl: Duration)
    requires GuardOk(w.guard) && OwnershipOk(w) && EntriesExplained(w, ttl)
    requires c in w.calls && (w.calls[c].Failing? || w.calls[c].Panicking?)
    ensures EntriesExplained(SettleCall(w, c, ttl), ttl)
  {
    hide GuardOk, SettleCall, OwnershipOk, EntriesExplained;
    ReleaseStep(w, c, ttl);
    ExplanationsPersist(w, SettleCall(w, c, ttl), ttl);
  }

  /** A settled call holds nothing any more, so there is one holder less to log or to read the clock. */
  lemma SettleKeepsHolders(w: World, c: nat, ttl: Duration)
    requires GuardOk(w.guard) && OwnershipOk(w) && SuccessesLogged(w) && ReadingsOk(w) && Enabled(w, Settle(c))
    ensures SuccessesLogged(SettleCall(w, c, ttl)) && ReadingsOk(SettleCall(w, c, ttl))
  {
    hide GuardOk, SettleCall, OwnershipOk, Settles;
    var w' := SettleCall(w, c, ttl);
    SettleFacts(w, c, ttl);
    if w.calls[c].Committing? {
      CommitStep(w, c, ttl);
    } else {
      ReleaseStep(w, c, ttl);
    }
    forall d | d in w'.calls && w'.calls[d].Holds() ensures d in w.calls && w'.calls[d] == w.calls[d] {
    }
  }

  lemma SettleKeepsHistory(w: World, c: nat, ttl: Duration)
    requires Enabled(w, Settle(c)) && ttl > 0
    requires GuardOk(w.guard) && OwnershipOk(w) && HistoryOk(w, ttl) && ReadingsOk(w)
    ensures HistoryOk(SettleCall(w, c, ttl), ttl) && ReadingsOk(SettleCall(w, c, ttl))
  {
    hide GuardOk, SettleCall, OwnershipOk, CommitsReflected, EntriesExplained, SuccessesLogged, ReadingsOk;
    SettleKeepsHolders(w, c, ttl);
    if w.calls[c].Committing? {
      CommitKeepsReflection(w, c, ttl);
      CommitKeepsExplanations(w, c, ttl);
    } else {
      ReleaseKeepsReflection(w, c, ttl);
      ReleaseKeepsExplanations(w, c, ttl);
    }
  }

  lemma OtherStepsKeepReflected(w: World, a: Step, ttl: Duration, key: Key, expiry: Time)
    requires OwnershipOk(w) && Enabled(w, a) && !a.Claim? && !a.Settle? && CommitReflected(w, key, expiry)
    ensures CommitReflected(After(w, a, ttl), key, expiry)
  {
    assert a.ReadClock? ==> ActiveKey(w.guard, w.calls[a.call].key);
    hide OwnershipOk;
  }

  lemma OtherStepsKeepEntries(w: World, a: Step, ttl: Duration)
    requires Enabled(w, a) && !a.Claim? && !a.Settle? && ReadingsOk(w) && SuccessesLogged(w)
    ensures
      var w' := After(w, a, ttl);
      && w'.guard == w.guard && w.log <= w'.log && (forall i | |w.log| <= i < |w'.log| :: !w'.log[i].Commit?)
      && ReadingsOk(w') && SuccessesLogged(w')
  {
  }

  lemma OtherStepsKeepHistory(w: World, a: Step, ttl: Duration)
    requires OwnershipOk(w) && HistoryOk(w, ttl) && ReadingsOk(w) && Enabled(w, a) && !a.Claim? && !a.Settle?
    ensures HistoryOk(After(w, a, ttl), ttl) && ReadingsOk(After(w, a, ttl))
  {
    hide OwnershipOk, EntriesExplained, CommitReflected, After, Enabled, SuccessesLogged, ReadingsOk;
    var w' := After(w, a, ttl);
    OtherStepsKeepEntries(w, a, ttl);
    CommitsOfLonger(w.log, w'.log);
    ExplanationsPersist(w, w', ttl);
    forall i, k | IsCommit(w'.log, i, k) ensures CommitReflected(w', k, w'.log[i].readAt + ttl) {
      assert IsCommit(w.log, i, k);
      OtherStepsKeepReflected(w, a, ttl, k, w.log[i].readAt + ttl);
    }
  }

  lemma StepKeepsInv(w: World, a: Step, ttl: Duration)
    requires Inv(w, ttl) && Enabled(w, a) && ttl > 0
    ensures Inv(After(w, a, ttl), ttl)
  {
    hide GuardOk, OwnershipOk, WaitersOk, CommitsOk, AcksOk, HistoryOk, ReadingsOk, Enabled, SettleCall;
    StepKeepsGuard(w, a, ttl);
    StepKeepsWaiters(w, a, ttl);
    StepKeepsLog(w, a, ttl);
    if a.Claim? {
      ClaimKeepsOwnership(w, a.call, ttl);
      ClaimKeepsHistory(w, a.call, ttl);
    } else if a.Settle? {
      SettleKeepsOwnership(w, a.call, ttl);
      SettleKeepsHistory(w, a.call, ttl);
    } else {
      OtherStepsKeepOwnership(w, a, ttl);
      OtherStepsKeepHistory(w, a, ttl);
    }
  }

  lemma RunStep(worlds: seq<World>, steps: seq<Step>, ttl: Duration, k: nat)
    requires Run(worlds, steps, ttl)
    ensures |worlds| == |steps| + 1
    ensures k < |steps| ==> Enabled(worlds[k], steps[k]) && worlds[k + 1] == After(worlds[k], steps[k], ttl)
  {
  }

  lemma InitialInv(w: World, ttl: Duration)
    requires Initial(w)
    ensures Inv(w, ttl)
  {
  }

  lemma {:induction false} RunKeepsInv(worlds: seq<World>, steps: seq<Step>, ttl: Duration, i: nat)
    requires Run(worlds, steps, ttl) && Initial(worlds[0]) && ttl > 0 && i < |worlds|
    ensures Inv(worlds[i], ttl)
    decreases i
  {
    hide Run, Inv, Enabled, After, Initial;
    RunStep(worlds, steps, ttl, if i == 0 then 0 else i - 1);
    if i == 0 {
      InitialInv(worlds[0], ttl);
    } else {
      RunKeepsInv(worlds, steps, ttl, i - 1);
      StepKeepsInv(worlds[i - 1], steps[i - 1], ttl);
    }
  }

  // ----- what every run satisfies -----

  /** The story behind an acknowledgement: event `h` is a successful handler run that commit `j` recorded. */
  ghost predicate Accounted(log: seq<Event>, h: int, j: int, i: int, ttl: Duration)
    requires 0 <= i < |log| && log[i].Ack?
  {
    && 0 <= h < j < i && IsCommit(log, j, log[i].key)
    && log[h] == HandlerSucceeded(log[j].call, log[i].key)
    && (log[j].call == log[i].call || log[i].at < log[j].readAt + ttl)
  }

  /**
   * Acknowledgement safety: every 2xx response for an identity follows a successful handler run and the commit of
   * that run, made by the same call or by one whose acceptance has not expired when the response is decided.
   */
  lemma EveryAckIsAccounted(worlds: seq<World>, steps: seq<Step>, ttl: Duration, n: nat, i: nat)
    requires Run(worlds, steps, ttl) && Initial(worlds[0]) && ttl > 0 && n < |worlds|
    requires i < |worlds[n].log| && worlds[n].log[i].Ack?
    ensures exists h, j :: Accounted(worlds[n].log, h, j, i, ttl)
  {
    hide Run, Initial, GuardOk, OwnershipOk, WaitersOk, HistoryOk, ReadingsOk;
    RunKeepsInv(worlds, steps, ttl, n);
    var log := worlds[n].log;
    var j :| Justifies(log, j, i, ttl);
    assert Justifies(log, j, i, ttl);
    assert Preceded(log, j, HandlerSucceeded(log[j].call, log[i].key));
    var h :| 0 <= h < j && log[h] == HandlerSucceeded(log[j].call, log[i].key);
    assert Accounted(log, h, j, i, ttl);
  }

  /** What the states of the calls say about the log. */
  ghost predicate CallsOk(w: World) {
    && (forall c | c in w.calls && w.calls[c].Acknowledged? :: exists i :: IsAck(w.log, i, c, w.calls[c].key))
    && (forall i, c, key | IsAck(w.log, i, c, key) :: c in w.calls && w.calls[c] == Acknowledged(key))
    && (forall i, c, key | IsSuccess(w.log, i, c, key) ::
          c in w.calls && w.calls[c].key == key && Succeeded(w.calls[c]))
  }

  ghost predicate IsAck(log: seq<Event>, i: int, c: nat, key: Key) {
    0 <= i < |log| && log[i].Ack? && log[i].call == c && log[i].key == key
  }

  ghost predicate IsSuccess(log: seq<Event>, i: int, c: nat, key: Key) {
    0 <= i < |log| && log[i] == HandlerSucceeded(c, key)
  }

  /** On the way from a handler that returned nil to the 2xx response. */
  predicate Succeeded(call: Call) { call.HandlerReturnedNil() || call.Acknowledged? }

  /** Appending `e` for call `c`, whose state changes with it; calls past their end have no enabled step. */
  lemma EventKeepsCalls(w: World, w': World, c: nat, e: Event)
    requires CallsOk(w) && w'.log == w.log + [e] && c in w'.calls && w'.calls == w.calls[c := w'.calls[c]]
    requires e.call == c && c in w.calls && w'.calls[c].key == w.calls[c].key == e.key && !w.calls[c].Acknowledged?
    requires e.Ack? <==> w'.calls[c].Acknowledged?
    requires e.HandlerSucceeded? || Succeeded(w.calls[c]) ==> Succeeded(w'.calls[c])
    ensures CallsOk(w')
  {
    var n := |w.log|;
    forall d | d in w'.calls && w'.calls[d].Acknowledged? ensures exists i :: IsAck(w'.log, i, d, w'.calls[d].key) {
      if d == c {
        assert IsAck(w'.log, n, d, w'.calls[d].key);
      } else {
        var i :| IsAck(w.log, i, d, w.calls[d].key);
        assert IsAck(w.log, i, d, w.calls[d].key) && IsAck(w'.log, i, d, w'.calls[d].key);
      }
    }
    forall i, d, key | IsAck(w'.log, i, d, key) ensures d in w'.calls && w'.calls[d] == Acknowledged(key) {
      assert i < n ==> IsAck(w.log, i, d, key);
    }
    forall i, d, key | IsSuccess(w'.log, i, d, key)
      ensures d in w'.calls && w'.calls[d].key == key && Succeeded(w'.calls[d])
    {
      assert i < n ==> IsSuccess(w.log, i, d, key);
    }
  }

  predicate Follows(call: Call, next: Call) {
    next.key == call.key && !call.Acknowledged? && (Succeeded(call) ==> Succeeded(next))
  }

  /** A step without an event moves its call, if any, to a state that is no acknowledgement. */
  lemma SilentStepKeepsCalls(w: World, w': World, c: nat)
    requires CallsOk(w) && w'.log == w.log
    requires w'.calls == w.calls
      || (c in w'.calls && w'.calls == w.calls[c := w'.calls[c]] && !w'.calls[c].Acknowledged?
          && (c in w.calls ==> Follows(w.calls[c], w'.calls[c])))
    ensures CallsOk(w')
  {
    forall d | d in w'.calls && w'.calls[d].Acknowledged? ensures exists i :: IsAck(w'.log, i, d, w'.calls[d].key) {
      var i :| IsAck(w.log, i, d, w.calls[d].key);
      assert IsAck(w.log, i, d, w.calls[d].key) && IsAck(w'.log, i, d, w'.calls[d].key);
    }
    forall i, d, key | IsAck(w'.log, i, d, key) ensures IsAck(w.log, i, d, key) {
    }
    forall i, d, key | IsSuccess(w'.log, i, d, key) ensures IsSuccess(w.log, i, d, key) {
    }
  }

  lemma ClaimKeepsCalls(w: World, c: nat, ttl: Duration)
    requires Inv(w, ttl) && CallsOk(w) && Enabled(w, Step.Claim(c))
    ensures CallsOk(After(w, Step.Claim(c), ttl))
  {
    var w', key := After(w, Step.Claim(c), ttl), w.calls[c].key;
    ClaimStep(w, c, ttl);
    hide Inv, CallsOk, After, AfterClaim, GuardOk, Answered;
    if AfterClaim(w.guard, key, w.clock).0.Duplicate? {
      EventKeepsCalls(w, w', c, Ack(c, key, w.clock));
    } else {
      SilentStepKeepsCalls(w, w', c);
    }
  }

  lemma SettleKeepsCalls(w: World, c: nat, ttl: Duration)
    requires c in w.calls && (w.calls[c].Committing? || w.calls[c].Failing? || w.calls[c].Panicking?)
    requires GuardOk(w.guard) && OwnershipOk(w) && CallsOk(w)
    ensures CallsOk(SettleCall(w, c, ttl))
  {
    hide CallsOk, SettleCall, GuardOk, Settles, OwnershipOk, AfterCommit;
    var w', key := SettleCall(w, c, ttl), w.calls[c].key;
    if w.calls[c].Committing? {
      CommitOutcome(w, c, ttl);
      var commit := Commit(c, key, w.calls[c].readAt);
      var between := w.(log := w.log + [commit]);
      CommitEventKeepsCalls(w, between, commit);
      assert w'.log == between.log + [Ack(c, key, w.clock)];
      EventKeepsCalls(between, w', c, Ack(c, key, w.clock));
    } else {
      ReleaseOutcome(w, c, ttl);
      SilentStepKeepsCalls(w, w', c);
    }
  }

  lemma GuardAndOwners(w: World, ttl: Duration)
    requires Inv(w, ttl)
    ensures GuardOk(w.guard) && OwnershipOk(w)
  {
  }

  lemma CommitEventKeepsCalls(w: World, w': World, e: Event)
    requires CallsOk(w) && e.Commit? && w'.calls == w.calls && w'.log == w.log + [e]
    ensures CallsOk(w')
  {
    forall d | d in w'.calls && w'.calls[d].Acknowledged? ensures exists i :: IsAck(w'.log, i, d, w'.calls[d].key) {
      var i :| IsAck(w.log, i, d, w.calls[d].key);
      assert IsAck(w.log, i, d, w.calls[d].key) && IsAck(w'.log, i, d, w'.calls[d].key);
    }
    forall i, d, key | IsAck(w'.log, i, d, key) ensures IsAck(w.log, i, d, key) {
    }
    forall i, d, key | IsSuccess(w'.log, i, d, key) ensures IsSuccess(w.log, i, d, key) {
    }
  }

  lemma StepKeepsCalls(w: World, a: Step, ttl: Duration)
    requires Inv(w, ttl) && CallsOk(w) && Enabled(w, a)
    ensures CallsOk(After(w, a, ttl))
  {
    hide Inv, CallsOk, AfterClaim, SettleCall, GuardOk, OwnershipOk;
    var w' := After(w, a, ttl);
    match a
    case Claim(c) => ClaimKeepsCalls(w, c, ttl);
    case Settle(c) =>
      GuardAndOwners(w, ttl);
      SettleKeepsCalls(w, c, ttl);
    case Return(c) => EventKeepsCalls(w, w', c, HandlerSucceeded(c, w.calls[c].key));
    case Tick(_) => SilentStepKeepsCalls(w, w', 0);
    case _ => SilentStepKeepsCalls(w, w', a.call);
  }

  lemma {:induction false} RunKeepsCalls(worlds: seq<World>, steps: seq<Step>, ttl: Duration, n: nat)
    requires Run(worlds, steps, ttl) && Initial(worlds[0]) && ttl > 0 && n < |worlds|
    ensures CallsOk(worlds[n])
    decreases n
  {
    RunStep(worlds, steps, ttl, if n == 0 then 0 else n - 1);
    if n > 0 {
      hide Run, Inv, Enabled, After, CallsOk, Initial;
      RunKeepsCalls(worlds, steps, ttl, n - 1);
      RunKeepsInv(worlds, steps, ttl, n - 1);
      StepKeepsCalls(worlds[n - 1], steps[n - 1], ttl);
    }
  }

  /** Acknowledgement safety of the calls: no call writes a 2xx response without such a story. */
  lemma AcknowledgedCallsAreAccounted(worlds: seq<World>, steps: seq<Step>, ttl: Duration, n: nat, c: nat)
    requires Run(worlds, steps, ttl) && Initial(worlds[0]) && ttl > 0 && n < |worlds|
    requires c in worlds[n].calls && worlds[n].calls[c].Acknowledged?
    ensures
      var log, key := worlds[n].log, worlds[n].calls[c].key;
      exists h, j, i :: IsAck(log, i, c, key) && Accounted(log, h, j, i, ttl)
  {
    hide Run, Initial;
    RunKeepsCalls(worlds, steps, ttl, n);
    var log, key := worlds[n].log, worlds[n].calls[c].key;
    var i :| IsAck(log, i, c, key);
    assert IsAck(log, i, c, key);
    EveryAckIsAccounted(worlds, steps, ttl, n, i);
    var h, j :| Accounted(log, h, j, i, ttl);
    assert Accounted(log, h, j, i, ttl);
  }

  /**
   * Conversely no success is lost: a call whose handler returned nil is on its way to the 2xx response or has written
   * it, and a recorded acknowledgement is that of a call that ended so.
   */
  lemma SuccessesAreAcknowledged(worlds: seq<World>, steps: seq<Step>, ttl: Duration, n: nat, i: nat)
    requires Run(worlds, steps, ttl) && Initial(worlds[0]) && ttl > 0 && n < |worlds| && i < |worlds[n].log|
    ensures
      var e, calls := worlds[n].log[i], worlds[n].calls;
      && (e.HandlerSucceeded? ==> e.call in calls && calls[e.call].key == e.key && Succeeded(calls[e.call]))
      && (e.Ack? ==> e.call in calls && calls[e.call] == Acknowledged(e.key))
  {
    hide Run, Initial;
    RunKeepsCalls(worlds, steps, ttl, n);
    var e := worlds[n].log[i];
    assert e.Ack? ==> IsAck(worlds[n].log, i, e.call, e.key);
    assert e.HandlerSucceeded? ==> IsSuccess(worlds[n].log, i, e.call, e.key);
  }

  /**
   * What a call meets at its claim, in terms of what is known of the identity at that instant: it is answered at once
   * when the identity is accepted and not expired, waits for the call that has it in progress, is refused when as
   * many other identities are live as the guard may hold, and runs its handler otherwise.
   */
  lemma ClaimsAreAnsweredByState(worlds: seq<World>, steps: seq<Step>, ttl: Duration, n: nat)
    requires Run(worlds, steps, ttl) && Initial(worlds[0]) && ttl > 0 && n < |steps| && steps[n].Claim?
    ensures steps[n].call in worlds[n].calls && steps[n].call in worlds[n + 1].calls
    ensures
      var w, c := worlds[n], steps[n].call;
      var key, g := w.calls[c].key, w.guard;
      worlds[n + 1].calls[c] ==
        if key in g.entries && g.entries[key].InProgress? then Parked(key, g.entries[key].done)
        else if key in g.entries && w.clock < g.entries[key].expiresAt then Acknowledged(key)
        else if |LiveEntries(g, w.clock)| >= g.max then Refused(key)
        else Handling(key)
  {
    hide Run, Initial, Inv, LiveEntries, Trimmed, LiveRows;
    RunStep(worlds, steps, ttl, n);
    var w, c := worlds[n], steps[n].call;
    var key := w.calls[c].key;
    if !(key in w.guard.entries && w.guard.entries[key].Live(w.clock)) {
      CapacityCountsLiveEntries(w.guard, key, w.clock);
    }
  }

  /** Two commits of one identity are at least the replay TTL apart by their clock readings. */
  lemma CommitsAreApart(worlds: seq<World>, steps: seq<Step>, ttl: Duration, n: nat, i: nat, j: nat, key: Key)
    requires Run(worlds, steps, ttl) && Initial(worlds[0]) && ttl > 0 && n < |worlds|
    requires i < j && IsCommit(worlds[n].log, i, key) && IsCommit(worlds[n].log, j, key)
    ensures worlds[n].log[i].readAt + ttl <= worlds[n].log[j].readAt
  {
    hide Run, Initial, GuardOk, OwnershipOk, WaitersOk, AcksOk, HistoryOk, ReadingsOk;
    RunKeepsInv(worlds, steps, ttl, n);
  }

  /** Handler runs of one identity never overlap, and the identity stays in progress until its call has settled. */
  lemma HandlersNeverOverlap(worlds: seq<World>, steps: seq<Step>, ttl: Duration, n: nat, c: nat, d: nat)
    requires Run(worlds, steps, ttl) && Initial(worlds[0]) && ttl > 0 && n < |worlds|
    requires c in worlds[n].calls && worlds[n].calls[c].Holds()
    ensures ActiveKey(worlds[n].guard, worlds[n].calls[c].key)
    ensures d in worlds[n].calls && worlds[n].calls[d].Holds() && worlds[n].calls[d].key == worlds[n].calls[c].key ==>
      c == d
  {
    hide Run, Initial, GuardOk, WaitersOk, CommitsOk, AcksOk, HistoryOk, ReadingsOk;
    RunKeepsInv(worlds, steps, ttl, n);
  }

  /** How the settling of a call ends. */
  ghost predicate SettledWell(w: World, w': World, c: nat, ttl: Duration)
    requires c in w.calls
  {
    && c in w'.calls && w'.conflicts == 0
    && var key := w.calls[c].key;
       match w.calls[c]
       case Committing(_, readAt) =>
         && w'.calls[c] == Acknowledged(key)
         && key in w'.guard.entries && w'.guard.entries[key] == Accepted(readAt + ttl)
       case Failing(_) => w'.calls[c] == Refused(key) && key !in w'.guard.entries
       case _ => w'.calls[c] == Unwound(key) && key !in w'.guard.entries
  }

  /**
   * No Commit or Release of a claim holder is ever refused; a handler that returned nil is always acknowledged; a
   * call whose handler failed or panicked leaves no entry behind, so the sender's retry is processed.
   */
  lemma SettlingNeverConflicts(worlds: seq<World>, steps: seq<Step>, ttl: Duration, n: nat)
    requires Run(worlds, steps, ttl) && Initial(worlds[0]) && ttl > 0 && n < |steps| && steps[n].Settle?
    ensures steps[n].call in worlds[n].calls
    ensures SettledWell(worlds[n], worlds[n + 1], steps[n].call, ttl)
  {
    hide Run, Initial, GuardOk, OwnershipOk, WaitersOk, CommitsOk, AcksOk, HistoryOk, ReadingsOk, SettleCall, Settles;
    RunStep(worlds, steps, ttl, n);
    RunKeepsInv(worlds, steps, ttl, n);
    var w, c := worlds[n], steps[n].call;
    if w.calls[c].Committing? {
      CommitStep(w, c, ttl);
    } else {
      ReleaseStep(w, c, ttl);
    }
  }

  /**
   * Channel ownership: a channel is closed by settling its entry, which was open until then, and by nothing else;
   * so each is closed once, and a parked call's channel is closed unless its entry is still in progress.
   */
  lemma ChannelsAreClosedOnce(worlds: seq<World>, steps: seq<Step>, ttl: Duration, n: nat)
    requires Run(worlds, steps, ttl) && Initial(worlds[0]) && ttl > 0 && n < |steps|
    ensures worlds[n + 1].guard.closed != worlds[n].guard.closed <==> steps[n].Settle?
    ensures steps[n].Settle? ==>
      var g, g' := worlds[n].guard, worlds[n + 1].guard;
      exists channel :: ClosesChannel(g, g', worlds[n].calls[steps[n].call].key, channel)
    ensures forall c | c in worlds[n].calls && worlds[n].calls[c].Parked? ::
      worlds[n].calls[c].channel !in worlds[n].guard.closed <==>
        HoldsChannel(worlds[n].guard, worlds[n].calls[c].key, worlds[n].calls[c].channel)
  {
    hide Run, Initial, OwnershipOk, CommitsOk, AcksOk, HistoryOk, ReadingsOk, SettleCall, AfterClaim, Answered;
    RunStep(worlds, steps, ttl, n);
    RunKeepsInv(worlds, steps, ttl, n);
    var w, a := worlds[n], steps[n];
    if a.Settle? {
      SettleFacts(w, a.call, ttl);
      assert ClosesChannel(w.guard, worlds[n + 1].guard, w.calls[a.call].key,
        w.guard.entries[w.calls[a.call].key].done);
    } else if a.Claim? {
      ClaimLeavesChannels(w.guard, w.calls[a.call].key, w.clock);
    }
  }

  lemma ClaimLeavesChannels(g: Guard, key: Key, now: Time)
    ensures AfterClaim(g, key, now).1.closed == g.closed
  {
    hide Trimmed;
  }

  ghost predicate ClosesChannel(g: Guard, g': Guard, key: Key, channel: nat) {
    HoldsChannel(g, key, channel) && channel !in g.closed && g'.closed == g.closed + {channel}
  }
}
