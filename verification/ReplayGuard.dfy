/** The in-memory replay guard of replay.go. */
module ReplayGuard {
  import opened Common
  import opened GoTime
  import opened Sets

  type Key = string

  /** An entry is in progress, with the channel its waiters hold, or accepted until it expires. */
  datatype Entry = InProgress(done: nat) | Accepted(expiresAt: Time) {
    predicate Live(now: Time) { InProgress? || expiresAt > now }
  }

  type Entries = map<Key, Entry>

  /** What one pass through the critical section of Claim answers. */
  datatype Answer = Duplicate | Wait(channel: nat) | Claimed | Full

  /** The guard as a value; channels are numbered in the order of their creation. */
  datatype Guard = Guard(entries: Entries, max: nat, channels: nat, closed: set<nat>)

  // ----- keys -----

  const NUL: char := 0 as char

  function KeyOf(source: string, id: string): Key {
    source + [NUL] + id
  }

  lemma NulIsInSource(source: string, id: string, p: nat)
    requires NUL !in id && p < |KeyOf(source, id)| && KeyOf(source, id)[p] == NUL
    ensures p <= |source|
  {
    assert forall i | |source| < i < |KeyOf(source, id)| :: KeyOf(source, id)[i] == id[i - |source| - 1];
  }

  /** Identities never collide: a valid message id holds no NUL, so the last NUL ends the source. */
  lemma KeysDoNotCollide(source: string, id: string, source': string, id': string)
    requires NUL !in id && NUL !in id' && KeyOf(source, id) == KeyOf(source', id')
    ensures source == source' && id == id'
  {
    var k := KeyOf(source, id);
    NulIsInSource(source, id, |source'|);
    NulIsInSource(source', id', |source|);
    assert source == k[..|source|] && source' == k[..|source'|];
    assert id == k[|source| + 1..] && id' == k[|source'| + 1..];
  }

  // ----- the critical sections -----

  function Swept(entries: Entries, now: Time): Entries {
    map k | k in entries && entries[k].Live(now) :: entries[k]
  }

  /** The entries once the claimed key's own expired acceptance, and under pressure all expired ones, are dropped. */
  function Trimmed(g: Guard, key: Key, now: Time): Entries {
    var remaining := g.entries - {key};
    if |remaining| >= g.max then Swept(remaining, now) else remaining
  }

  function AfterClaim(g: Guard, key: Key, now: Time): (Answer, Guard) {
    if key in g.entries && g.entries[key].InProgress? then (Wait(g.entries[key].done), g)
    else if key in g.entries && g.entries[key].Live(now) then (Duplicate, g)
    else Admit(g, key, Trimmed(g, key, now))
  }

  /** The claim of an identity that is neither in progress nor accepted, given the entries that stay. */
  function Admit(g: Guard, key: Key, trimmed: Entries): (Answer, Guard) {
    if |trimmed| >= g.max then (Full, g.(entries := trimmed))
    else (Claimed, g.(entries := trimmed[key := InProgress(g.channels)], channels := g.channels + 1))
  }

  predicate ActiveKey(g: Guard, key: Key) {
    key in g.entries && g.entries[key].InProgress?
  }

  function AfterCommit(g: Guard, key: Key, expiresAt: Time): (Result<()>, Guard) {
    if !ActiveKey(g, key) then (Err(Conflict), g)
    else (Ok(()), g.(entries := g.entries[key := Accepted(expiresAt)], closed := g.closed + {g.entries[key].done}))
  }

  function AfterRelease(g: Guard, key: Key): (Result<()>, Guard) {
    if key !in g.entries then (Ok(()), g)
    else if g.entries[key].Accepted? then (Err(Conflict), g)
    else (Ok(()), g.(entries := g.entries - {key}, closed := g.closed + {g.entries[key].done}))
  }

  /**
   * A channel is closed exactly when it is no longer the channel of an entry in progress; no two entries share one.
   */
  ghost predicate ChannelsOk(g: Guard) {
    && (forall k | ActiveKey(g, k) :: g.entries[k].done < g.channels && g.entries[k].done !in g.closed)
    && (forall k, k' | ActiveKey(g, k) && ActiveKey(g, k') && g.entries[k].done == g.entries[k'].done :: k == k')
    && (forall c | c in g.closed :: c < g.channels)
    && (forall c: nat | c < g.channels && c !in g.closed :: exists k :: HoldsChannel(g, k, c))
  }

  ghost predicate HoldsChannel(g: Guard, key: Key, channel: nat) {
    ActiveKey(g, key) && g.entries[key].done == channel
  }

  ghost predicate GuardOk(g: Guard) {
    |g.entries| <= g.max && g.max >= 1 && ChannelsOk(g)
  }

  lemma RemovalShrinks(entries: Entries, key: Key)
    ensures |entries - {key}| <= |entries|
    ensures key in entries ==> |entries - {key}| == |entries| - 1
  {
    assert (entries - {key}).Keys == entries.Keys - {key};
  }

  lemma TrimmedFacts(g: Guard, key: Key, now: Time)
    requires !ActiveKey(g, key)
    ensures
      var trimmed := Trimmed(g, key, now);
      && key !in trimmed
      && (forall k | k in trimmed :: k in g.entries && trimmed[k] == g.entries[k])
      && (forall k | k in g.entries && k != key && g.entries[k].Live(now) :: k in trimmed)
      && |trimmed| <= |g.entries|
  {
    var trimmed := Trimmed(g, key, now);
    assert trimmed.Keys <= g.entries.Keys;
    SubsetIsSmaller(trimmed.Keys, g.entries.Keys);
  }

  /** Dropping acceptances and adding an entry with a new channel keeps the channels in order. */
  lemma NewEntryKeepsChannels(g: Guard, g': Guard, key: Key)
    requires ChannelsOk(g) && !ActiveKey(g, key)
    requires forall k | k != key && ActiveKey(g, k) :: ActiveKey(g', k) && g'.entries[k] == g.entries[k]
    requires forall k | k != key && ActiveKey(g', k) :: ActiveKey(g, k)
    requires g'.closed == g.closed
    requires if ActiveKey(g', key) then g'.entries[key].done == g.channels && g'.channels == g.channels + 1
      else g'.channels == g.channels
    ensures ChannelsOk(g')
  {
    forall c: nat | c < g'.channels && c !in g'.closed ensures exists k :: HoldsChannel(g', k, c) {
      if c < g.channels {
        var k :| HoldsChannel(g, k, c);
        assert HoldsChannel(g, k, c);
        assert HoldsChannel(g', k, c);
      } else {
        assert HoldsChannel(g', key, c);
      }
    }
  }

  lemma AdmitKeepsGuard(g: Guard, key: Key, trimmed: Entries)
    requires GuardOk(g) && !ActiveKey(g, key) && key !in trimmed && |trimmed| <= |g.entries|
    requires forall k | k in trimmed :: k in g.entries && trimmed[k] == g.entries[k]
    requires forall k | k != key && ActiveKey(g, k) :: k in trimmed
    ensures GuardOk(Admit(g, key, trimmed).1)
  {
    hide ChannelsOk;
    NewEntryKeepsChannels(g, Admit(g, key, trimmed).1, key);
  }

  lemma ClaimKeepsGuard(g: Guard, key: Key, now: Time)
    requires GuardOk(g)
    ensures GuardOk(AfterClaim(g, key, now).1)
  {
    if !ActiveKey(g, key) {
      TrimmedFacts(g, key, now);
      hide Trimmed, ChannelsOk;
      AdmitKeepsGuard(g, key, Trimmed(g, key, now));
    }
  }

  /** Settling an entry closes its channel, and no other, for the first time. */
  lemma SettleKeepsGuard(g: Guard, g': Guard, key: Key)
    requires GuardOk(g) && ActiveKey(g, key) && !ActiveKey(g', key)
    requires g'.max == g.max && g'.channels == g.channels && g'.closed == g.closed + {g.entries[key].done}
    requires |g'.entries| <= |g.entries|
    requires forall k | k != key ::
      (k in g.entries <==> k in g'.entries) && (k in g.entries ==> g'.entries[k] == g.entries[k])
    ensures GuardOk(g') && g.entries[key].done !in g.closed
  {
    forall k | k != key ensures ActiveKey(g, k) <==> ActiveKey(g', k) {
    }
    forall c: nat | c < g'.channels && c !in g'.closed ensures exists k :: HoldsChannel(g', k, c) {
      var k :| HoldsChannel(g, k, c);
      assert HoldsChannel(g, k, c) && k != key;
      assert HoldsChannel(g', k, c);
    }
  }

  lemma CommitKeepsGuard(g: Guard, key: Key, expiresAt: Time)
    requires GuardOk(g)
    ensures GuardOk(AfterCommit(g, key, expiresAt).1)
  {
    if ActiveKey(g, key) {
      var g' := AfterCommit(g, key, expiresAt).1;
      assert g'.entries.Keys == g.entries.Keys;
      SettleKeepsGuard(g, g', key);
    }
  }

  lemma ReleaseKeepsGuard(g: Guard, key: Key)
    requires GuardOk(g)
    ensures GuardOk(AfterRelease(g, key).1)
  {
    if ActiveKey(g, key) {
      RemovalShrinks(g.entries, key);
      SettleKeepsGuard(g, AfterRelease(g, key).1, key);
    }
  }

  lemma AbsentKey(entries: Entries, key: Key)
    ensures key !in entries ==> entries - {key} == entries
  {
    assert forall k | k in entries && k != key :: k in entries - {key};
  }

  // ----- the guard in place -----

  class MemoryReplayGuard {
    var entries: Entries
    const max: nat
    var channels: nat
    var closed: set<nat>

    function Value(): Guard
      reads this
    {
      Guard(entries, max, channels, closed)
    }

    ghost predicate Valid()
      reads this
    {
      GuardOk(Value())
    }

    constructor (maxEntries: int)
      ensures Valid() && entries == map[] && closed == {}
      ensures max == if maxEntries <= 0 then 10_000 else maxEntries
    {
      entries, channels, closed := map[], 0, {};
      max := if maxEntries <= 0 then 10_000 else maxEntries;
    }

    /** Closing a closed channel panics. */
    method Close(channel: nat)
      requires channel !in closed
      modifies `closed
      ensures closed == old(closed) + {channel}
    {
      closed := closed + {channel};
    }

    /** The sweep of Claim: ranging over the entries, deleting the expired ones. */
    method Sweep(now: Time)
      modifies `entries
      ensures entries == Swept(old(entries), now)
    {
      ghost var before := entries;
      var remaining := entries.Keys;
      while remaining != {}
        invariant remaining <= before.Keys
        invariant forall k | k in remaining :: k in entries
        invariant forall k :: k in entries <==> k in before && (k in remaining || before[k].Live(now))
        invariant forall k | k in entries :: entries[k] == before[k]
        decreases |remaining|
      {
        var candidate :| candidate in remaining;
        if entries[candidate].Accepted? && entries[candidate].expiresAt <= now {
          entries := entries - {candidate};
        }
        remaining := remaining - {candidate};
      }
    }

    /** Claim makes room: when the map is full, the sweep runs. `before` holds the entries with `key` still present. */
    method MakeRoom(key: Key, now: Time, ghost before: Guard)
      requires before.max == max && entries == before.entries - {key}
      modifies `entries
      ensures entries == Trimmed(before, key, now)
    {
      if |entries| >= max {
        Sweep(now);
      }
    }

    /** One pass through the critical section of Claim. */
    method TryClaim(key: Key, now: Time) returns (answer: Answer)
      requires Valid()
      modifies this
      ensures Valid()
      ensures (answer, Value()) == AfterClaim(old(Value()), key, now)
    {
      ghost var before := Value();
      ClaimKeepsGuard(before, key, now);
      if key in entries {
        var entry := entries[key];
        if entry.Accepted? {
          if entry.expiresAt > now {
            return Duplicate;
          }
          entries := entries - {key};
        } else {
          return Wait(entry.done);
        }
      }
      AbsentKey(before.entries, key);
      answer := AdmitNew(key, now, before);
    }

    /** The rest of the critical section: make room, refuse when there is none, add the entry otherwise. */
    method AdmitNew(key: Key, now: Time, ghost before: Guard) returns (answer: Answer)
      requires Value() == before.(entries := before.entries - {key})
      modifies this
      ensures (answer, Value()) == Admit(before, key, Trimmed(before, key, now))
    {
      MakeRoom(key, now, before);
      hide Trimmed;
      if |entries| >= max {
        return Full;
      }
      entries := entries[key := InProgress(channels)];
      channels := channels + 1;
      return Claimed;
    }

    method Commit(key: Key, expiresAt: Time) returns (r: Result<()>)
      requires Valid()
      modifies this
      ensures Valid()
      ensures (r, Value()) == AfterCommit(old(Value()), key, expiresAt)
    {
      CommitKeepsGuard(Value(), key, expiresAt);
      if key !in entries || entries[key].Accepted? {
        return Err(Conflict);
      }
      var done := entries[key].done;
      assert ActiveKey(Value(), key);
      entries := entries[key := Accepted(expiresAt)];
      Close(done);
      return Ok(());
    }

    method Release(key: Key) returns (r: Result<()>)
      requires Valid()
      modifies this
      ensures Valid()
      ensures (r, Value()) == AfterRelease(old(Value()), key)
    {
      ReleaseKeepsGuard(Value(), key);
      if key !in entries {
        return Ok(());
      }
      if entries[key].Accepted? {
        return Err(Conflict);
      }
      var done := entries[key].done;
      assert ActiveKey(Value(), key);
      entries := entries - {key};
      Close(done);
      return Ok(());
    }
  }

  // ----- refinement of the unbounded table -----

  /** The simple guard: every acceptance ever made is remembered, and expiry is a comparison. */
  datatype Status = Active | AcceptedUntil(expiresAt: Time) {
    predicate Live(now: Time) { Active? || expiresAt > now }
  }

  type Table = map<Key, Status>

  function StatusOf(e: Entry): Status {
    match e
    case InProgress(_) => Active
    case Accepted(expiresAt) => AcceptedUntil(expiresAt)
  }

  function LiveEntries(g: Guard, now: Time): Table {
    map k | k in g.entries && g.entries[k].Live(now) :: StatusOf(g.entries[k])
  }

  function LiveRows(t: Table, now: Time): Table {
    map k | k in t && t[k].Live(now) :: t[k]
  }

  /** Guard and table tell the same story from `now` on. */
  ghost predicate Agrees(g: Guard, t: Table, now: Time) {
    LiveEntries(g, now) == LiveRows(t, now)
  }

  lemma AgreementPersists(g: Guard, t: Table, now: Time, later: Time)
    requires Agrees(g, t, now) && now <= later
    ensures Agrees(g, t, later)
  {
    forall k
      ensures k in LiveEntries(g, later) <==> k in LiveRows(t, later)
      ensures k in LiveEntries(g, later) ==> LiveEntries(g, later)[k] == LiveRows(t, later)[k]
    {
      assert k in LiveEntries(g, later) ==> k in LiveEntries(g, now);
      assert k in LiveRows(t, later) ==> k in LiveRows(t, now);
    }
  }

  /** The abstract answer to a claim: wait, duplicate, or granted while fewer than `max` identities are live. */
  predicate AnswersAlike(answer: Answer, t: Table, key: Key, now: Time, max: nat) {
    && (answer.Wait? <==> key in t && t[key].Active?)
    && (answer.Duplicate? <==> key in t && t[key].AcceptedUntil? && t[key].Live(now))
    && (answer.Full? <==> !(key in t && t[key].Live(now)) && |LiveRows(t, now)| >= max)
    && (answer.Claimed? <==> !(key in t && t[key].Live(now)) && |LiveRows(t, now)| < max)
  }

  lemma LivePresence(g: Guard, t: Table, now: Time, key: Key)
    requires Agrees(g, t, now)
    ensures (key in g.entries && g.entries[key].Live(now)) <==> (key in t && t[key].Live(now))
    ensures key in t && t[key].Live(now) ==> StatusOf(g.entries[key]) == t[key]
  {
    assert key in LiveEntries(g, now) <==> key in LiveRows(t, now);
  }

  lemma TrimmedEntry(g: Guard, key: Key, now: Time, k: Key)
    requires !(key in g.entries && g.entries[key].Live(now))
    ensures k in Trimmed(g, key, now) ==> k in g.entries && Trimmed(g, key, now)[k] == g.entries[k]
    ensures k in g.entries && g.entries[k].Live(now) ==> k in Trimmed(g, key, now)
    ensures |g.entries - {key}| >= g.max && k in Trimmed(g, key, now) ==> g.entries[k].Live(now)
  {
  }

  lemma TrimmedLive(g: Guard, key: Key, now: Time)
    requires !(key in g.entries && g.entries[key].Live(now))
    ensures LiveEntries(g.(entries := Trimmed(g, key, now)), now) == LiveEntries(g, now)
    ensures LiveEntries(g, now).Keys <= Trimmed(g, key, now).Keys
    ensures |g.entries - {key}| >= g.max ==> LiveEntries(g, now).Keys == Trimmed(g, key, now).Keys
  {
    hide Trimmed;
    forall k
      ensures k in Trimmed(g, key, now) ==> k in g.entries && Trimmed(g, key, now)[k] == g.entries[k]
      ensures k in g.entries && g.entries[k].Live(now) ==> k in Trimmed(g, key, now)
      ensures |g.entries - {key}| >= g.max && k in Trimmed(g, key, now) ==> g.entries[k].Live(now)
    {
      TrimmedEntry(g, key, now, k);
    }
  }

  lemma TrimmedWithoutPressure(g: Guard, key: Key, now: Time)
    ensures |g.entries - {key}| < g.max ==> |Trimmed(g, key, now)| < g.max
  {
  }

  /** Under pressure the sweep leaves exactly the live entries, so capacity counts nothing else. */
  lemma CapacityCountsLiveEntries(g: Guard, key: Key, now: Time)
    requires !(key in g.entries && g.entries[key].Live(now))
    ensures |Trimmed(g, key, now)| >= g.max <==> |LiveEntries(g, now)| >= g.max
  {
    hide Trimmed, LiveEntries;
    TrimmedLive(g, key, now);
    TrimmedWithoutPressure(g, key, now);
    var trimmed, live := Trimmed(g, key, now), LiveEntries(g, now);
    SubsetIsSmaller(live.Keys, trimmed.Keys);
    assert |trimmed.Keys| == |trimmed| && |live.Keys| == |live|;
  }

  lemma NewEntryIsLive(g: Guard, g': Guard, t: Table, key: Key, channel: nat, now: Time)
    requires g'.entries == g.entries[key := InProgress(channel)]
    requires LiveEntries(g, now) == LiveRows(t, now)
    ensures Agrees(g', t[key := Active], now)
  {
    assert LiveEntries(g', now) == LiveEntries(g, now)[key := Active];
    assert LiveRows(t[key := Active], now) == LiveRows(t, now)[key := Active];
  }

  lemma AdmitRefines(g: Guard, t: Table, key: Key, now: Time, trimmed: Entries)
    requires Agrees(g.(entries := trimmed), t, now)
    requires |trimmed| >= g.max <==> |LiveRows(t, now)| >= g.max
    requires !(key in t && t[key].Live(now))
    ensures
      var (answer, g') := Admit(g, key, trimmed);
      && AnswersAlike(answer, t, key, now, g.max)
      && Agrees(g', if answer.Claimed? then t[key := Active] else t, now)
  {
    hide LiveEntries, LiveRows;
    if |trimmed| < g.max {
      NewEntryIsLive(g.(entries := trimmed), Admit(g, key, trimmed).1, t, key, g.channels, now);
    }
  }

  /** Claim answers as the unbounded table does, except that it reports capacity exactly at `max` live identities. */
  lemma ClaimRefines(g: Guard, t: Table, key: Key, now: Time)
    requires Agrees(g, t, now)
    ensures
      var (answer, g') := AfterClaim(g, key, now);
      && AnswersAlike(answer, t, key, now, g.max)
      && Agrees(g', if answer.Claimed? then t[key := Active] else t, now)
  {
    LivePresence(g, t, now, key);
    if !(key in g.entries && g.entries[key].Live(now)) {
      hide Trimmed, LiveEntries, LiveRows, AnswersAlike, Admit;
      CapacityCountsLiveEntries(g, key, now);
      TrimmedLive(g, key, now);
      AdmitRefines(g, t, key, now, Trimmed(g, key, now));
    }
  }

  /** Commit succeeds exactly for active identities, as in the table. */
  lemma CommitRefines(g: Guard, t: Table, key: Key, expiresAt: Time, now: Time)
    requires GuardOk(g) && Agrees(g, t, now)
    ensures
      var (r, g') := AfterCommit(g, key, expiresAt);
      && (r.Ok? <==> key in t && t[key].Active?)
      && Agrees(g', if r.Ok? then t[key := AcceptedUntil(expiresAt)] else t, now)
  {
    LivePresence(g, t, now, key);
    if ActiveKey(g, key) {
      var g' := AfterCommit(g, key, expiresAt).1;
      var t' := t[key := AcceptedUntil(expiresAt)];
      forall k
        ensures k in LiveEntries(g', now) <==> k in LiveRows(t', now)
        ensures k in LiveEntries(g', now) ==> LiveEntries(g', now)[k] == LiveRows(t', now)[k]
      {
        LivePresence(g, t, now, k);
      }
    }
  }

  /**
   * Release of an active identity removes it from both. The answers for an identity that is not active differ
   * exactly when an expired acceptance has not been dropped yet: the table of live identities knows nothing of it
   * and would report success, the map still reports a conflict.
   */
  lemma ReleaseRefines(g: Guard, t: Table, key: Key, now: Time)
    requires GuardOk(g) && Agrees(g, t, now)
    ensures
      var (r, g') := AfterRelease(g, key);
      var expected := !(key in t && t[key].Live(now) && t[key].AcceptedUntil?);
      && (r.Ok? == expected <==> !(key in g.entries && g.entries[key].Accepted? && !g.entries[key].Live(now)))
      && Agrees(g', if key in t && t[key].Active? then t - {key} else t, now)
  {
    LivePresence(g, t, now, key);
    if ActiveKey(g, key) {
      var g' := AfterRelease(g, key).1;
      var t' := t - {key};
      forall k
        ensures k in LiveEntries(g', now) <==> k in LiveRows(t', now)
        ensures k in LiveEntries(g', now) ==> LiveEntries(g', now)[k] == LiveRows(t', now)[k]
      {
        LivePresence(g, t, now, k);
      }
    }
  }

  /** One call of the guard, with the clock reading of its critical section. */
  datatype Request =
    | ClaimRequest(key: Key, now: Time)
    | CommitRequest(key: Key, now: Time, expiresAt: Time)
    | ReleaseRequest(key: Key, now: Time)

  function AfterRequest(g: Guard, q: Request): Guard {
    match q
    case ClaimRequest(key, now) => AfterClaim(g, key, now).1
    case CommitRequest(key, _, expiresAt) => AfterCommit(g, key, expiresAt).1
    case ReleaseRequest(key, _) => AfterRelease(g, key).1
  }

  /** What the unbounded table makes of the request; a claim it would grant is refused at `max` live identities. */
  function TableAfter(t: Table, q: Request, max: nat): Table {
    match q
    case ClaimRequest(key, now) =>
      if (key in t && t[key].Live(now)) || |LiveRows(t, now)| >= max then t else t[key := Active]
    case CommitRequest(key, _, expiresAt) =>
      if key in t && t[key].Active? then t[key := AcceptedUntil(expiresAt)] else t
    case ReleaseRequest(key, _) => if key in t && t[key].Active? then t - {key} else t
  }

  function GuardAfter(g: Guard, requests: seq<Request>): Guard {
    if requests == [] then g
    else AfterRequest(GuardAfter(g, requests[..|requests| - 1]), requests[|requests| - 1])
  }

  function TableAfterAll(t: Table, requests: seq<Request>, max: nat): Table {
    if requests == [] then t
    else TableAfter(TableAfterAll(t, requests[..|requests| - 1], max), requests[|requests| - 1], max)
  }

  ghost predicate Monotone(requests: seq<Request>) {
    forall i, j | 0 <= i <= j < |requests| :: requests[i].now <= requests[j].now
  }

  lemma RequestKeepsGuard(g: Guard, q: Request)
    requires GuardOk(g)
    ensures GuardOk(AfterRequest(g, q)) && AfterRequest(g, q).max == g.max
  {
    hide GuardOk, Trimmed;
    match q
    case ClaimRequest(key, now) => ClaimKeepsGuard(g, key, now);
    case CommitRequest(key, now, expiresAt) => CommitKeepsGuard(g, key, expiresAt);
    case ReleaseRequest(key, now) => ReleaseKeepsGuard(g, key);
  }

  lemma RequestKeepsAgreement(g: Guard, t: Table, q: Request)
    requires GuardOk(g) && Agrees(g, t, q.now)
    ensures Agrees(AfterRequest(g, q), TableAfter(t, q, g.max), q.now)
  {
    hide Agrees, AfterClaim, AfterCommit, AfterRelease, GuardOk;
    match q
    case ClaimRequest(key, now) => ClaimRefines(g, t, key, now);
    case CommitRequest(key, now, expiresAt) => CommitRefines(g, t, key, expiresAt, now);
    case ReleaseRequest(key, now) => ReleaseRefines(g, t, key, now);
  }

  /** The map holds nothing the table does not remember; it may have dropped expired acceptances. */
  ghost predicate Remembers(g: Guard, t: Table) {
    forall k | k in g.entries :: k in t && t[k] == StatusOf(g.entries[k])
  }

  lemma ClaimIsRemembered(g: Guard, t: Table, key: Key, now: Time)
    requires GuardOk(g) && Agrees(g, t, now) && Remembers(g, t)
    ensures Remembers(AfterClaim(g, key, now).1, if AfterClaim(g, key, now).0.Claimed? then t[key := Active] else t)
  {
    hide Trimmed, Agrees, GuardOk;
    if !(key in g.entries && g.entries[key].Live(now)) {
      TrimmedFacts(g, key, now);
    }
  }

  lemma ReleaseIsRemembered(g: Guard, t: Table, key: Key, now: Time)
    requires Agrees(g, t, now) && Remembers(g, t)
    ensures Remembers(AfterRelease(g, key).1, if key in t && t[key].Active? then t - {key} else t)
  {
    LivePresence(g, t, now, key);
  }

  lemma RequestIsRemembered(g: Guard, t: Table, q: Request)
    requires GuardOk(g) && Agrees(g, t, q.now) && Remembers(g, t)
    ensures Remembers(AfterRequest(g, q), TableAfter(t, q, g.max))
  {
    hide Agrees, AfterClaim, AfterCommit, AfterRelease, GuardOk, Remembers;
    match q
    case ClaimRequest(key, now) =>
      ClaimRefines(g, t, key, now);
      ClaimIsRemembered(g, t, key, now);
    case CommitRequest(key, now, expiresAt) =>
      CommitRefines(g, t, key, expiresAt, now);
      CommitIsRemembered(g, t, key, expiresAt);
    case ReleaseRequest(key, now) => ReleaseIsRemembered(g, t, key, now);
  }

  lemma CommitIsRemembered(g: Guard, t: Table, key: Key, expiresAt: Time)
    requires Remembers(g, t)
    ensures
      var (r, g') := AfterCommit(g, key, expiresAt);
      Remembers(g', if r.Ok? then t[key := AcceptedUntil(expiresAt)] else t)
  {
  }

  /** What Release answers, as far as the table says: an identity accepted once, whose acceptance expired, is open. */
  predicate ReleaseAnswersAlike(r: Result<()>, t: Table, key: Key, now: Time) {
    && (r.Err? ==> r.code == Conflict && key in t && t[key].AcceptedUntil?)
    && (key in t && t[key].AcceptedUntil? && t[key].Live(now) ==> r.Err?)
  }

  lemma ReleaseAnswers(g: Guard, t: Table, key: Key, now: Time)
    requires Agrees(g, t, now) && Remembers(g, t)
    ensures ReleaseAnswersAlike(AfterRelease(g, key).0, t, key, now)
  {
    LivePresence(g, t, now, key);
  }

  const UNUSED: Guard := Guard(map[], 1, 0, {})

  lemma RequestKeepsBoth(g: Guard, t: Table, q: Request, now: Time)
    requires GuardOk(g) && Agrees(g, t, q.now) && Remembers(g, t) && q.now <= now
    ensures
      var g', t' := AfterRequest(g, q), TableAfter(t, q, g.max);
      GuardOk(g') && g'.max == g.max && Agrees(g', t', now) && Remembers(g', t')
  {
    hide Agrees, Remembers, GuardOk, AfterRequest, TableAfter;
    RequestKeepsGuard(g, q);
    RequestKeepsAgreement(g, t, q);
    RequestIsRemembered(g, t, q);
    AgreementPersists(AfterRequest(g, q), TableAfter(t, q, g.max), q.now, now);
  }

  lemma EmptyAgrees(max: nat, now: Time)
    requires max >= 1
    ensures
      var g := UNUSED.(max := max);
      GuardOk(g) && Agrees(g, map[], now) && Remembers(g, map[])
  {
  }

  /**
   * The bounded map with lazy deletion behaves as the unbounded table over every history of calls with a monotone
   * clock: it stays within its bound, and the next call is answered as the table answers it, whether it is a claim, a
   * commit or a release. Only the release of an identity whose acceptance has expired is left open by the table.
   */
  lemma {:induction false} GuardRefinesTable(max: nat, requests: seq<Request>, key: Key, now: Time)
    requires max >= 1 && Monotone(requests) && (requests == [] || requests[|requests| - 1].now <= now)
    ensures
      var g, t := GuardAfter(UNUSED.(max := max), requests), TableAfterAll(map[], requests, max);
      && GuardOk(g) && g.max == max && |g.entries| <= max
      && Agrees(g, t, now) && Remembers(g, t)
      && AnswersAlike(AfterClaim(g, key, now).0, t, key, now, max)
      && (forall expiresAt :: AfterCommit(g, key, expiresAt).0.Ok? <==> key in t && t[key].Active?)
      && ReleaseAnswersAlike(AfterRelease(g, key).0, t, key, now)
  {
    hide Agrees, Remembers, GuardOk, AfterRequest, TableAfter, AnswersAlike, AfterClaim, AfterRelease, AfterCommit;
    var empty := UNUSED.(max := max);
    if requests == [] {
      EmptyAgrees(max, now);
    } else {
      var init, last := requests[..|requests| - 1], requests[|requests| - 1];
      GuardRefinesTable(max, init, key, last.now);
      RequestKeepsBoth(GuardAfter(empty, init), TableAfterAll(map[], init, max), last, now);
    }
    Answers(GuardAfter(empty, requests), TableAfterAll(map[], requests, max), key, now);
  }

  lemma Answers(g: Guard, t: Table, key: Key, now: Time)
    requires GuardOk(g) && Agrees(g, t, now) && Remembers(g, t)
    ensures |g.entries| <= g.max
    ensures AnswersAlike(AfterClaim(g, key, now).0, t, key, now, g.max)
    ensures forall expiresAt :: AfterCommit(g, key, expiresAt).0.Ok? <==> key in t && t[key].Active?
    ensures ReleaseAnswersAlike(AfterRelease(g, key).0, t, key, now)
  {
    hide Agrees, Remembers, AfterClaim, AfterRelease, AnswersAlike;
    ClaimRefines(g, t, key, now);
    ReleaseAnswers(g, t, key, now);
    forall expiresAt ensures AfterCommit(g, key, expiresAt).0.Ok? <==> key in t && t[key].Active? {
      CommitRefines(g, t, key, expiresAt, now);
    }
  }

  // ----- what the table leaves open -----

  /** `requests` leaves the guard and the table as given; the bound is 1. */
  ghost predicate Leaves(requests: seq<Request>, g: Guard, t: Table) {
    GuardAfter(UNUSED, requests) == g && TableAfterAll(map[], requests, 1) == t
  }

  lemma NothingLeaves()
    ensures Leaves([], UNUSED, map[])
  {
  }

  lemma OneMoreLeaves(requests: seq<Request>, q: Request, g: Guard, t: Table)
    requires Leaves(requests, g, t)
    ensures Leaves(requests + [q], AfterRequest(g, q), TableAfter(t, q, 1))
  {
    hide AfterRequest, TableAfter;
    assert (requests + [q])[..|requests|] == requests;
  }

  const ACCEPTED: Guard := Guard(map["a" := Accepted(5)], 1, 1, {0})
  const ACCEPTED_ROW: Table := map["a" := AcceptedUntil(5)]

  /** What the guard does in the two histories below, and what the table does. */
  lemma FirstClaimAndCommit(first: Guard)
    requires first == Guard(map["a" := InProgress(0)], 1, 1, {})
    ensures AfterRequest(UNUSED, ClaimRequest("a", 0)) == first
    ensures AfterRequest(first, CommitRequest("a", 0, 5)) == ACCEPTED
  {
    hide TableAfter, Swept;
    assert UNUSED.entries - {"a"} == map[];
  }

  lemma SweptAt10()
    ensures Swept(ACCEPTED.entries, 10) == map[]
  {
  }

  lemma SecondClaim(second: Guard)
    requires second == Guard(map["b" := InProgress(1)], 1, 2, {0})
    ensures AfterRequest(ACCEPTED, ClaimRequest("b", 10)) == second
  {
    hide TableAfter, Swept;
    SweptAt10();
    assert ACCEPTED.entries - {"b"} == ACCEPTED.entries && |ACCEPTED.entries| == 1;
    assert Trimmed(ACCEPTED, "b", 10) == map[];
    hide Trimmed;
    assert Admit(ACCEPTED, "b", map[]) == (Claimed, second);
  }

  lemma SecondRelease(second: Guard)
    requires second == Guard(map["b" := InProgress(1)], 1, 2, {0})
    ensures AfterRequest(second, ReleaseRequest("b", 10)).entries == map[]
  {
    hide TableAfter, AfterClaim, AfterCommit;
    assert second.entries - {"b"} == map[];
  }

  lemma TableSide()
    ensures TableAfter(map[], ClaimRequest("a", 0), 1) == map["a" := Active]
    ensures TableAfter(map["a" := Active], CommitRequest("a", 0, 5), 1) == ACCEPTED_ROW
    ensures TableAfter(ACCEPTED_ROW, ClaimRequest("b", 10), 1) == ACCEPTED_ROW["b" := Active]
    ensures TableAfter(ACCEPTED_ROW["b" := Active], ReleaseRequest("b", 10), 1) == ACCEPTED_ROW
  {
    hide AfterRequest;
    assert LiveRows(map[], 0) == map[] && LiveRows(ACCEPTED_ROW, 10) == map[];
    assert ACCEPTED_ROW["b" := Active] - {"b"} == ACCEPTED_ROW;
  }

  lemma AcceptedOnce() returns (requests: seq<Request>)
    ensures requests == [ClaimRequest("a", 0), CommitRequest("a", 0, 5)] && Leaves(requests, ACCEPTED, ACCEPTED_ROW)
  {
    hide Leaves, AfterRequest, TableAfter;
    var first := Guard(map["a" := InProgress(0)], 1, 1, {});
    FirstClaimAndCommit(first);
    TableSide();
    NothingLeaves();
    OneMoreLeaves([], ClaimRequest("a", 0), UNUSED, map[]);
    requests := [] + [ClaimRequest("a", 0)];
    OneMoreLeaves(requests, CommitRequest("a", 0, 5), first, map["a" := Active]);
    requests := requests + [CommitRequest("a", 0, 5)];
  }

  lemma SweptSince() returns (requests: seq<Request>, g: Guard)
    ensures requests == [ClaimRequest("a", 0), CommitRequest("a", 0, 5), ClaimRequest("b", 10), ReleaseRequest("b", 10)]
    ensures Leaves(requests, g, ACCEPTED_ROW) && g.entries == map[]
  {
    hide Leaves, AfterRequest, TableAfter;
    var second := Guard(map["b" := InProgress(1)], 1, 2, {0});
    SecondClaim(second);
    SecondRelease(second);
    TableSide();
    requests := AcceptedOnce();
    OneMoreLeaves(requests, ClaimRequest("b", 10), ACCEPTED, ACCEPTED_ROW);
    requests := requests + [ClaimRequest("b", 10)];
    OneMoreLeaves(requests, ReleaseRequest("b", 10), second, ACCEPTED_ROW["b" := Active]);
    requests, g := requests + [ReleaseRequest("b", 10)], AfterRequest(second, ReleaseRequest("b", 10));
  }

  /**
   * The answer is open indeed: after two histories that leave the same table, Release of the same identity conflicts
   * in one and succeeds in the other, where a claim under pressure has swept the expired acceptance.
   */
  lemma ReleaseIsOpen() returns (requests: seq<Request>, others: seq<Request>)
    ensures Monotone(requests) && Monotone(others)
    ensures TableAfterAll(map[], requests, 1) == TableAfterAll(map[], others, 1)
    ensures AfterRelease(GuardAfter(UNUSED, requests), "a").0 == Err(Conflict)
    ensures AfterRelease(GuardAfter(UNUSED, others), "a").0 == Common.Ok(())
  {
    hide GuardAfter, TableAfterAll;
    requests := AcceptedOnce();
    var g;
    others, g := SweptSince();
  }
}
