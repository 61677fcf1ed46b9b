/** Bounded retention: postgres/cleanup.go as one transaction over the outbound and inbound tables. */
module Retention {
  import opened Common
  import opened GoTime
  import opened Sets
  import opened HttpHeaders
  import opened Outbox
  import opened Ledger
  import opened OutboxRuns
  import I = Inbox
  import IR = InboxRuns

  // ----- ORDER BY ... LIMIT -----

  ghost predicate StrictOrder<K(!new)>(before: (K, K) -> bool) {
    && (forall a, b :: !(before(a, b) && before(b, a)))
    && (forall a, b, c :: before(a, b) && before(b, c) ==> before(a, c))
    && (forall a, b :: a == b || before(a, b) || before(b, a))
  }

  /** The first `n` elements of `eligible` in the order `before`, or all of them when there are fewer. */
  predicate OldestBatch<K>(eligible: set<K>, before: (K, K) -> bool, n: nat, batch: set<K>) {
    && batch <= eligible && |batch| == (if n < |eligible| then n else |eligible|)
    && forall b, e | b in batch && e in eligible && e !in batch :: before(b, e)
  }

  lemma {:induction false} EarliestExists<K(!new)>(s: set<K>, before: (K, K) -> bool) returns (min: K)
    requires s != {} && StrictOrder(before)
    ensures min in s && forall x | x in s && x != min :: before(min, x)
  {
    min :| min in s;
    if s != {min} {
      var rest := s - {min};
      var other := EarliestExists(rest, before);
      assert s == rest + {min};
      if !before(min, other) {
        min := other;
      }
    }
  }

  lemma {:induction false} OldestBatchExists<K(!new)>(eligible: set<K>, before: (K, K) -> bool, n: nat)
    returns (batch: set<K>)
    requires StrictOrder(before)
    ensures OldestBatch(eligible, before, n, batch)
  {
    if n == 0 || eligible == {} {
      batch := {};
    } else {
      var min := EarliestExists(eligible, before);
      var rest := OldestBatchExists(eligible - {min}, before, n - 1);
      batch := rest + {min};
    }
  }

  /** Two batches of one query are nested, for an element of one outside the other would precede itself. */
  lemma BatchesAreNested<K(!new)>(eligible: set<K>, before: (K, K) -> bool, n: nat, batch: set<K>, other: set<K>)
    requires StrictOrder(before) && OldestBatch(eligible, before, n, batch) && OldestBatch(eligible, before, n, other)
    ensures batch <= other || other <= batch
  {
    forall x, y | x in batch && x !in other && y in other ensures y in batch {
      assert before(y, x);
    }
  }

  /** The order leaves no choice: two batches of the same query are the same. */
  lemma OldestBatchIsUnique<K(!new)>(eligible: set<K>, before: (K, K) -> bool, n: nat, batch: set<K>, other: set<K>)
    requires StrictOrder(before) && OldestBatch(eligible, before, n, batch) && OldestBatch(eligible, before, n, other)
    ensures batch == other
  {
    BatchesAreNested(eligible, before, n, batch, other);
    if batch <= other {
      SameSize(batch, other);
    } else {
      SameSize(other, batch);
    }
  }

  lemma SameSize<K>(a: set<K>, b: set<K>)
    requires a <= b && |a| == |b|
    ensures a == b
  {
    if exists x :: x in b && x !in a {
      var x :| x in b && x !in a;
      SubsetIsSmaller(a, b - {x});
      assert false;
    }
  }

  // ----- the policy -----

  datatype RetentionPolicy = RetentionPolicy(
    delivered: Duration,
    failed: Duration,
    receipts: Duration,
    orphans: Duration,
    batchSize: int)

  const DEFAULT_BATCH := 1000
  const MAXIMUM_BATCH := 10000

  method NormalizePolicy(policy: RetentionPolicy) returns (r: Result<RetentionPolicy>)
    ensures r.Ok? <==>
      && policy.delivered >= 0 && policy.failed >= 0 && policy.receipts >= 0 && policy.orphans >= 0
      && 0 <= policy.batchSize <= MAXIMUM_BATCH
    ensures r.Err? ==> r.code == InvalidConfiguration
    ensures r.Ok? ==>
      && 1 <= r.value.batchSize <= MAXIMUM_BATCH
      && r.value == policy.(batchSize := if policy.batchSize == 0 then DEFAULT_BATCH else policy.batchSize)
  {
    if policy.delivered < 0 || policy.failed < 0 || policy.receipts < 0 || policy.orphans < 0 {
      return Err(InvalidConfiguration);
    }
    if policy.batchSize < 0 || policy.batchSize > MAXIMUM_BATCH {
      return Err(InvalidConfiguration);
    }
    var normalized := policy;
    if normalized.batchSize == 0 {
      normalized := normalized.(batchSize := DEFAULT_BATCH);
    }
    return Common.Ok(normalized);
  }

  // ----- what is eligible -----

  function CompletedAt(deliveries: map<string, Delivery>, id: string): Time {
    if id in deliveries && deliveries[id].completedAt.Some? then deliveries[id].completedAt.value else 0
  }

  function ProcessedAt(rows: I.Receipts, key: I.ReceiptKey): Time {
    if key in rows && rows[key].processedAt.Some? then rows[key].processedAt.value else 0
  }

  function CreatedAt(messages: map<string, Message>, id: string): Time {
    if id in messages then messages[id].createdAt else 0
  }

  function DeliveredEligible(t: Tables, cutoff: Time): set<string> {
    set id | id in t.deliveries && t.deliveries[id].state.Delivered?
          && t.deliveries[id].completedAt.Some? && t.deliveries[id].completedAt.value < cutoff
  }

  function FailedEligible(t: Tables, cutoff: Time): set<string> {
    set id | id in t.deliveries
          && (t.deliveries[id].state.PermanentlyFailed? || t.deliveries[id].state.Disabled?
            || t.deliveries[id].state.Exhausted?)
          && t.deliveries[id].completedAt.Some? && t.deliveries[id].completedAt.value < cutoff
  }

  function ReceiptsEligible(rows: I.Receipts, cutoff: Time): set<I.ReceiptKey> {
    set key | key in rows && rows[key].state.Terminal() && rows[key].processedAt.Some?
      && rows[key].processedAt.value < cutoff
  }

  function OrphansEligible(t: Tables, cutoff: Time): set<string> {
    set m | m in t.messages && t.messages[m].createdAt < cutoff && !Referenced(t.deliveries, m)
  }

  /** ORDER BY completed_at, id, and alike for the other tables. */
  function DeliveryOrder(deliveries: map<string, Delivery>): (string, string) -> bool {
    (a, b) => CompletedAt(deliveries, a) < CompletedAt(deliveries, b)
           || (CompletedAt(deliveries, a) == CompletedAt(deliveries, b) && Less(a, b))
  }

  function MessageOrder(messages: map<string, Message>): (string, string) -> bool {
    (a, b) => CreatedAt(messages, a) < CreatedAt(messages, b)
           || (CreatedAt(messages, a) == CreatedAt(messages, b) && Less(a, b))
  }

  predicate KeyLess(a: I.ReceiptKey, b: I.ReceiptKey) {
    Less(a.source, b.source) || (a.source == b.source && Less(a.messageId, b.messageId))
  }

  function ReceiptOrder(rows: I.Receipts): (I.ReceiptKey, I.ReceiptKey) -> bool {
    (a, b) => ProcessedAt(rows, a) < ProcessedAt(rows, b)
           || (ProcessedAt(rows, a) == ProcessedAt(rows, b) && KeyLess(a, b))
  }

  /** Each order is by time first. */
  lemma OrdersAreByTime(deliveries: map<string, Delivery>, messages: map<string, Message>, rows: I.Receipts)
    ensures forall a, b | DeliveryOrder(deliveries)(a, b) :: CompletedAt(deliveries, a) <= CompletedAt(deliveries, b)
    ensures forall a, b | MessageOrder(messages)(a, b) :: CreatedAt(messages, a) <= CreatedAt(messages, b)
    ensures forall a, b | ReceiptOrder(rows)(a, b) :: ProcessedAt(rows, a) <= ProcessedAt(rows, b)
  {
  }

  lemma LessIsStrictOrder()
    ensures StrictOrder(Less)
  {
    forall a, b ensures !(Less(a, b) && Less(b, a)) && (a == b || Less(a, b) || Less(b, a)) {
      LessIsStrict(a, b);
      LessIsTotal(a, b);
    }
    forall a, b, c | Less(a, b) && Less(b, c) ensures Less(a, c) {
      LessIsTransitive(a, b, c);
    }
  }

  lemma DeliveryOrderIsStrict(deliveries: map<string, Delivery>)
    ensures StrictOrder(DeliveryOrder(deliveries))
  {
    LessIsStrictOrder();
    hide Less;
  }

  lemma MessageOrderIsStrict(messages: map<string, Message>)
    ensures StrictOrder(MessageOrder(messages))
  {
    LessIsStrictOrder();
    hide Less;
  }

  lemma ReceiptOrderIsStrict(rows: I.Receipts)
    ensures StrictOrder(ReceiptOrder(rows))
  {
    LessIsStrictOrder();
    hide Less;
    forall a: I.ReceiptKey, b: I.ReceiptKey, c: I.ReceiptKey
      ensures KeyLess(a, b) && KeyLess(b, c) ==> KeyLess(a, c)
      ensures !(KeyLess(a, b) && KeyLess(b, a)) && (a == b || KeyLess(a, b) || KeyLess(b, a))
    {
    }
  }

  // ----- one pass -----

  /** The rows each category of a pass takes. */
  datatype Batches = Batches(
    delivered: set<string>, failed: set<string>, receipts: set<I.ReceiptKey>, orphans: set<string>)

  datatype CleanupResult = CleanupResult(delivered: nat, failed: nat, receipts: nat, orphans: nat) {
    function Total(): nat { delivered + failed + receipts + orphans }
  }

  function DeliveriesGone(t: Tables, b: Batches): Tables {
    WithoutDeliveries(WithoutDeliveries(t, b.delivered), b.failed)
  }

  function TablesAfter(t: Tables, b: Batches): Tables {
    WithoutMessages(DeliveriesGone(t, b), b.orphans)
  }

  function Counts(b: Batches): CleanupResult {
    CleanupResult(|b.delivered|, |b.failed|, |b.receipts|, |b.orphans|)
  }

  /** One category of a pass: the oldest eligible rows when it is enabled, nothing otherwise. */
  predicate Takes<K>(enabled: bool, eligible: set<K>, before: (K, K) -> bool, n: nat, batch: set<K>) {
    if enabled then OldestBatch(eligible, before, n, batch) else batch == {}
  }

  /** `b` is what one pass under `policy` at `now` selects; each category looks at the rows the earlier ones left. */
  predicate Selects(t: Tables, rows: I.Receipts, policy: RetentionPolicy, now: Time, b: Batches)
    requires policy.batchSize >= 0
  {
    && Takes(policy.delivered > 0, DeliveredEligible(t, now - policy.delivered), DeliveryOrder(t.deliveries),
             policy.batchSize, b.delivered)
    && Takes(policy.failed > 0, FailedEligible(WithoutDeliveries(t, b.delivered), now - policy.failed),
             DeliveryOrder(WithoutDeliveries(t, b.delivered).deliveries), policy.batchSize, b.failed)
    && Takes(policy.receipts > 0, ReceiptsEligible(rows, now - policy.receipts), ReceiptOrder(rows),
             policy.batchSize, b.receipts)
    && Takes(policy.orphans > 0, OrphansEligible(DeliveriesGone(t, b), now - policy.orphans), MessageOrder(t.messages),
             policy.batchSize, b.orphans)
  }

  /** A batch that is not full leaves nothing eligible behind. */
  lemma ShortBatchTakesAll<K>(eligible: set<K>, before: (K, K) -> bool, n: nat, batch: set<K>)
    requires OldestBatch(eligible, before, n, batch) && |batch| < n
    ensures batch == eligible
  {
    SameSize(batch, eligible);
  }

  /** The delivery was finished with success, or without, before the cutoff. */
  predicate DeliveredBefore(d: Delivery, cutoff: Time) {
    d.state == Delivered && d.completedAt.Some? && d.completedAt.value < cutoff
  }
  predicate FailedBefore(d: Delivery, cutoff: Time) {
    d.state in {PermanentlyFailed, Disabled, Exhausted} && d.completedAt.Some? && d.completedAt.value < cutoff
  }
  predicate ProcessedBefore(r: I.Receipt, cutoff: Time) {
    r.state in {I.Processed, I.Failed, I.Exhausted} && r.processedAt.Some? && r.processedAt.value < cutoff
  }

  /**
   * Of the delivered rows a pass takes those completed before the cutoff, the earliest first, at most a batch, and all
   * of them when they do not fill one; with retention 0 it takes none.
   */
  lemma DeliveredGoOldestFirst(t: Tables, rows: I.Receipts, policy: RetentionPolicy, now: Time, b: Batches)
    requires policy.batchSize >= 0 && Selects(t, rows, policy, now, b)
    ensures policy.delivered <= 0 ==> b.delivered == {}
    ensures |b.delivered| <= policy.batchSize
    ensures forall id | id in b.delivered ::
      policy.delivered > 0 && id in t.deliveries && DeliveredBefore(t.deliveries[id], now - policy.delivered)
    ensures forall id, other | id in b.delivered && other in t.deliveries && other !in b.delivered
        && DeliveredBefore(t.deliveries[other], now - policy.delivered) ::
      t.deliveries[id].completedAt.value <= t.deliveries[other].completedAt.value
    ensures policy.delivered > 0 && |b.delivered| < policy.batchSize ==>
      forall other | other in t.deliveries && DeliveredBefore(t.deliveries[other], now - policy.delivered) ::
        other in b.delivered
  {
    var eligible, before := DeliveredEligible(t, now - policy.delivered), DeliveryOrder(t.deliveries);
    assert policy.delivered > 0 ==> OldestBatch(eligible, before, policy.batchSize, b.delivered);
    hide Selects;
    assert forall other | other in t.deliveries && DeliveredBefore(t.deliveries[other], now - policy.delivered) ::
      other in eligible;
    forall id, other | id in b.delivered && other in eligible && other !in b.delivered
      ensures t.deliveries[id].completedAt.value <= t.deliveries[other].completedAt.value
    {
      assert before(id, other);
      OrdersAreByTime(t.deliveries, t.messages, rows);
    }
    if policy.delivered > 0 && |b.delivered| < policy.batchSize {
      ShortBatchTakesAll(eligible, before, policy.batchSize, b.delivered);
    }
  }

  lemma FailedRows(t: Tables, b: Batches, id: string)
    requires id in t.deliveries && id !in b.delivered
    ensures id in WithoutDeliveries(t, b.delivered).deliveries
    ensures WithoutDeliveries(t, b.delivered).deliveries[id] == t.deliveries[id]
  {
  }

  /** The same for deliveries that failed, were disabled or exhausted. */
  lemma FailedGoOldestFirst(t: Tables, rows: I.Receipts, policy: RetentionPolicy, now: Time, b: Batches)
    requires policy.batchSize >= 0 && Selects(t, rows, policy, now, b)
    ensures policy.failed <= 0 ==> b.failed == {}
    ensures |b.failed| <= policy.batchSize
    ensures forall id | id in b.failed ::
      policy.failed > 0 && id in t.deliveries && FailedBefore(t.deliveries[id], now - policy.failed)
    ensures forall id, other | id in b.failed && other in t.deliveries && other !in b.failed
        && FailedBefore(t.deliveries[other], now - policy.failed) ::
      t.deliveries[id].completedAt.value <= t.deliveries[other].completedAt.value
    ensures policy.failed > 0 && |b.failed| < policy.batchSize ==>
      forall other | other in t.deliveries && FailedBefore(t.deliveries[other], now - policy.failed) ::
        other in b.failed
  {
    assert forall id | id in b.delivered :: id in t.deliveries && t.deliveries[id].state.Delivered?;
    var t', cutoff := WithoutDeliveries(t, b.delivered), now - policy.failed;
    var eligible, before := FailedEligible(t', cutoff), DeliveryOrder(t'.deliveries);
    assert policy.failed > 0 ==> OldestBatch(eligible, before, policy.batchSize, b.failed);
    hide Selects, DeliveredEligible;
    assert forall id | id in eligible :: id in t'.deliveries && FailedBefore(t'.deliveries[id], cutoff);
    forall other | other in t.deliveries && FailedBefore(t.deliveries[other], cutoff)
      ensures other in eligible && t'.deliveries[other] == t.deliveries[other]
    {
      FailedRows(t, b, other);
    }
    assert forall id | id in t'.deliveries :: t'.deliveries[id] == t.deliveries[id];
    hide WithoutDeliveries, FailedEligible;
    forall id, other | id in b.failed && other in eligible && other !in b.failed
      ensures t'.deliveries[id].completedAt.value <= t'.deliveries[other].completedAt.value
    {
      assert before(id, other);
      OrdersAreByTime(t'.deliveries, t.messages, rows);
    }
    if policy.failed > 0 && |b.failed| < policy.batchSize {
      ShortBatchTakesAll(eligible, before, policy.batchSize, b.failed);
    }
  }

  /** The same for terminal receipts. */
  lemma ReceiptsGoOldestFirst(t: Tables, rows: I.Receipts, policy: RetentionPolicy, now: Time, b: Batches)
    requires policy.batchSize >= 0 && Selects(t, rows, policy, now, b)
    ensures policy.receipts <= 0 ==> b.receipts == {}
    ensures |b.receipts| <= policy.batchSize
    ensures forall key | key in b.receipts ::
      policy.receipts > 0 && key in rows && ProcessedBefore(rows[key], now - policy.receipts)
    ensures forall key, other | key in b.receipts && other in rows && other !in b.receipts
        && ProcessedBefore(rows[other], now - policy.receipts) ::
      rows[key].processedAt.value <= rows[other].processedAt.value
    ensures policy.receipts > 0 && |b.receipts| < policy.batchSize ==>
      forall other | other in rows && ProcessedBefore(rows[other], now - policy.receipts) :: other in b.receipts
  {
    var eligible, before := ReceiptsEligible(rows, now - policy.receipts), ReceiptOrder(rows);
    assert policy.receipts > 0 ==> OldestBatch(eligible, before, policy.batchSize, b.receipts);
    hide Selects;
    assert forall other | other in rows && ProcessedBefore(rows[other], now - policy.receipts) :: other in eligible;
    forall key, other | key in b.receipts && other in eligible && other !in b.receipts
      ensures rows[key].processedAt.value <= rows[other].processedAt.value
    {
      assert before(key, other);
      OrdersAreByTime(t.deliveries, t.messages, rows);
    }
    if policy.receipts > 0 && |b.receipts| < policy.batchSize {
      ShortBatchTakesAll(eligible, before, policy.batchSize, b.receipts);
    }
  }

  /** The message is older than the cutoff, and no delivery the pass leaves refers to it. */
  predicate OrphanedBefore(t: Tables, b: Batches, m: string, cutoff: Time) {
    && m in t.messages && t.messages[m].createdAt < cutoff
    && forall id | id in t.deliveries && id !in b.delivered && id !in b.failed :: t.deliveries[id].messageId != m
  }

  lemma OrphansAreEligible(t: Tables, b: Batches, m: string, cutoff: Time)
    ensures m in OrphansEligible(DeliveriesGone(t, b), cutoff) <==> OrphanedBefore(t, b, m, cutoff)
  {
    DeliveriesGoneTogether(t, b);
    var left := t.deliveries - (b.delivered + b.failed);
    assert forall id :: id in left <==> id in t.deliveries && id !in b.delivered && id !in b.failed;
    assert Referenced(left, m) <==> exists id | id in left :: left[id].messageId == m;
  }

  /** The same for messages without deliveries. */
  lemma OrphansGoOldestFirst(t: Tables, rows: I.Receipts, policy: RetentionPolicy, now: Time, b: Batches)
    requires policy.batchSize >= 0 && Selects(t, rows, policy, now, b)
    ensures policy.orphans <= 0 ==> b.orphans == {}
    ensures |b.orphans| <= policy.batchSize
    ensures forall m | m in b.orphans :: policy.orphans > 0 && OrphanedBefore(t, b, m, now - policy.orphans)
    ensures forall m, other | m in b.orphans && other !in b.orphans
        && OrphanedBefore(t, b, other, now - policy.orphans) ::
      t.messages[m].createdAt <= t.messages[other].createdAt
    ensures policy.orphans > 0 && |b.orphans| < policy.batchSize ==>
      forall other | OrphanedBefore(t, b, other, now - policy.orphans) :: other in b.orphans
  {
    var eligible, before := OrphansEligible(DeliveriesGone(t, b), now - policy.orphans), MessageOrder(t.messages);
    assert policy.orphans > 0 ==> OldestBatch(eligible, before, policy.batchSize, b.orphans);
    hide Selects, OrphansEligible, DeliveriesGone;
    forall m ensures m in eligible <==> OrphanedBefore(t, b, m, now - policy.orphans) {
      OrphansAreEligible(t, b, m, now - policy.orphans);
    }
    forall m, other | m in b.orphans && other in eligible && other !in b.orphans
      ensures t.messages[m].createdAt <= t.messages[other].createdAt
    {
      assert before(m, other);
      OrdersAreByTime(t.deliveries, t.messages, rows);
    }
    if policy.orphans > 0 && |b.orphans| < policy.batchSize {
      ShortBatchTakesAll(eligible, before, policy.batchSize, b.orphans);
    }
  }

  lemma DeliveriesGoneTogether(t: Tables, b: Batches)
    ensures DeliveriesGone(t, b) == WithoutDeliveries(t, b.delivered + b.failed)
  {
    assert t.deliveries - b.delivered - b.failed == t.deliveries - (b.delivered + b.failed);
  }

  /** The retention of the two kinds of deliveries and of messages. */
  function KeepingOf(policy: RetentionPolicy): Keeping {
    Keeping(policy.delivered, policy.failed, policy.orphans)
  }

  /**
   * A pass is a legal removal of both protocols: terminal deliveries, then messages no delivery refers to, and terminal
   * receipts, each older than its retention.
   */
  lemma PassIsAPurge(t: Tables, rows: I.Receipts, policy: RetentionPolicy, now: Time, b: Batches)
    requires policy.batchSize >= 0 && Selects(t, rows, policy, now, b)
    ensures MayPurge(t, b.delivered + b.failed, b.orphans, now, KeepingOf(policy))
    ensures TablesAfter(t, b) == WithoutMessages(WithoutDeliveries(t, b.delivered + b.failed), b.orphans)
    ensures IR.MayPurge(rows, b.receipts, now - policy.receipts)
    ensures b.delivered !! b.failed && b.orphans <= t.messages.Keys
  {
    hide Selects, DeliveriesGone, WithoutDeliveries, WithoutMessages, MayPurge, ReceiptsEligible, OrphansEligible;
    DeliveriesGoneTogether(t, b);
    ReceiptsGoOldestFirst(t, rows, policy, now, b);
    PassPurgesRows(t, rows, policy, now, b);
  }

  lemma DeliveredMayGo(t: Tables, rows: I.Receipts, policy: RetentionPolicy, now: Time, b: Batches)
    requires policy.batchSize >= 0 && Selects(t, rows, policy, now, b)
    ensures forall id | id in b.delivered ::
      id in t.deliveries && t.deliveries[id].state.Delivered? && MayGo(t.deliveries[id], now, KeepingOf(policy))
  {
    hide Selects;
    DeliveredGoOldestFirst(t, rows, policy, now, b);
  }

  lemma FailedMayGo(t: Tables, rows: I.Receipts, policy: RetentionPolicy, now: Time, b: Batches)
    requires policy.batchSize >= 0 && Selects(t, rows, policy, now, b)
    ensures forall id | id in b.failed ::
      id in t.deliveries && !t.deliveries[id].state.Delivered? && MayGo(t.deliveries[id], now, KeepingOf(policy))
  {
    hide Selects;
    FailedGoOldestFirst(t, rows, policy, now, b);
  }

  lemma PassPurgesRows(t: Tables, rows: I.Receipts, policy: RetentionPolicy, now: Time, b: Batches)
    requires policy.batchSize >= 0 && Selects(t, rows, policy, now, b)
    ensures MayPurge(t, b.delivered + b.failed, b.orphans, now, KeepingOf(policy))
    ensures b.delivered !! b.failed && b.orphans <= t.messages.Keys
  {
    hide Selects, Referenced, MayGo;
    DeliveredMayGo(t, rows, policy, now, b);
    FailedMayGo(t, rows, policy, now, b);
    OrphansGoOldestFirst(t, rows, policy, now, b);
    forall m | m in b.orphans ensures !Referenced(t.deliveries - (b.delivered + b.failed), m) {
      OrphansAreUnreferenced(t, b, m, now - policy.orphans);
    }
  }

  lemma OrphansAreUnreferenced(t: Tables, b: Batches, m: string, cutoff: Time)
    requires OrphanedBefore(t, b, m, cutoff)
    ensures !Referenced(t.deliveries - (b.delivered + b.failed), m)
  {
  }

  /** A pass keeps the attempt ledger, its chronology, the budget and the message references. */
  lemma PassKeepsLedger(t: Tables, rows: I.Receipts, policy: RetentionPolicy, now: Time, b: Batches)
    requires policy.batchSize >= 0 && Selects(t, rows, policy, now, b) && LedgerOk(t)
    ensures LedgerOk(TablesAfter(t, b))
    ensures AllChronological(t) ==> AllChronological(TablesAfter(t, b))
    ensures forall max | AllBudgeted(t, max) :: AllBudgeted(TablesAfter(t, b), max)
    ensures TablesAfter(t, b).deliveries.Keys == t.deliveries.Keys - b.delivered - b.failed
  {
    PassIsAPurge(t, rows, policy, now, b);
    hide RowOk, Chronological, Budgeted, Selects, TablesAfter;
    RemoveDeliveriesKeepsLedger(t, b.delivered + b.failed);
    RemoveOrphansKeepsLedger(WithoutDeliveries(t, b.delivered + b.failed), b.orphans);
  }

  // ----- repeated passes -----

  ghost function Size(t: Tables, rows: I.Receipts): nat {
    |t.deliveries.Keys| + |rows.Keys| + |t.messages.Keys|
  }

  ghost predicate NothingEligible(t: Tables, rows: I.Receipts, policy: RetentionPolicy, now: Time) {
    && (policy.delivered > 0 ==> DeliveredEligible(t, now - policy.delivered) == {})
    && (policy.failed > 0 ==> FailedEligible(t, now - policy.failed) == {})
    && (policy.receipts > 0 ==> ReceiptsEligible(rows, now - policy.receipts) == {})
    && (policy.orphans > 0 ==> OrphansEligible(t, now - policy.orphans) == {})
  }

  lemma RemovalCount<K>(s: set<K>, gone: set<K>)
    requires gone <= s
    ensures |s - gone| == |s| - |gone|
  {
  }

  /** Each pass shrinks the tables by exactly what it reports. */
  lemma PassShrinks(t: Tables, rows: I.Receipts, policy: RetentionPolicy, now: Time, b: Batches)
    requires policy.batchSize >= 1 && Selects(t, rows, policy, now, b)
    ensures Size(TablesAfter(t, b), rows - b.receipts) == Size(t, rows) - Counts(b).Total()
  {
    hide Selects, TablesAfter, MayGo, Referenced;
    PassIsAPurge(t, rows, policy, now, b);
    var t' := TablesAfter(t, b);
    assert t'.deliveries.Keys == t.deliveries.Keys - (b.delivered + b.failed);
    assert (rows - b.receipts).Keys == rows.Keys - b.receipts;
    assert t'.messages.Keys == t.messages.Keys - b.orphans;
    RemovalCount(t.deliveries.Keys, b.delivered + b.failed);
    RemovalCount(rows.Keys, b.receipts);
    RemovalCount(t.messages.Keys, b.orphans);
  }

  lemma MinusNothing<K, V>(m: map<K, V>, none: set<K>)
    requires none == {}
    ensures m - none == m
  {
    assert forall k | k in m :: k in m - none;
  }

  lemma NoneRemoved(t: Tables, none: set<string>)
    requires none == {}
    ensures WithoutDeliveries(t, none) == t && WithoutMessages(t, none) == t
  {
    MinusNothing(t.deliveries, none);
    MinusNothing(t.messages, none);
    assert WithoutDeliveries(t, none).attempts == t.attempts;
  }

  lemma EmptyCategories(t: Tables, rows: I.Receipts, policy: RetentionPolicy, now: Time, b: Batches)
    requires policy.batchSize >= 1 && Selects(t, rows, policy, now, b)
    ensures b.delivered == {} <==> (policy.delivered > 0 ==> DeliveredEligible(t, now - policy.delivered) == {})
    ensures b.failed == {} <==>
      (policy.failed > 0 ==> FailedEligible(WithoutDeliveries(t, b.delivered), now - policy.failed) == {})
    ensures b.receipts == {} <==> (policy.receipts > 0 ==> ReceiptsEligible(rows, now - policy.receipts) == {})
    ensures b.orphans == {} <==>
      (policy.orphans > 0 ==> OrphansEligible(DeliveriesGone(t, b), now - policy.orphans) == {})
  {
    hide DeliveredEligible, FailedEligible, ReceiptsEligible, OrphansEligible, WithoutDeliveries, DeliveriesGone,
      DeliveryOrder, ReceiptOrder, MessageOrder;
  }

  lemma NoCountsNoBatches(b: Batches)
    ensures Counts(b).Total() == 0 <==> b == Batches({}, {}, {}, {})
  {
    assert |b.delivered| == 0 <==> b.delivered == {};
    assert |b.failed| == 0 <==> b.failed == {};
    assert |b.receipts| == 0 <==> b.receipts == {};
    assert |b.orphans| == 0 <==> b.orphans == {};
  }

  lemma EmptyBatchesMeanNothingEligible(t: Tables, rows: I.Receipts, policy: RetentionPolicy, now: Time)
    requires policy.batchSize >= 1 && Selects(t, rows, policy, now, Batches({}, {}, {}, {}))
    ensures NothingEligible(t, rows, policy, now)
  {
    EmptyCategories(t, rows, policy, now, Batches({}, {}, {}, {}));
    NoneRemoved(t, {});
    hide Selects, DeliveredEligible, FailedEligible, ReceiptsEligible, OrphansEligible, WithoutDeliveries,
      WithoutMessages;
  }

  lemma NothingEligibleMeansEmptyBatches(t: Tables, rows: I.Receipts, policy: RetentionPolicy, now: Time, b: Batches)
    requires policy.batchSize >= 1 && Selects(t, rows, policy, now, b) && NothingEligible(t, rows, policy, now)
    ensures b == Batches({}, {}, {}, {})
  {
    EmptyCategories(t, rows, policy, now, b);
    NoneRemoved(t, {});
    hide Selects, DeliveredEligible, FailedEligible, ReceiptsEligible, OrphansEligible, WithoutDeliveries,
      WithoutMessages;
    assert b.delivered == {};
    assert b.failed == {};
  }

  /** A pass reports nothing exactly when nothing was eligible. */
  lemma EmptyPassMeansNothingEligible(t: Tables, rows: I.Receipts, policy: RetentionPolicy, now: Time, b: Batches)
    requires policy.batchSize >= 1 && Selects(t, rows, policy, now, b)
    ensures Counts(b).Total() == 0 <==> NothingEligible(t, rows, policy, now)
  {
    hide Selects, NothingEligible, Counts;
    NoCountsNoBatches(b);
    if b == Batches({}, {}, {}, {}) {
      EmptyBatchesMeanNothingEligible(t, rows, policy, now);
    }
    if NothingEligible(t, rows, policy, now) {
      NothingEligibleMeansEmptyBatches(t, rows, policy, now, b);
    }
  }

  datatype State = State(tables: Tables, rows: I.Receipts)

  /** Repeated passes at one instant with nothing written in between. */
  ghost predicate Passes(states: seq<State>, batches: seq<Batches>, policy: RetentionPolicy, now: Time) {
    && policy.batchSize >= 1 && |states| == |batches| + 1
    && forall i | 0 <= i < |batches| ::
         && Selects(states[i].tables, states[i].rows, policy, now, batches[i])
         && states[i + 1] == State(TablesAfter(states[i].tables, batches[i]), states[i].rows - batches[i].receipts)
  }

  /** As many passes as there are rows, and one more, always include one that finds nothing left. */
  lemma {:induction false} PassesTerminate(
    states: seq<State>, batches: seq<Batches>, policy: RetentionPolicy, now: Time)
    requires Passes(states, batches, policy, now)
    requires |batches| > Size(states[0].tables, states[0].rows)
    ensures exists i | 0 <= i < |batches| :: NothingEligible(states[i].tables, states[i].rows, policy, now)
  {
    hide Selects, TablesAfter, NothingEligible;
    var s, b := states[0], batches[0];
    EmptyPassMeansNothingEligible(s.tables, s.rows, policy, now, b);
    if Counts(b).Total() != 0 {
      PassShrinks(s.tables, s.rows, policy, now, b);
      PassesTerminate(states[1..], batches[1..], policy, now);
      var i :| 0 <= i < |batches[1..]| && NothingEligible(states[1..][i].tables, states[1..][i].rows, policy, now);
      assert NothingEligible(states[i + 1].tables, states[i + 1].rows, policy, now);
    }
  }
}
