/**
 * The Store of postgres/store.go and postgres/cleanup.go over the rows of one schema: each method is one
 * transaction, statement by statement, working with the instant it has read. A method that returns an error has
 * rolled back, except EnqueueTxWithOptions, whose transaction is its caller's.
 */
module DurableStore {
  import opened Common
  import opened GoTime
  import opened HttpHeaders
  import opened Outbox
  import opened Ledger
  import opened PublicationProtocol
  import I = Inbox
  import R = Retention
  import S = Scheduling

  lemma {:induction false} EarliestDelivery(t: Tables, s: set<string>) returns (min: string)
    requires s != {} && s <= t.deliveries.Keys
    ensures min in s && forall x | x in s :: NotAfter(t.deliveries[min], t.deliveries[x])
  {
    min :| min in s;
    if s != {min} {
      var other := EarliestDelivery(t, s - {min});
      assert s == (s - {min}) + {min};
      if !NotAfter(t.deliveries[min], t.deliveries[other]) {
        min := other;
      }
    }
  }

  lemma {:induction false} EarliestReceipt(t: I.Receipts, s: set<I.ReceiptKey>) returns (min: I.ReceiptKey)
    requires s != {} && s <= t.Keys
    ensures min in s && forall x | x in s :: I.NotAfter(t[min], t[x])
  {
    min :| min in s;
    if s != {min} {
      var other := EarliestReceipt(t, s - {min});
      assert s == (s - {min}) + {min};
      if !I.NotAfter(t[min], t[other]) {
        min := other;
      }
    }
  }

  /** The claim query finds a row exactly when some row is claimable. */
  lemma FirstDueExists(t: Tables, now: Time)
    ensures (exists id :: FirstDue(t, id, now)) <==> exists id :: Claimable(t, id, now)
  {
    if exists id :: FirstDue(t, id, now) {
      var id :| FirstDue(t, id, now);
      assert Claimable(t, id, now);
    }
    var candidates := set id | id in t.deliveries && Claimable(t, id, now);
    if exists id :: Claimable(t, id, now) {
      var id :| Claimable(t, id, now);
      assert id in candidates;
      var first := EarliestDelivery(t, candidates);
      assert FirstDue(t, first, now);
    }
  }

  lemma FirstDueRow(t: Tables, id: string, now: Time)
    requires FirstDue(t, id, now)
    ensures Claimable(t, id, now) && id in t.deliveries && t.deliveries[id].messageId in t.messages
    ensures forall other | other in t.deliveries && Claimable(t, other, now) ::
      var d, e := t.deliveries[id], t.deliveries[other];
      d.nextAttemptAt < e.nextAttemptAt || (d.nextAttemptAt == e.nextAttemptAt && d.createdAt <= e.createdAt)
  {
  }

  lemma LookupOfTakenKey(t: Tables, r: Request)
    requires References(t) && r.keyHash.Some? && KeyTaken(t, r.keyHash.value)
    ensures Lookup(t, r).Ok? ==> Lookup(t, r).value.Some?
  {
    hide Matches, CanonicalHeaders;
  }

  /** The unique index finds a key exactly when some row holds it. */
  lemma KeyInColumn(t: Tables, r: Request)
    requires r.keyHash.Some?
    ensures KeyTaken(t, r.keyHash.value) <==> exists id | id in t.deliveries :: t.deliveries[id].keyHash == r.keyHash
  {
    assert forall id | id in t.deliveries :: HasKey(t, id, r.keyHash.value) == (t.deliveries[id].keyHash == r.keyHash);
  }

  lemma NextNumberIsFree(t: Tables, id: string)
    requires LedgerOk(t) && id in t.deliveries
    ensures Key(id, t.deliveries[id].attemptCount + 1) !in t.attempts
  {
    assert RowOk(t, id);
  }

  class Store {
    var messages: map<string, Message>
    var deliveries: map<string, Delivery>
    var attempts: map<AttemptKey, Attempt>
    var receipts: I.Receipts

    constructor ()
      ensures Rows() == Tables(map[], map[], map[]) && receipts == map[]
    {
      messages, deliveries, attempts, receipts := map[], map[], map[], map[];
    }

    function Rows(): Tables
      reads this
    {
      Tables(messages, deliveries, attempts)
    }

    // ----- deliveries -----

    /** `attemptId` is the random id drawn for the attempt. */
    method ClaimDelivery(now: Time, lease: Duration, attemptId: string) returns (r: Result<Option<Claim>>)
      modifies this
      ensures receipts == old(receipts)
      ensures r == Common.Ok(None) <==> forall id :: !Claimable(old(Rows()), id, now)
      ensures r.Ok? && r.value.Some? ==>
        var id := r.value.value.deliveryId;
        && FirstDue(old(Rows()), id, now)
        && r.value == Some(ClaimFor(old(Rows()), id, now, attemptId))
        && Rows() == AfterClaim(old(Rows()), id, now, lease, attemptId)
      ensures r.Ok? && r.value.Some? ==>
        var c, d := r.value.value, old(deliveries)[r.value.value.deliveryId];
        && c.attemptId == attemptId && c.startedAt == now && c.attempt == d.attemptCount + 1
        && c.messageId == d.messageId && c.destination == d.destination && c.headers == d.headers
        && c.message == old(messages)[d.messageId]
        && forall other | other in old(deliveries) && Claimable(old(Rows()), other, now) ::
             var e := old(deliveries)[other];
             d.nextAttemptAt < e.nextAttemptAt || (d.nextAttemptAt == e.nextAttemptAt && d.createdAt <= e.createdAt)
      ensures !(r.Ok? && r.value.Some?) ==> Rows() == old(Rows())
      ensures LedgerOk(old(Rows())) ==> r.Ok?
    {
      hide RowOk, LedgerOk, FirstDue, Claimable;
      var effective := lease;
      if effective <= 0 {
        effective := MINUTE;
      }
      ghost var before := Rows();
      FirstDueExists(before, now);
      if forall id | id in deliveries :: !FirstDue(Rows(), id, now) {
        forall id | FirstDue(before, id, now) ensures id in deliveries {
          FirstDueRow(before, id, now);
        }
        return Common.Ok(None);
      }
      var id :| id in deliveries && FirstDue(Rows(), id, now);
      assert FirstDue(before, id, now);
      FirstDueRow(before, id, now);
      var d := deliveries[id];
      var previousState, previousAttempt := d.state, d.attemptCount;
      var claimed := Claim(
        id, attemptId, previousAttempt + 1, now, d.messageId, d.destination, messages[d.messageId], d.headers);
      var savedDeliveries, savedAttempts := deliveries, attempts;
      if previousState.InFlight? && previousAttempt > 0 {
        var abandoned := Key(id, previousAttempt);
        if abandoned in attempts && attempts[abandoned].finishedAt.None? {
          attempts := attempts[abandoned := LostAttempt(attempts[abandoned], now)];
        }
      }
      deliveries := deliveries[id := d.(state := InFlight, attemptCount := claimed.attempt,
                                        leaseExpiresAt := Some(now + effective), updatedAt := now)];
      if Key(id, claimed.attempt) in attempts {
        // UNIQUE (delivery_id, attempt_number): the failed statement aborts the transaction
        if LedgerOk(before) {
          NextNumberIsFree(before, id);
        }
        deliveries, attempts := savedDeliveries, savedAttempts;
        return Err(Persistence);
      }
      attempts := attempts[Key(id, claimed.attempt) := StartedAttempt(attemptId, now)];
      return Common.Ok(Some(claimed));
    }

    method RenewDeliveryLease(claimed: Claim, now: Time, lease: Duration, databaseClock: bool) returns (r: Result<()>)
      modifies this
      ensures receipts == old(receipts)
      ensures lease <= 0 ==> r == Err(InvalidConfiguration) && Rows() == old(Rows())
      ensures lease > 0 ==>
        && (r.Ok? <==> MayRenew(old(Rows()), claimed, now))
        && (r.Err? ==> r.code == Conflict)
        && Rows() == AfterRenew(old(Rows()), claimed, now, RenewedUntil(now, lease, databaseClock))
    {
      if lease <= 0 {
        return Err(InvalidConfiguration);
      }
      var until := if databaseClock then now + MicrosecondsCeil(lease) * 1000 else now + lease;
      if claimed.deliveryId !in deliveries {
        return Err(Conflict);
      }
      var d := deliveries[claimed.deliveryId];
      var key := Key(claimed.deliveryId, d.attemptCount);
      var live := d.state.InFlight? && d.attemptCount == claimed.attempt
        && d.leaseExpiresAt.Some? && d.leaseExpiresAt.value > now
        && key in attempts && attempts[key].id == claimed.attemptId && attempts[key].finishedAt.None?;
      if !live {
        return Err(Conflict);
      }
      deliveries := deliveries[claimed.deliveryId := d.(leaseExpiresAt := Some(until), updatedAt := now)];
      return Common.Ok(());
    }

    /** In a sound ledger the first guard decides: the second conflict and its rollback never happen. */
    method CompleteDelivery(claimed: Claim, now: Time, report: Report) returns (r: Result<()>)
      modifies this
      ensures receipts == old(receipts)
      ensures r.Ok? <==> OwnsAttempt(old(Rows()), claimed) && StillLeased(old(Rows()), claimed)
      ensures r.Err? ==> r.code == Conflict
      ensures Rows() == AfterComplete(old(Rows()), claimed, now, report)
      ensures LedgerOk(old(Rows())) ==> (r.Ok? <==> OwnsAttempt(old(Rows()), claimed))
    {
      hide RowOk, LedgerOk, Transition, NormalizedOutcome;
      if LedgerOk(Rows()) {
        OwnerHoldsLease(Rows(), claimed);
      }
      var outcome := NormalizedOutcome(report.outcome, report.sendErr);
      var errorCode := report.errorCode;
      if errorCode.None? && report.sendErr.Some? {
        errorCode := report.sendErr;
      }
      var (state, next) := Transition(now, claimed.attempt, report);
      var savedAttempts := attempts;
      var key := Key(claimed.deliveryId, claimed.attempt);
      if key !in attempts || attempts[key].id != claimed.attemptId || attempts[key].finishedAt.Some? {
        return Err(Conflict);
      }
      attempts := attempts[key := attempts[key].(
        finishedAt := Some(now), outcome := Some(outcome), statusCode := report.statusCode,
        durationNs := Some(report.duration), errorCode := errorCode, nextAttemptAt := next)];
      var completedAt: Option<Time> := None;
      if state.Delivered? || state.PermanentlyFailed? || state.Disabled? || state.Exhausted? {
        completedAt := Some(now);
      }
      if claimed.deliveryId !in deliveries || !deliveries[claimed.deliveryId].state.InFlight?
        || deliveries[claimed.deliveryId].attemptCount != claimed.attempt
      {
        attempts := savedAttempts;
        return Err(Conflict);
      }
      var d := deliveries[claimed.deliveryId];
      deliveries := deliveries[claimed.deliveryId := d.(
        state := state, nextAttemptAt := if next.Some? then next.value else d.nextAttemptAt, leaseExpiresAt := None,
        lastStatusCode := report.statusCode, lastErrorCode := errorCode, updatedAt := now, completedAt := completedAt)];
      return Common.Ok(());
    }

    // ----- publication -----

    method FindIdempotentPublication(request: Request) returns (r: Result<Option<Publication>>)
      requires References(Rows()) && KeysUnique(Rows())
      ensures r == Lookup(Rows(), request)
    {
      if request.keyHash.None? {
        return Common.Ok(None);
      }
      var hash := request.keyHash.value;
      var found := set id | id in deliveries && HasKey(Rows(), id, hash);
      if found == {} {
        assert forall id | id in deliveries && HasKey(Rows(), id, hash) :: id in found;
        return Common.Ok(None);
      }
      var id :| id in found;
      LookupOfKey(Rows(), request, id);
      var d, m := deliveries[id], messages[deliveries[id].messageId];
      var stored := Canonicalize(d.headers);
      var given := Canonicalize(request.headers);
      var matches := m.eventType == request.eventType && m.body == request.body && m.contentType == request.contentType
        && d.destination == request.url && stored == given;
      if request.explicitId.Some? {
        matches := matches && d.messageId == request.explicitId.value;
      }
      if !matches {
        return Err(Conflict);
      }
      return Common.Ok(Some(Publication(d.messageId, id)));
    }

    /**
     * The end of an enqueue whose delivery met the key of another: the winner is looked up; when its content is
     * another one the conflict is returned at once, otherwise the message inserted for the loser is deleted again.
     * `before` is the state at the start of the transaction.
     */
    method YieldToWinner(request: Request, messageId: string, messageInserted: bool, now: Time, ghost before: Tables)
      returns (r: Result<Publication>)
      requires LedgerOk(before) && request.keyHash.Some? && KeyTaken(before, request.keyHash.value)
      requires deliveries == before.deliveries && attempts == before.attempts
      requires messageInserted <==> messageId !in before.messages
      requires messages == if messageInserted then AfterMessage(before, request, messageId, now).messages
        else before.messages
      modifies this
      ensures receipts == old(receipts)
      ensures Lookup(before, request).Err? ==>
        && r == Err(Lookup(before, request).code)
        && Rows() == if messageInserted then AfterMessage(before, request, messageId, now) else before
      ensures Lookup(before, request).Ok? ==> r == Common.Ok(Lookup(before, request).value.value) && Rows() == before
    {
      hide RowOk, Matches, CanonicalHeaders;
      LookupIgnoresNewMessage(before, Rows(), request);
      LookupOfTakenKey(before, request);
      hide Lookup;
      var found := FindIdempotentPublication(request);
      if found.Err? {
        return Err(found.code);
      }
      if messageInserted {
        if forall id | id in deliveries :: deliveries[id].messageId != messageId {
          messages := messages - {messageId};
        } else {
          assert false;
        }
        assert messages == before.messages;
      }
      return Common.Ok(found.value.value);
    }

    /** The insert of the delivery, once the message is in place; `before` is as above. */
    method InsertDelivery(
      request: Request, generated: string, messageId: string, messageInserted: bool, deliveryId: string, now: Time,
      ghost before: Tables) returns (r: Result<Publication>)
      requires LedgerOk(before) && messageId == MessageIdFor(request, generated)
      requires deliveries == before.deliveries && attempts == before.attempts
      requires messageInserted <==> messageId !in before.messages
      requires messages == if messageInserted then AfterMessage(before, request, messageId, now).messages
        else before.messages
      requires !messageInserted ==> SameContent(messages[messageId], request)
      modifies this
      ensures receipts == old(receipts)
      ensures (r, Rows()) == InsertPhase(before, request, generated, deliveryId, now)
    {
      hide RowOk, CanonicalHeaders, Matches, Lookup, ReadBackHeaders, KeysUnique, MessageIdFor;
      var keyTaken := request.keyHash.Some? && exists id | id in deliveries ::
        deliveries[id].keyHash == request.keyHash;
      if request.keyHash.Some? {
        KeyInColumn(before, request);
      }
      hide KeyTaken;
      if keyTaken {
        r := YieldToWinner(request, messageId, messageInserted, now, before);
        LookupOfTakenKey(before, request);
        return;
      }
      if deliveryId in deliveries {
        // PRIMARY KEY (id): the failed statement aborts the transaction
        if messageInserted {
          messages := messages - {messageId};
          assert messages == before.messages;
        }
        return Err(Persistence);
      }
      deliveries := deliveries[deliveryId := NewDelivery(request, messageId, now)];
      return Common.Ok(Publication(messageId, deliveryId));
    }

    /** The part of EnqueueTxWithOptions after a lookup that found nothing. */
    method InsertPublication(request: Request, generated: string, deliveryId: string, now: Time)
      returns (r: Result<Publication>)
      requires LedgerOk(Rows())
      modifies this
      ensures receipts == old(receipts)
      ensures (r, Rows()) == InsertPhase(old(Rows()), request, generated, deliveryId, now)
    {
      hide RowOk, CanonicalHeaders, Matches, Lookup;
      ghost var before := Rows();
      var messageId := generated;
      if request.explicitId.Some? {
        messageId := request.explicitId.value;
      }
      var messageInserted := messageId !in messages;
      if messageInserted {
        messages := messages[messageId := NewMessage(request, now)];
      } else {
        var m := messages[messageId];
        if m.eventType != request.eventType || m.contentType != request.contentType || m.body != request.body {
          return Err(Conflict);
        }
      }
      r := InsertDelivery(request, generated, messageId, messageInserted, deliveryId, now, before);
    }

    /**
     * EnqueueTxWithOptions in a caller's transaction, when no other transaction commits between its lookup and its
     * inserts. The rows are those the caller would commit.
     */
    method EnqueueTxWithOptions(request: Request, generated: string, deliveryId: string, now: Time)
      returns (r: Result<Publication>)
      requires LedgerOk(Rows())
      modifies this
      ensures receipts == old(receipts)
      ensures (r, Rows()) == Call(old(Rows()), old(Rows()), request, generated, deliveryId, now)
    {
      hide RowOk, Matches, CanonicalHeaders, Lookup, InsertPhase;
      var found := FindIdempotentPublication(request);
      if found.Err? {
        return Err(found.code);
      }
      if found.value.Some? {
        return Common.Ok(found.value.value);
      }
      r := InsertPublication(request, generated, deliveryId, now);
    }

    /** EnqueueWithOptions: the same in a transaction of its own, rolled back on every error. */
    method EnqueueWithOptions(request: Request, generated: string, deliveryId: string, now: Time)
      returns (r: Result<Publication>)
      requires LedgerOk(Rows())
      modifies this
      ensures receipts == old(receipts)
      ensures (r, Rows())
        == OwnTransaction(old(Rows()), Call(old(Rows()), old(Rows()), request, generated, deliveryId, now))
    {
      hide RowOk, Call;
      var savedMessages, savedDeliveries, savedAttempts := messages, deliveries, attempts;
      r := EnqueueTxWithOptions(request, generated, deliveryId, now);
      if r.Err? {
        messages, deliveries, attempts := savedMessages, savedDeliveries, savedAttempts;
      }
    }

    // ----- receipts -----

    /** The first statement of Handle, which commits on its own. */
    method InsertReceipt(key: I.ReceiptKey, content: I.Content, now: Time) returns (inserted: bool)
      modifies this
      ensures Rows() == old(Rows())
      ensures receipts == I.AfterReceive(old(receipts), key, content, now)
      ensures inserted <==> key !in old(receipts)
    {
      inserted := key !in receipts;
      if inserted {
        receipts := receipts[key := I.NewReceipt(content, now)];
      }
    }

    /** The second statement of Handle, run when the first met a row, which Cleanup may have removed in between. */
    method CompareReceipt(key: I.ReceiptKey, content: I.Content) returns (r: Result<()>)
      ensures key !in receipts ==> r == Err(Persistence)
      ensures key in receipts ==>
        r == if I.SameImmutable(receipts[key].content, content) then Common.Ok(()) else Err(Conflict)
      ensures r == I.DuplicateVerdict(receipts, key, content)
    {
      if key !in receipts {
        return Err(Persistence);
      }
      var stored := receipts[key].content;
      if stored.eventType != content.eventType || stored.contentType != content.contentType
        || stored.body != content.body
      {
        return Err(Conflict);
      }
      return Common.Ok(());
    }

    /** Handle when nothing happens between its two statements. */
    method Handle(key: I.ReceiptKey, content: I.Content, now: Time) returns (r: Result<()>)
      modifies this
      ensures Rows() == old(Rows())
      ensures receipts == I.AfterReceive(old(receipts), key, content, now)
      ensures r.Ok? <==> key !in old(receipts) || I.SameImmutable(old(receipts)[key].content, content)
      ensures r.Err? ==> r.code == Conflict
    {
      var inserted := InsertReceipt(key, content, now);
      if inserted {
        return Common.Ok(());
      }
      r := CompareReceipt(key, content);
    }

    method ClaimReceipt(now: Time, lease: Duration) returns (r: Option<I.ReceiptClaim>)
      modifies this
      ensures Rows() == old(Rows())
      ensures r.None? <==> forall key | key in old(receipts) :: !I.Due(old(receipts)[key], now)
      ensures r.None? ==> receipts == old(receipts)
      ensures r.Some? ==>
        && I.FirstDue(old(receipts), r.value.key, now)
        && r.value == I.ClaimFor(old(receipts), r.value.key, now)
        && r.value.content == old(receipts)[r.value.key].content
        && r.value.attempt == old(receipts)[r.value.key].attemptCount + 1 && r.value.startedAt == now
        && (forall other | other in old(receipts) && I.Due(old(receipts)[other], now) ::
              var d, e := old(receipts)[r.value.key], old(receipts)[other];
              d.nextAttemptAt < e.nextAttemptAt || (d.nextAttemptAt == e.nextAttemptAt && d.receivedAt <= e.receivedAt))
        && receipts == I.AfterClaim(old(receipts), r.value.key, now, lease)
    {
      var effective := lease;
      if effective <= 0 {
        effective := MINUTE;
      }
      var candidates := set key | key in receipts && I.Due(receipts[key], now);
      if candidates == {} {
        assert forall key | key in receipts && I.Due(receipts[key], now) :: key in candidates;
        return None;
      }
      ghost var earliest := EarliestReceipt(receipts, candidates);
      assert I.FirstDue(receipts, earliest, now);
      var key :| key in receipts && I.FirstDue(receipts, key, now);
      assert I.FirstDue(receipts, key, now);
      var row := receipts[key];
      var claimed := I.ReceiptClaim(key, row.content, row.attemptCount + 1, now);
      receipts := receipts[key := row.(state := I.Processing, attemptCount := claimed.attempt,
                                       leaseExpiresAt := Some(now + effective), updatedAt := now)];
      return Some(claimed);
    }

    method RenewReceiptLease(claimed: I.ReceiptClaim, now: Time, lease: Duration, databaseClock: bool)
      returns (r: Result<()>)
      modifies this
      ensures Rows() == old(Rows())
      ensures lease <= 0 ==> r == Err(InvalidConfiguration) && receipts == old(receipts)
      ensures lease > 0 ==>
        && (r.Ok? <==> I.MayRenew(old(receipts), claimed, now))
        && (r.Err? ==> r.code == Conflict)
        && receipts == I.AfterRenew(old(receipts), claimed, now, RenewedUntil(now, lease, databaseClock))
    {
      if lease <= 0 {
        return Err(InvalidConfiguration);
      }
      var until := if databaseClock then now + MicrosecondsCeil(lease) * 1000 else now + lease;
      if claimed.key !in receipts || !receipts[claimed.key].state.Processing?
        || receipts[claimed.key].attemptCount != claimed.attempt
        || receipts[claimed.key].leaseExpiresAt.None? || receipts[claimed.key].leaseExpiresAt.value <= now
      {
        return Err(Conflict);
      }
      receipts := receipts[claimed.key := receipts[claimed.key].(leaseExpiresAt := Some(until), updatedAt := now)];
      return Common.Ok(());
    }

    method CompleteReceipt(
      claimed: I.ReceiptClaim, now: Time, handlerErr: Option<Code>, policy: S.RetryPolicy, drawn: Duration)
      returns (r: Result<()>)
      modifies this
      ensures Rows() == old(Rows())
      ensures r.Ok? <==> I.Answers(old(receipts), claimed)
      ensures r.Err? ==> r.code == Conflict
      ensures receipts == I.AfterComplete(old(receipts), claimed, now, handlerErr, policy, drawn)
    {
      var (state, next) := I.Transition(now, claimed.attempt, handlerErr, policy, drawn);
      var processedAt: Option<Time> := None;
      if state.Processed? || state.Failed? || state.Exhausted? {
        processedAt := Some(now);
      }
      if claimed.key !in receipts || !receipts[claimed.key].state.Processing?
        || receipts[claimed.key].attemptCount != claimed.attempt
      {
        return Err(Conflict);
      }
      var row := receipts[claimed.key];
      receipts := receipts[claimed.key := row.(
        state := state, nextAttemptAt := if next.Some? then next.value else row.nextAttemptAt, leaseExpiresAt := None,
        lastErrorCode := handlerErr, processedAt := processedAt, updatedAt := now)];
      return Common.Ok(());
    }

    // ----- retention -----

    /** One DELETE of terminal deliveries with its cascade; returns the number of rows. */
    method DeleteDeliveries(eligible: set<string>, batchSize: nat) returns (count: nat, ghost batch: set<string>)
      modifies this
      ensures receipts == old(receipts)
      ensures R.OldestBatch(eligible, R.DeliveryOrder(old(deliveries)), batchSize, batch)
      ensures count == |batch| && Rows() == WithoutDeliveries(old(Rows()), batch)
    {
      R.DeliveryOrderIsStrict(deliveries);
      ghost var some := R.OldestBatchExists(eligible, R.DeliveryOrder(deliveries), batchSize);
      var gone :| gone <= eligible && R.OldestBatch(eligible, R.DeliveryOrder(deliveries), batchSize, gone);
      deliveries := deliveries - gone;
      attempts := map key | key in attempts && key.delivery !in gone :: attempts[key];
      count, batch := |gone|, gone;
    }

    method DeleteReceipts(eligible: set<I.ReceiptKey>, batchSize: nat)
      returns (count: nat, ghost batch: set<I.ReceiptKey>)
      modifies this
      ensures Rows() == old(Rows())
      ensures R.OldestBatch(eligible, R.ReceiptOrder(old(receipts)), batchSize, batch)
      ensures count == |batch| && receipts == old(receipts) - batch
    {
      R.ReceiptOrderIsStrict(receipts);
      ghost var some := R.OldestBatchExists(eligible, R.ReceiptOrder(receipts), batchSize);
      var gone :| gone <= eligible && R.OldestBatch(eligible, R.ReceiptOrder(receipts), batchSize, gone);
      receipts := receipts - gone;
      count, batch := |gone|, gone;
    }

    method DeleteMessages(eligible: set<string>, batchSize: nat) returns (count: nat, ghost batch: set<string>)
      modifies this
      ensures receipts == old(receipts)
      ensures R.OldestBatch(eligible, R.MessageOrder(old(messages)), batchSize, batch)
      ensures count == |batch| && Rows() == WithoutMessages(old(Rows()), batch)
    {
      R.MessageOrderIsStrict(messages);
      ghost var some := R.OldestBatchExists(eligible, R.MessageOrder(messages), batchSize);
      var gone :| gone <= eligible && R.OldestBatch(eligible, R.MessageOrder(messages), batchSize, gone);
      messages := messages - gone;
      count, batch := |gone|, gone;
    }

    /** Cleanup: at most one batch per enabled category, in one transaction. */
    method Cleanup(requested: R.RetentionPolicy, now: Time) returns (r: Result<R.CleanupResult>, ghost b: R.Batches)
      modifies this
      ensures r.Err? ==> r.code == InvalidConfiguration && Rows() == old(Rows()) && receipts == old(receipts)
      ensures r.Ok? <==>
        && requested.delivered >= 0 && requested.failed >= 0 && requested.receipts >= 0 && requested.orphans >= 0
        && 0 <= requested.batchSize <= R.MAXIMUM_BATCH
      ensures r.Ok? ==>
        var policy := requested.(
          batchSize := if requested.batchSize == 0 then R.DEFAULT_BATCH else requested.batchSize);
        && R.Selects(old(Rows()), old(receipts), policy, now, b)
        && r.value == R.Counts(b)
        && Rows() == R.TablesAfter(old(Rows()), b)
        && receipts == old(receipts) - b.receipts
    {
      hide R.OldestBatch, R.DeliveryOrder, R.ReceiptOrder, R.MessageOrder, R.DeliveredEligible, R.FailedEligible,
        R.ReceiptsEligible, R.OrphansEligible, WithoutDeliveries, WithoutMessages;
      b := R.Batches({}, {}, {}, {});
      var normalized := R.NormalizePolicy(requested);
      if normalized.Err? {
        return Err(normalized.code), b;
      }
      var policy := normalized.value;
      ghost var t, rows := Rows(), receipts;
      R.NoneRemoved(t, {});
      R.MinusNothing(rows, {});
      if policy.delivered == 0 && policy.failed == 0 && policy.receipts == 0 && policy.orphans == 0 {
        return Common.Ok(R.CleanupResult(0, 0, 0, 0)), b;
      }
      var delivered, failed, received, orphans := 0, 0, 0, 0;
      ghost var goneDelivered: set<string>, goneFailed: set<string> := {}, {};
      ghost var goneReceipts: set<I.ReceiptKey>, goneOrphans: set<string> := {}, {};
      if policy.delivered > 0 {
        var eligible := R.DeliveredEligible(Rows(), now - policy.delivered);
        delivered, goneDelivered := DeleteDeliveries(eligible, policy.batchSize);
      }
      ghost var t1 := Rows();
      R.NoneRemoved(t1, {});
      if policy.failed > 0 {
        failed, goneFailed := DeleteDeliveries(R.FailedEligible(Rows(), now - policy.failed), policy.batchSize);
      }
      ghost var t2 := Rows();
      R.NoneRemoved(t2, {});
      if policy.receipts > 0 {
        received, goneReceipts := DeleteReceipts(R.ReceiptsEligible(receipts, now - policy.receipts), policy.batchSize);
      }
      if policy.orphans > 0 {
        orphans, goneOrphans := DeleteMessages(R.OrphansEligible(Rows(), now - policy.orphans), policy.batchSize);
      }
      b := R.Batches(goneDelivered, goneFailed, goneReceipts, goneOrphans);
      DeletesKeepMessages(t, goneDelivered);
      DeletesKeepMessages(t1, goneFailed);
      return Common.Ok(R.CleanupResult(delivered, failed, received, orphans)), b;
    }
  }

  lemma DeletesKeepMessages(t: Tables, gone: set<string>)
    ensures WithoutDeliveries(t, gone).messages == t.messages
  {
  }

  /** A message nobody refers to yet does not take part in lookups. */
  lemma LookupIgnoresNewMessage(t: Tables, t': Tables, r: Request)
    requires References(t) && KeysUnique(t) && References(t') && t'.deliveries == t.deliveries
    requires forall m | m in t.messages :: m in t'.messages && t'.messages[m] == t.messages[m]
    ensures Lookup(t', r) == Lookup(t, r)
  {
    if r.keyHash.Some? && KeyTaken(t, r.keyHash.value) {
      var id :| id in t.deliveries && HasKey(t, id, r.keyHash.value);
      assert HasKey(t', id, r.keyHash.value);
      assert KeysUnique(t');
      LookupOfKey(t, r, id);
      LookupOfKey(t', r, id);
    } else {
      assert forall id | id in t.deliveries && r.keyHash.Some? ::
        HasKey(t', id, r.keyHash.value) == HasKey(t, id, r.keyHash.value);
    }
  }
}
