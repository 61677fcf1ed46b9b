/**
 * Idempotent publication: EnqueueTxWithOptions of postgres/store.go reads the key in one step and inserts in a
 * later one, so other publishers may commit in between.
 */
module PublicationProtocol {
  import opened Common
  import opened GoTime
  import opened Text
  import opened HttpHeaders
  import opened Outbox
  import opened Ledger
  import opened OutboxRuns
  import Utf8

  // ----- the two phases of a call -----

  /** The publication stored in row `id`. */
  function PublicationOf(t: Tables, id: string): Publication
    requires id in t.deliveries
  {
    Publication(t.deliveries[id].messageId, id)
  }

  /** findIdempotentPublication: nothing found, the stored ids, or a conflict. */
  ghost function Lookup(t: Tables, r: Request): Result<Option<Publication>>
    requires References(t)
  {
    if r.keyHash.Some? && KeyTaken(t, r.keyHash.value) then
      var id :| id in t.deliveries && HasKey(t, id, r.keyHash.value);
      if Matches(t, id, r) then Ok(Some(PublicationOf(t, id))) else Err(Conflict)
    else Ok(None)
  }

  function MessageIdFor(r: Request, generated: string): string {
    if r.explicitId.Some? then r.explicitId.value else generated
  }

  /**
   * The inserts after a lookup that found nothing, with the rows as they are when the call returns. A key met on the
   * way is looked up again; a conflict is returned before the message inserted a moment ago is removed.
   */
  ghost function InsertPhase(t: Tables, r: Request, generated: string, deliveryId: string, now: Time)
    : (Result<Publication>, Tables)
    requires References(t)
  {
    var messageId := MessageIdFor(r, generated);
    if messageId in t.messages && !SameContent(t.messages[messageId], r) then (Err(Conflict), t)
    else if r.keyHash.Some? && KeyTaken(t, r.keyHash.value) then
      match Lookup(t, r)
      case Ok(found) => (Ok(found.value), t)
      case Err(code) =>
        (Err(code), if messageId in t.messages then t else AfterMessage(t, r, messageId, now))
    else if deliveryId in t.deliveries then (Err(Persistence), t)
    else (Ok(Publication(messageId, deliveryId)), AfterInsert(t, r, messageId, deliveryId, now))
  }

  /** A whole call of EnqueueTxWithOptions: its lookup sees `t1`, its inserts run on `t2`. */
  ghost function Call(t1: Tables, t2: Tables, r: Request, generated: string, deliveryId: string, now: Time)
    : (Result<Publication>, Tables)
    requires References(t1) && References(t2)
  {
    match Lookup(t1, r)
    case Err(code) => (Err(code), t2)
    case Ok(Some(p)) => (Ok(p), t2)
    case Ok(None) => InsertPhase(t2, r, generated, deliveryId, now)
  }

  /** EnqueueWithOptions commits the transaction of a call that succeeded and rolls back any other. */
  function OwnTransaction(t: Tables, outcome: (Result<Publication>, Tables)): (Result<Publication>, Tables) {
    (outcome.0, if outcome.0.Ok? then outcome.1 else t)
  }

  lemma LookupOfKey(t: Tables, r: Request, id: string)
    requires References(t) && KeysUnique(t) && r.keyHash.Some? && HasKey(t, id, r.keyHash.value)
    ensures Lookup(t, r) == if Matches(t, id, r) then Ok(Some(PublicationOf(t, id))) else Err(Conflict)
  {
    var found :| found in t.deliveries && HasKey(t, found, r.keyHash.value)
      && Lookup(t, r) == if Matches(t, found, r) then Ok(Some(PublicationOf(t, found))) else Err(Conflict);
    assert HasKey(t, found, r.keyHash.value);
    assert t.deliveries[found].keyHash == Some(r.keyHash.value);
    assert t.deliveries[id].keyHash == Some(r.keyHash.value);
  }

  /**
   * The inserts change the rows in two ways only: as the protocol's Insert step when nothing conflicts, and as its
   * Strand step, if the caller commits, when the key belongs to other content and the message was inserted.
   */
  lemma InsertPhaseIsAStep(t: Tables, r: Request, generated: string, deliveryId: string, now: Time)
    requires References(t) && KeysUnique(t)
    ensures
      var (result, t') := InsertPhase(t, r, generated, deliveryId, now);
      var messageId := MessageIdFor(r, generated);
      if InsertAllowed(t, r, messageId, deliveryId)
      then result == Ok(Publication(messageId, deliveryId)) && t' == AfterInsert(t, r, messageId, deliveryId, now)
      else if Contradicted(t, r) && messageId !in t.messages
      then result == Err(Conflict) && t' == AfterMessage(t, r, messageId, now)
      else t' == t
  {
    hide Lookup, Matches;
    if r.keyHash.Some? && KeyTaken(t, r.keyHash.value) {
      var id :| id in t.deliveries && HasKey(t, id, r.keyHash.value);
      LookupOfKey(t, r, id);
      forall other | other in t.deliveries && HasKey(t, other, r.keyHash.value) ensures other == id {
        assert t.deliveries[other].keyHash == t.deliveries[id].keyHash;
      }
    }
  }

  /**
   * A loser leaves no trace: when the key is taken by the time of the inserts, the call returns the winner's ids or a
   * conflict, whichever the content calls for, and leaves the rows as they were, except that after a conflict the
   * message it inserted is there until the transaction is rolled back. EnqueueWithOptions does roll it back.
   */
  lemma LoserLeavesNoTrace(t: Tables, r: Request, generated: string, deliveryId: string, now: Time, winner: string)
    requires LedgerOk(t) && r.keyHash.Some? && HasKey(t, winner, r.keyHash.value)
    requires r.explicitId.None? ==> generated !in t.messages
    ensures
      var outcome, messageId := InsertPhase(t, r, generated, deliveryId, now), MessageIdFor(r, generated);
      && outcome.0 == (if Matches(t, winner, r) then Ok(PublicationOf(t, winner)) else Err(Conflict))
      && outcome.1 == (if !Matches(t, winner, r) && messageId !in t.messages
                       then AfterMessage(t, r, messageId, now) else t)
      && OwnTransaction(t, outcome) == (outcome.0, t)
  {
    LookupOfKey(t, r, winner);
    hide RowOk, Lookup;
  }

  /**
   * The exception happens after every keyed publication: a request with the same key and one more byte in its body,
   * whose lookup ran before, is a conflict, and its message is in the table without a delivery when the call returns.
   */
  lemma StrandedMessageExample(first: Request, now: Time)
    requires first.keyHash.Some?
    ensures
      var t := AfterInsert(EMPTY.tables, first, "m0", "d0", now);
      var (result, t') := InsertPhase(t, first.(explicitId := None, body := first.body + [0]), "m1", "d1", now);
      && LedgerOk(t) && result == Err(Conflict)
      && "m1" !in t.messages && "m1" in t'.messages && !Referenced(t'.deliveries, "m1")
  {
    var t := AfterInsert(EMPTY.tables, first, "m0", "d0", now);
    var second := first.(explicitId := None, body := first.body + [0]);
    EmptyInv();
    InsertIsOk(EMPTY.tables, first, "m0", "d0", now);
    assert HasKey(t, "d0", first.keyHash.value);
    assert second.body != t.messages["m0"].body;
    hide CanonicalHeaders, ReadBackHeaders, InsertPhase, RowOk, KeysUnique;
    LoserLeavesNoTrace(t, second, "m1", "d1", now, "d0");
  }

  // ----- retained publications never change -----

  /** What a publication consists of is the same in both states. */
  ghost predicate Retained(t: Tables, t': Tables, id: string) {
    && id in t.deliveries && id in t'.deliveries
    && SameIdentity(t.deliveries[id], t'.deliveries[id])
    && t.deliveries[id].messageId in t.messages && t.deliveries[id].messageId in t'.messages
    && t.messages[t.deliveries[id].messageId] == t'.messages[t.deliveries[id].messageId]
  }

  lemma TouchRetains(t: Tables, t': Tables, touched: string, id: string)
    requires References(t) && TouchesOnly(t, t', touched) && id in t.deliveries
    ensures Retained(t, t', id)
  {
    if id != touched {
      assert SameRow(t, t', id);
    }
  }

  lemma PurgeRetains(
    t: Tables, deliveries: set<string>, messages: set<string>, now: Time, keeping: Keeping, id: string)
    requires References(t) && MayPurge(t, deliveries, messages, now, keeping) && id in t.deliveries && id !in deliveries
    ensures Retained(t, WithoutMessages(WithoutDeliveries(t, deliveries), messages), id)
  {
    assert id in t.deliveries - deliveries;
    assert Referenced(t.deliveries - deliveries, t.deliveries[id].messageId);
  }

  lemma GrantRetains(w: World, a: Step, id: string)
    requires Inv(w) && Enabled(w, a) && a.Grant? && id in w.tables.deliveries
    ensures Retained(w.tables, TablesAfter(w, a), id)
  {
    var work := w.sessions[a.session];
    assert RowOk(w.tables, a.id);
    hide RowOk, AllChronological, ClaimsRecorded, AfterClaim, KeysUnique;
    ClaimedAttempts(w.tables, a.id, work.now, work.lease, a.attemptId);
    TouchRetains(w.tables, TablesAfter(w, a), a.id, id);
  }

  lemma UnchangedRetains(t: Tables, id: string)
    requires References(t) && id in t.deliveries
    ensures Retained(t, t, id)
  {
  }

  lemma RenewRetains(t: Tables, c: Claim, now: Time, until: Time, id: string)
    requires LedgerOk(t) && id in t.deliveries && now <= until
    ensures Retained(t, AfterRenew(t, c, now, until), id)
  {
    if MayRenew(t, c, now) {
      assert RowOk(t, c.deliveryId);
      hide RowOk, KeysUnique;
      RenewKeepsRow(t, c, now, until);
      hide AfterRenew;
      TouchRetains(t, AfterRenew(t, c, now, until), c.deliveryId, id);
    } else {
      UnchangedRetains(t, id);
    }
  }

  lemma CompleteRetains(t: Tables, c: Claim, now: Time, report: Report, id: string)
    requires LedgerOk(t) && id in t.deliveries
    ensures Retained(t, AfterComplete(t, c, now, report), id)
  {
    if OwnsAttempt(t, c) {
      hide RowOk, KeysUnique, AfterComplete, Transition;
      CompletedAttempts(t, c, now, report);
      TouchRetains(t, AfterComplete(t, c, now, report), c.deliveryId, id);
    } else {
      UnchangedRetains(t, id);
    }
  }

  lemma StepRetains(w: World, a: Step, id: string)
    requires Inv(w) && Enabled(w, a) && id in w.tables.deliveries && !(a.Purge? && id in a.deliveries)
    ensures Retained(w.tables, TablesAfter(w, a), id)
  {
    hide RowOk, AllChronological, ClaimsRecorded, AfterRenew, AfterComplete, AfterClaim, KeysUnique;
    match a
    case Grant(_, _, _) => GrantRetains(w, a, id);
    case Settle(s) =>
      var work := w.sessions[s];
      if work.Renewing? {
        RenewRetains(w.tables, work.claim, work.now, RenewedUntil(work.now, work.lease, work.databaseClock), id);
      } else {
        CompleteRetains(w.tables, work.claim, work.now, work.report, id);
      }
    case Purge(s, deliveries, messages) =>
      PurgeRetains(w.tables, deliveries, messages, w.sessions[s].now, w.sessions[s].keeping, id);
    case _ =>
  }

  ghost predicate NotPurged(steps: seq<Step>, i: nat, j: nat, id: string)
    requires i <= j <= |steps|
  {
    forall k | i <= k < j :: !(steps[k].Purge? && id in steps[k].deliveries)
  }

  /** Until Cleanup removes it, a delivery keeps its message, destination, headers and key. */
  lemma {:induction false} RunRetains(worlds: seq<World>, steps: seq<Step>, i: nat, j: nat, id: string)
    requires Run(worlds, steps) && Inv(worlds[0]) && i <= j < |worlds|
    requires id in worlds[i].tables.deliveries && NotPurged(steps, i, j, id)
    ensures Retained(worlds[i].tables, worlds[j].tables, id)
  {
    hide Inv, Enabled, TablesAfter, ClaimsAfter, Run;
    RunLength(worlds, steps);
    RunReferences(worlds, steps);
    if i < j {
      RunRetains(worlds, steps, i, j - 1, id);
      RunKeepsInv(worlds, steps, j - 1);
      RunStep(worlds, steps, j - 1);
      StepRetains(worlds[j - 1], steps[j - 1], id);
    }
  }

  lemma RetainedMatches(t: Tables, t': Tables, id: string, r: Request)
    requires References(t) && References(t') && Retained(t, t', id)
    ensures Matches(t, id, r) <==> Matches(t', id, r)
    ensures PublicationOf(t, id) == PublicationOf(t', id)
  {
  }

  /** Worlds of a run have sound references, so lookups are defined in them. */
  lemma RunReferences(worlds: seq<World>, steps: seq<Step>)
    requires Run(worlds, steps) && Inv(worlds[0])
    ensures forall i | 0 <= i < |worlds| :: LedgerOk(worlds[i].tables)
  {
    forall i | 0 <= i < |worlds| ensures LedgerOk(worlds[i].tables) {
      RunKeepsInv(worlds, steps, i);
    }
  }

  /**
   * Idempotent publication: once row `id` holds the key, every call with that key succeeds exactly when its content
   * matches that row, all successes return the same ids, and no call changes the rows. The call may look up at any
   * later world `a`, or earlier while the key was still free, and insert at any world `b` after both.
   */
  lemma KeyedCallsAgree(
    worlds: seq<World>, steps: seq<Step>, i: nat, a: nat, b: nat, id: string,
    r: Request, generated: string, deliveryId: string, now: Time)
    requires Run(worlds, steps) && Inv(worlds[0]) && i <= b < |worlds| && a <= b
    requires r.keyHash.Some? && HasKey(worlds[i].tables, id, r.keyHash.value) && NotPurged(steps, i, b, id)
    requires i <= a || !KeyTaken(worlds[a].tables, r.keyHash.value)
    requires r.explicitId.None? ==> generated !in worlds[b].tables.messages
    ensures LedgerOk(worlds[i].tables) && LedgerOk(worlds[a].tables) && LedgerOk(worlds[b].tables)
    ensures
      var ti, tb := worlds[i].tables, worlds[b].tables;
      var outcome := Call(worlds[a].tables, tb, r, generated, deliveryId, now);
      && OwnTransaction(tb, outcome) == (if Matches(ti, id, r) then Ok(PublicationOf(ti, id)) else Err(Conflict), tb)
      && (outcome.1 != tb ==> a < i && outcome.0.Err? && MessageIdFor(r, generated) !in tb.messages)
  {
    hide Inv, RowOk, Lookup, Matches, InsertPhase, Run;
    RunReferences(worlds, steps);
    RunLength(worlds, steps);
    var ti, ta, tb := worlds[i].tables, worlds[a].tables, worlds[b].tables;
    if i <= a {
      RunRetains(worlds, steps, i, a, id);
      RetainedMatches(ti, ta, id, r);
      LookupOfKey(ta, r, id);
    } else {
      RunRetains(worlds, steps, i, b, id);
      RetainedMatches(ti, tb, id, r);
      LookupOfFreeKey(ta, r);
      LoserLeavesNoTrace(tb, r, generated, deliveryId, now, id);
    }
  }

  lemma LookupOfFreeKey(t: Tables, r: Request)
    requires References(t) && r.keyHash.Some? && !KeyTaken(t, r.keyHash.value)
    ensures Lookup(t, r) == Ok(None)
  {
  }

  // ----- the theorem in the caller's terms -----

  /** A valid request as a caller writes it; an empty id or content type leaves the choice to the store. */
  datatype SendRequest = SendRequest(
    id: string, url: string, eventType: string, body: Bytes, contentType: string, headers: Headers)

  function ContentType(s: SendRequest): string {
    if s.contentType == "" then "application/json" else s.contentType
  }

  ghost function Prepared(s: SendRequest, hash: Bytes): Request {
    Request(if s.id == "" then None else Some(s.id), s.url, s.eventType, s.body, ContentType(s),
            CanonicalHeaders(s.headers), Some(hash))
  }

  /** Everything but the headers is as in the publication that `s` made under `messageId`. */
  predicate SameBesidesHeaders(s: SendRequest, again: SendRequest, messageId: string) {
    && again.eventType == s.eventType && again.body == s.body && ContentType(again) == ContentType(s)
    && again.url == s.url && (again.id == "" || again.id == messageId)
  }

  /** `again` asks for the publication that `s` made under `messageId`; headers count up to spelling and order. */
  ghost predicate SamePublication(s: SendRequest, again: SendRequest, messageId: string) {
    SameBesidesHeaders(s, again, messageId) && CanonicalHeaders(again.headers) == CanonicalHeaders(s.headers)
  }

  /** What the store compares: the headers of `again` with those of `s` as the jsonb column gives them back. */
  ghost predicate Recognised(s: SendRequest, again: SendRequest, messageId: string) {
    && SameBesidesHeaders(s, again, messageId)
    && CanonicalHeaders(again.headers) == ReadBackHeaders(CanonicalHeaders(s.headers))
  }

  lemma TextIsRecognised(s: SendRequest)
    ensures CanonicalHeaders(s.headers) == ReadBackHeaders(CanonicalHeaders(s.headers)) <==> IsText(s.headers)
  {
    hide CanonicalHeaders, ReadBackHeaders, IsText;
    ReadBackHeadersIsIdentity(CanonicalHeaders(s.headers));
    CanonicalHeadersAreText(s.headers);
  }

  /**
   * The store recognises repetitions of `s`, and nothing else, exactly when the header values of `s` are valid UTF-8.
   * Otherwise it recognises no repetition at all.
   */
  lemma RecognisedExactlyForText(s: SendRequest, messageId: string)
    ensures (forall again :: Recognised(s, again, messageId) <==> SamePublication(s, again, messageId))
       <==> IsText(s.headers)
    ensures !IsText(s.headers) ==>
      forall again :: SamePublication(s, again, messageId) ==> !Recognised(s, again, messageId)
  {
    hide CanonicalHeaders, ReadBackHeaders, IsText;
    TextIsRecognised(s);
    assert SamePublication(s, s.(id := messageId), messageId);
  }

  const CAFE: Bytes := [0x63, 0x61, 0x66, 0xE9]  // Latin-1, not UTF-8
  const CAFE_READ_BACK: Bytes := [0x63, 0x61, 0x66, 0xEF, 0xBF, 0xBD]

  lemma CafeReadBack()
    ensures Utf8.ReadBack(CAFE) == CAFE_READ_BACK
  {
    assert CAFE[1..] == [0x61, 0x66, 0xE9] && CAFE[1..][1..] == [0x66, 0xE9] && CAFE[1..][1..][1..] == [0xE9];
    assert Utf8.ReadBack([0xE9]) == Utf8.REPLACEMENT by {
      assert [0xE9 as byte][1..] == [];
      assert Utf8.ReadBack([]) == [];
    }
    assert Utf8.ReadBack(CAFE) == CAFE[..1] + Utf8.ReadBack(CAFE[1..]);
    assert Utf8.ReadBack(CAFE[1..]) == CAFE[1..][..1] + Utf8.ReadBack(CAFE[1..][1..]);
    assert Utf8.ReadBack(CAFE[1..][1..]) == CAFE[1..][1..][..1] + Utf8.ReadBack([0xE9]);
  }

  function WithNote(note: Bytes): SendRequest {
    SendRequest("", "https://example.com", "invoice.paid", [], "", map["X" := [note]])
  }

  lemma NoteIsCanonical(note: Bytes)
    ensures CanonicalHeaders(WithNote(note).headers) == map["X" := [note]]
  {
    assert CanonicalName("X") == "X" by {
      assert Recase("X", true) == ['X'] + Recase([], false);
    }
    CanonicalNamesAreFixed(map["X" := [note]]);
  }

  /** Both failures happen: an identical retry is refused, and a request with another header value is recognised. */
  lemma UnrecognisedExample(messageId: string)
    ensures SamePublication(WithNote(CAFE), WithNote(CAFE), messageId)
    ensures !Recognised(WithNote(CAFE), WithNote(CAFE), messageId)
    ensures Recognised(WithNote(CAFE), WithNote(CAFE_READ_BACK), messageId)
    ensures !SamePublication(WithNote(CAFE), WithNote(CAFE_READ_BACK), messageId)
  {
    NoteIsCanonical(CAFE);
    NoteIsCanonical(CAFE_READ_BACK);
    CafeReadBack();
    hide CanonicalHeaders, Utf8.ReadBack;
    var stored, read: Headers := map["X" := [CAFE]], map["X" := [CAFE_READ_BACK]];
    assert ReadBackValues([CAFE]) == [CAFE_READ_BACK];
    assert ReadBackHeaders(stored) == read;
    assert stored["X"][0] != read["X"][0];
  }

  lemma InsertedRowMatches(
    t: Tables, s: SendRequest, again: SendRequest, hash: Bytes, messageId: string, deliveryId: string, now: Time)
    requires InsertAllowed(t, Prepared(s, hash), messageId, deliveryId)
    ensures
      var t' := AfterInsert(t, Prepared(s, hash), messageId, deliveryId, now);
      && HasKey(t', deliveryId, hash) && t'.deliveries[deliveryId].messageId in t'.messages
      && PublicationOf(t', deliveryId) == Publication(messageId, deliveryId)
      && (Matches(t', deliveryId, Prepared(again, hash)) <==> Recognised(s, again, messageId))
  {
    hide CanonicalHeaders, ReadBackHeaders;
    ReadBackOfCanonical(s.headers);
    CanonicalHeadersTwice(again.headers);
  }

  /**
   * Publishing is idempotent: after step `p` has published `s` under a key, and until Cleanup removes the delivery, a
   * call with that key returns the ids of that publication or a conflict, and changes nothing, even when its own
   * lookup ran before step `p`. When the header values of `s` are valid UTF-8, it returns the ids exactly when it
   * asks for the same publication; when they are not, asking for the same one is always a conflict.
   */
  lemma PublishingIsIdempotent(
    worlds: seq<World>, steps: seq<Step>, p: nat, a: nat, b: nat, s: SendRequest, again: SendRequest, hash: Bytes,
    generated: string, deliveryId: string, now: Time)
    requires Run(worlds, steps) && Inv(worlds[0]) && p < b < |worlds| && a <= b && p < |steps|
    requires Enabled(worlds[p], steps[p]) && steps[p].Insert?
    requires worlds[p].sessions[steps[p].session].request == Prepared(s, hash)
    requires NotPurged(steps, p + 1, b, steps[p].deliveryId)
    requires p < a || !KeyTaken(worlds[a].tables, hash)
    requires again.id == "" ==> generated !in worlds[b].tables.messages
    ensures LedgerOk(worlds[a].tables) && LedgerOk(worlds[b].tables)
    ensures
      var ta, tb, messageId := worlds[a].tables, worlds[b].tables, steps[p].messageId;
      var answer := OwnTransaction(tb, Call(ta, tb, Prepared(again, hash), generated, deliveryId, now));
      var ids := Publication(messageId, steps[p].deliveryId);
      && answer == (if Recognised(s, again, messageId) then Ok(ids) else Err(Conflict), tb)
      && (IsText(s.headers) ==> answer.0 == if SamePublication(s, again, messageId) then Ok(ids) else Err(Conflict))
      && (!IsText(s.headers) && SamePublication(s, again, messageId) ==> answer.0 == Err(Conflict))
  {
    hide Inv, After, Matches, Call, SamePublication, CanonicalHeaders, Recognised, IsText, AfterInsert, Run;
    RunStep(worlds, steps, p);
    InsertedTables(worlds[p], steps[p]);
    var w, step := worlds[p], steps[p];
    var session := w.sessions[step.session];
    InsertedRowMatches(w.tables, s, again, hash, step.messageId, step.deliveryId, session.now);
    hide Enabled;
    RecognisedExactlyForText(s, step.messageId);
    KeyedCallsAgree(worlds, steps, p + 1, a, b, step.deliveryId, Prepared(again, hash), generated, deliveryId, now);
  }

  lemma InsertedTables(w: World, a: Step)
    requires Enabled(w, a) && a.Insert?
    ensures After(w, a).tables
         == AfterInsert(w.tables, w.sessions[a.session].request, a.messageId, a.deliveryId, w.sessions[a.session].now)
  {
  }

  // ----- what workers are given -----

  /** The row and the message of a delivery say what the request says, headers as the column gives them back. */
  ghost predicate Holds(t: Tables, id: string, r: Request, messageId: string) {
    && id in t.deliveries && t.deliveries[id].messageId == messageId && messageId in t.messages
    && t.deliveries[id].destination == r.url && t.deliveries[id].headers == ReadBackHeaders(r.headers)
    && t.messages[messageId].eventType == r.eventType && t.messages[messageId].body == r.body
    && t.messages[messageId].contentType == r.contentType
  }

  lemma InsertHolds(t: Tables, r: Request, messageId: string, deliveryId: string, now: Time)
    requires InsertAllowed(t, r, messageId, deliveryId)
    ensures Holds(AfterInsert(t, r, messageId, deliveryId, now), deliveryId, r, messageId)
  {
    hide ReadBackHeaders;
  }

  /** The claim a grant records. */
  lemma GrantedClaim(w: World, a: Step)
    requires Enabled(w, a) && a.Grant?
    ensures a.attemptId in After(w, a).claims && a.id in w.tables.deliveries
    ensures
      var c, d := After(w, a).claims[a.attemptId], w.tables.deliveries[a.id];
      && c.deliveryId == a.id && c.attemptId == a.attemptId && c.attempt == d.attemptCount + 1
      && c.startedAt == w.sessions[a.session].now && c.messageId == d.messageId && c.destination == d.destination
      && d.messageId in w.tables.messages && c.message == w.tables.messages[d.messageId] && c.headers == d.headers
      && OwnsAttempt(After(w, a).tables, c)
  {
    hide CloseAbandoned;
  }

  /**
   * Workers post what was published: whenever a delivery is granted, before Cleanup removes it, the claim carries the
   * message id, event type, body, content type, destination and headers of the request that published it, the next
   * attempt number, and the right to complete that attempt.
   */
  lemma WorkersPostWhatWasPublished(worlds: seq<World>, steps: seq<Step>, p: nat, q: nat)
    requires Run(worlds, steps) && worlds[0] == EMPTY && p < q < |steps|
    requires Enabled(worlds[p], steps[p]) && steps[p].Insert?
    requires steps[q].Grant? && steps[q].id == steps[p].deliveryId && NotPurged(steps, p + 1, q, steps[p].deliveryId)
    ensures steps[q].attemptId in worlds[q + 1].claims && steps[q].id in worlds[q].tables.deliveries
    ensures
      var r, c := worlds[p].sessions[steps[p].session].request, worlds[q + 1].claims[steps[q].attemptId];
      && c.messageId == steps[p].messageId && c.destination == r.url && c.headers == ReadBackHeaders(r.headers)
      && c.message.eventType == r.eventType && c.message.body == r.body && c.message.contentType == r.contentType
      && c.deliveryId == steps[p].deliveryId && c.attempt == worlds[q].tables.deliveries[c.deliveryId].attemptCount + 1
      && OwnsAttempt(worlds[q + 1].tables, c)
  {
    var id := steps[p].deliveryId;
    var work := worlds[p].sessions[steps[p].session];
    hide Run, Inv, ReadBackHeaders, AfterInsert, After, OwnsAttempt;
    EmptyInv();
    RunLength(worlds, steps);
    RunStep(worlds, steps, p);
    InsertedTables(worlds[p], steps[p]);
    InsertHolds(worlds[p].tables, work.request, steps[p].messageId, id, work.now);
    RunRetains(worlds, steps, p + 1, q, id);
    RunStep(worlds, steps, q);
    hide Enabled;
    GrantedClaim(worlds[q], steps[q]);
  }

  /** A published delivery waits from the instant its publisher read, with no attempt made. */
  lemma NewDeliveriesAreDueAtOnce(w: World, a: Step)
    requires Enabled(w, a) && a.Insert?
    ensures
      var now, t' := w.sessions[a.session].now, After(w, a).tables;
      && a.deliveryId in t'.deliveries
      && t'.deliveries[a.deliveryId].state.Pending? && t'.deliveries[a.deliveryId].attemptCount == 0
      && t'.deliveries[a.deliveryId].createdAt == now
      && (forall reading :: Claimable(t', a.deliveryId, reading) <==> now <= reading)
      && t'.deliveries[a.deliveryId].keyHash == w.sessions[a.session].request.keyHash
      && (a.messageId !in w.tables.messages ==> a.messageId in t'.messages && t'.messages[a.messageId].createdAt == now)
  {
    hide ReadBackHeaders;
  }
}
