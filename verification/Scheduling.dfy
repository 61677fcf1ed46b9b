/** When the next attempt may start: retry.go, and the Retry-After side of outcome.go. */
module Scheduling {
  import opened Common
  import opened GoTime
  import opened Text

  const HALF_MAX: Duration := 0x3fff_ffff_ffff_ffff // math.MaxInt64 / 2

  // ----- jitter -----

  /** CryptoJitter.Duration; `word` is the random word, or None when the random source failed. */
  function CryptoJitter(max: Duration, word: Option<nat>): (d: Duration)
    requires word.Some? ==> word.value < 0x1_0000_0000_0000_0000
    ensures 0 <= d && (max >= 0 ==> d <= max)
    ensures max <= 0 ==> d == 0
  {
    if max <= 0 then 0
    else if word.None? then max / 2
    else word.value % (max + 1)
  }

  /** Every value the Jitter contract allows is drawn for some random word, and a failed source gives the middle. */
  lemma CryptoJitterIsOnto(max: Duration, d: Duration)
    requires 0 < max && 0 <= d <= max
    ensures exists word: nat :: word < 0x1_0000_0000_0000_0000 && CryptoJitter(max, Some(word)) == d
    ensures CryptoJitter(max, None) == max / 2
  {
    assert CryptoJitter(max, Some(d)) == d;
  }

  function Clamp(d: Duration, max: Duration): Duration {
    if d < 0 then 0 else if d > max then max else d
  }

  // ----- RetryPolicy.Next -----

  datatype RetryPolicy = RetryPolicy(schedule: seq<Duration>, maxAttempts: int) {

    function EffectiveMax(): (m: int)
      ensures m >= 1
    {
      if maxAttempts <= 0 then |schedule| + 1 else maxAttempts
    }

    /** The scheduled delay after `attempt`; the last entry serves every later attempt. */
    function Delay(attempt: int): Duration
      requires attempt > 0 && schedule != []
    {
      schedule[if attempt - 1 >= |schedule| then |schedule| - 1 else attempt - 1]
    }

    /** `attempt` is one the policy retries: within the budget, with a usable delay. */
    predicate Retries(attempt: int) {
      0 < attempt < EffectiveMax() && schedule != [] && 0 <= Delay(attempt) <= HALF_MAX
    }

    /**
     * The instant of the attempt after `attempt`, or None. `drawn` is whatever the Jitter returned, within its
     * contract or not. The contract shows that the last guard never stops a retry: only Retries decides.
     */
    function Next(now: Time, attempt: int, drawn: Duration): (next: Option<Time>)
      ensures next.Some? <==> Retries(attempt)
      ensures next.Some? ==> now + Delay(attempt) <= next.value <= now + Delay(attempt) + Delay(attempt) / 5
    {
      if attempt <= 0 then None
      else if attempt >= EffectiveMax() then None
      else if |schedule| == 0 then None
      else
        var delay := Delay(attempt);
        if delay < 0 || delay > HALF_MAX then None
        else
          var jitterDelay := Clamp(drawn, delay / 5);
          if delay > MAX_INT64 - jitterDelay then None
          else
            var total: Duration := delay + jitterDelay;
            Some(now + total)
    }
  }

  /**
   * Next in the fields of the policy: attempts are repeated below the maximum (one more than the schedule is long,
   * unless it is given), each after its own entry of the schedule or the last one, plus what the jitter draws up to a
   * fifth of that.
   */
  lemma NextFollowsSchedule(p: RetryPolicy, now: Time, attempt: int, drawn: Duration)
    ensures attempt <= 0 || p.schedule == [] ==> p.Next(now, attempt, drawn).None?
    ensures attempt > 0 && p.schedule != [] ==>
      var last := |p.schedule|;
      var delay := p.schedule[if attempt < last then attempt - 1 else last - 1];
      var max := if p.maxAttempts > 0 then p.maxAttempts else last + 1;
      && (p.Next(now, attempt, drawn).Some? <==> attempt < max && 0 <= delay <= MAX_INT64 / 2)
      && (p.Next(now, attempt, drawn).Some? && 0 <= drawn <= delay / 5 ==>
            p.Next(now, attempt, drawn).value == now + delay + drawn)
  {
  }

  const STANDARD_POLICY := RetryPolicy(
    [5 * SECOND, 5 * MINUTE, 30 * MINUTE, 2 * HOUR, 5 * HOUR, 10 * HOUR, 14 * HOUR, 20 * HOUR, 24 * HOUR], 10)

  /** The standard policy allows exactly ten attempts, each after a positive and never shrinking delay. */
  lemma StandardPolicyAttempts(attempt: int)
    ensures STANDARD_POLICY.Retries(attempt) <==> 1 <= attempt <= 9
    ensures STANDARD_POLICY.Retries(attempt) ==> STANDARD_POLICY.Delay(attempt) > 0
    ensures 1 <= attempt <= 8 ==> STANDARD_POLICY.Delay(attempt) <= STANDARD_POLICY.Delay(attempt + 1)
    ensures STANDARD_POLICY.Delay(1) == 5 * SECOND && STANDARD_POLICY.Delay(2) == 5 * MINUTE
    ensures STANDARD_POLICY.Delay(3) == 30 * MINUTE && STANDARD_POLICY.Delay(4) == 120 * MINUTE
    ensures STANDARD_POLICY.Delay(5) == 300 * MINUTE && STANDARD_POLICY.Delay(6) == 600 * MINUTE
    ensures STANDARD_POLICY.Delay(7) == 840 * MINUTE && STANDARD_POLICY.Delay(8) == 1200 * MINUTE
    ensures STANDARD_POLICY.Delay(9) == 1440 * MINUTE
  {
    var s := STANDARD_POLICY.schedule;
    assert |s| == 9;
    assert s[0] == 5_000_000_000 && s[1] == 300_000_000_000 && s[2] == 1_800_000_000_000;
    assert s[3] == 7_200_000_000_000 && s[4] == 18_000_000_000_000 && s[5] == 36_000_000_000_000;
    assert s[6] == 50_400_000_000_000 && s[7] == 72_000_000_000_000 && s[8] == 86_400_000_000_000;
  }

  // ----- outcomes -----

  datatype Outcome = Unset | Delivered | Retry | PermanentFailure | DisableDestination | Unrecognised

  const DEFAULT_MAX_RETRY_AFTER: Duration := 86_400_000_000_000

  /** The zero time, which stands for "no time given". */
  const NO_TIME: Time := 0

  /**
   * DefaultClassifier.retryAfter. `parseTime` is http.ParseTime, an arbitrary function here.
   */
  function RetryAfter(maxRetryAfter: Duration, now: Time, header: Bytes, parseTime: Bytes -> Option<Time>): Time {
    var value := TrimSpace(header);
    if value == [] then NO_TIME
    else
      var maximum := Cap(maxRetryAfter);
      match ParseInt(value)
      case Some(seconds) =>
        if seconds >= 0 then
          if seconds > maximum / SECOND then now + maximum
          else
            var wait: Duration := seconds * SECOND;
            now + wait
        else DateRetryAfter(maximum, now, parseTime(value))
      case None => DateRetryAfter(maximum, now, parseTime(value))
  }

  function Cap(maxRetryAfter: Duration): (maximum: Duration)
    ensures maximum > 0
    ensures maxRetryAfter > 0 ==> maximum == maxRetryAfter
    ensures maxRetryAfter <= 0 ==> maximum == 24 * 60 * 60 * SECOND
  {
    if maxRetryAfter <= 0 then DEFAULT_MAX_RETRY_AFTER else maxRetryAfter
  }

  function DateRetryAfter(maximum: Duration, now: Time, date: Option<Time>): Time {
    if date.Some? && date.value > now then
      if Sub(date.value, now) > maximum then now + maximum else date.value
    else NO_TIME
  }

  function Earlier(t: Time, u: Time): Time { if t < u then t else u }

  /**
   * What a Retry-After header asks for: that many seconds from now, or until that date, each cut at the cap; nothing
   * when it is blank, past or unreadable.
   */
  lemma RetryAfterExactly(maxRetryAfter: Duration, now: Time, header: Bytes, parseTime: Bytes -> Option<Time>)
    requires !BeyondDurations(now, header, parseTime)
    ensures
      var value, cap := TrimSpace(header), now + Cap(maxRetryAfter);
      RetryAfter(maxRetryAfter, now, header, parseTime) ==
        if value == [] then NO_TIME
        else if ParseInt(value).Some? && ParseInt(value).value >= 0
        then Earlier(now + ParseInt(value).value * 1_000_000_000, cap)
        else if parseTime(value).Some? && parseTime(value).value > now then Earlier(parseTime(value).value, cap)
        else NO_TIME
  {
    hide TrimSpace, ParseInt;
  }

  /** The header is a date so far ahead that the distance to it does not fit a Duration. */
  predicate BeyondDurations(now: Time, header: Bytes, parseTime: Bytes -> Option<Time>) {
    var value := TrimSpace(header);
    && value != [] && (ParseInt(value).Some? ==> ParseInt(value).value < 0)
    && parseTime(value).Some? && parseTime(value).value - now > MAX_INT64
  }

  /**
   * A Retry-After answer lies in [now, now + maximum], except in one case: a maximum equal to the largest
   * Duration does not cap a date beyond the range of Durations, because the subtraction has already clamped.
   */
  lemma RetryAfterIsBounded(maxRetryAfter: Duration, now: Time, header: Bytes, parseTime: Bytes -> Option<Time>)
    requires now > 0
    ensures
      var t := RetryAfter(maxRetryAfter, now, header, parseTime);
      t != NO_TIME ==>
        && now <= t
        && (t <= now + Cap(maxRetryAfter) <==> !(maxRetryAfter == MAX_INT64 && BeyondDurations(now, header, parseTime)))
  {
    hide TrimSpace, ParseInt;
    var value := TrimSpace(header);
    var maximum := Cap(maxRetryAfter);
    if value != [] && ParseInt(value).Some? && ParseInt(value).value >= 0 {
      var seconds := ParseInt(value).value;
      if seconds <= maximum / SECOND {
        assert seconds * SECOND <= maximum;
      }
    }
  }

  /** The text of the last instant an HTTP date can name: Fri, 31 Dec 9999 23:59:59 GMT. */
  const LAST_DATE: Bytes := [
    0x46, 0x72, 0x69, 0x2C, 0x20, 0x33, 0x31, 0x20, 0x44, 0x65, 0x63, 0x20, 0x39, 0x39, 0x39, 0x39, 0x20,
    0x32, 0x33, 0x3A, 0x35, 0x39, 0x3A, 0x35, 0x39, 0x20, 0x47, 0x4D, 0x54]

  /** 3652058 days and 86399 seconds after the zero time. */
  const LAST_INSTANT: Time := (3652058 * 86400 + 86399) * 1_000_000_000

  lemma LastDateIsTrimmed()
    ensures TrimSpace(LAST_DATE) == LAST_DATE && ParseInt(LAST_DATE).None?
  {
    assert FirstText(LAST_DATE, 0) == 0;
    assert LastText(LAST_DATE, 0, |LAST_DATE|) == |LAST_DATE|;
    assert LAST_DATE[..|LAST_DATE|] == LAST_DATE;
    assert ParseDigits(LAST_DATE).None? by {
      assert !IsDigit(LAST_DATE[|LAST_DATE| - 1]);
    }
  }

  /**
   * The exception is real: with the largest maximum, the last HTTP date is returned uncapped at any instant more than
   * the largest Duration before it, that is before the year 9707.
   */
  lemma UncappedDateExample(now: Time, parseTime: Bytes -> Option<Time>)
    requires 0 < now < LAST_INSTANT - MAX_INT64 && parseTime(LAST_DATE) == Some(LAST_INSTANT)
    ensures RetryAfter(MAX_INT64, now, LAST_DATE, parseTime) == LAST_INSTANT > now + Cap(MAX_INT64)
  {
    hide TrimSpace, ParseInt;
    LastDateIsTrimmed();
  }

  /** An HTTP response as the classifier sees it. */
  datatype Response = Response(status: int, retryAfter: Bytes)

  predicate Throttled(status: int) {
    status == 408 || status == 425 || status == 429 || status >= 500
  }

  /** DefaultClassifier.Classify; `failed` says that the exchange ended in an error. */
  function Classify(
    maxRetryAfter: Duration, now: Time, response: Option<Response>, failed: bool, parseTime: Bytes -> Option<Time>)
    : (r: (Outcome, Time))
    ensures r.0 == Delivered <==> !failed && response.Some? && 200 <= response.value.status <= 299
    ensures r.0 == DisableDestination <==> !failed && response.Some? && response.value.status == 410
    ensures r.0 == Retry <==> failed || response.None? || Throttled(response.value.status)
    ensures r.0 in {Delivered, DisableDestination, Retry, PermanentFailure}
    ensures r.1 == if !failed && response.Some? && Throttled(response.value.status)
                   then RetryAfter(maxRetryAfter, now, response.value.retryAfter, parseTime) else NO_TIME
  {
    if failed then (Retry, NO_TIME)
    else if response.None? then (Retry, NO_TIME)
    else
      var status := response.value.status;
      if 200 <= status <= 299 then (Delivered, NO_TIME)
      else if status == 410 then (DisableDestination, NO_TIME)
      else if status == 408 || status == 425 || status == 429 then
        (Retry, RetryAfter(maxRetryAfter, now, response.value.retryAfter, parseTime))
      else if status >= 500 then
        (Retry, RetryAfter(maxRetryAfter, now, response.value.retryAfter, parseTime))
      else (PermanentFailure, NO_TIME)
  }
}
