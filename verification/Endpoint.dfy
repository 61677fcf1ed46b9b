/** receiver.go as code: the configuration, and ServeHTTP on both sides of the handler's run. */
module Endpoint {
  import opened Common
  import opened GoTime
  import opened Text
  import G = ReplayGuard

  // ----- NewReceiver -----

  datatype Config = Config(
    hasVerifier: bool,
    hasHandler: bool,
    maxBodyBytes: int64,
    replayTTL: Duration,
    successStatus: int64)

  /** What Receiver relies on. */
  predicate Usable(c: Config) {
    c.hasVerifier && c.hasHandler && c.maxBodyBytes > 0 && c.replayTTL > 0 && 200 <= c.successStatus <= 299
  }

  /** `c` with the documented default in place of each value that was left out. */
  function Defaulted(c: Config): Config {
    Config(c.hasVerifier, c.hasHandler,
           if c.maxBodyBytes <= 0 then 1_048_576 else c.maxBodyBytes,
           if c.replayTTL <= 0 then 10 * MINUTE else c.replayTTL,
           if c.successStatus == 0 then 204 else c.successStatus)
  }

  /** NewReceiver accepts a configuration exactly when its defaulted form is usable. */
  method NewReceiver(given: Config) returns (r: Result<Config>)
    ensures r == if Usable(Defaulted(given)) then Ok(Defaulted(given)) else Err(InvalidConfiguration)
    ensures r.Ok? <==>
      given.hasVerifier && given.hasHandler && (given.successStatus == 0 || 200 <= given.successStatus <= 299)
    ensures r.Ok? ==>
      && (r.value.maxBodyBytes == if given.maxBodyBytes > 0 then given.maxBodyBytes else 1024 * 1024)
      && (r.value.replayTTL == if given.replayTTL > 0 then given.replayTTL else 600 * SECOND)
      && (r.value.successStatus == if given.successStatus == 0 then 204 else given.successStatus)
  {
    var config := given;
    if !config.hasVerifier {
      return Err(InvalidConfiguration);
    }
    if !config.hasHandler {
      return Err(InvalidConfiguration);
    }
    if config.maxBodyBytes <= 0 {
      config := config.(maxBodyBytes := 1_048_576);
    }
    if config.replayTTL <= 0 {
      config := config.(replayTTL := 10 * MINUTE);
    }
    if config.successStatus == 0 {
      config := config.(successStatus := 204);
    }
    if config.successStatus < 200 || config.successStatus > 299 {
      return Err(InvalidConfiguration);
    }
    return Ok(config);
  }

  // ----- the body -----

  /** io.LimitReader: nothing at all for a limit that is not positive. */
  function Limited(stream: Bytes, limit: int64): Bytes {
    if limit <= 0 then [] else if |stream| <= limit then stream else stream[..limit]
  }

  /** readBounded; `maximum + 1` wraps around at the largest int64. */
  function ReadBounded(stream: Bytes, maximum: int64): Result<Bytes>
    requires maximum > 0
  {
    var body := Limited(stream, Wrap64(maximum + 1));
    if |body| > maximum then Err(BodyTooLarge) else Ok(body)
  }

  /**
   * The verifier sees exactly the bytes that were sent, or the request is refused as too large; the one limit for
   * which this fails is the largest int64, where every body is read as empty.
   */
  lemma BodyIsReadWhole(stream: Bytes, maximum: int64)
    requires maximum > 0
    ensures
      (ReadBounded(stream, maximum) == if |stream| <= maximum then Ok(stream) else Err(BodyTooLarge))
      <==> maximum < MAX_INT64 || stream == []
    ensures maximum == MAX_INT64 ==> ReadBounded(stream, maximum) == Ok([])
  {
  }

  // ----- responses -----

  /** The status defaultErrorResponder writes for an error; none of them is a success. */
  function ErrorStatus(code: Code): (status: int)
    ensures !Success(status)
    ensures status == 401 <==> code in {InvalidSignature, ExpiredSignature}
    ensures status == 400 <==> code in {InvalidMessage, DecodeFailed}
    ensures status == 413 <==> code == BodyTooLarge
    ensures status == 422 <==> code == UnknownEvent
    ensures status in {400, 401, 413, 422} || status == 500
  {
    match code
    case InvalidSignature => 401
    case ExpiredSignature => 401
    case InvalidMessage => 400
    case DecodeFailed => 400
    case BodyTooLarge => 413
    case UnknownEvent => 422
    case _ => 500
  }

  predicate Success(status: int) { 200 <= status <= 299 }

  /** A response is a status, or an error handed to the configured responder, which may write any status. */
  datatype Reply = Answered(status: int) | Refused(code: Code)

  // ----- ServeHTTP -----

  datatype Message = Message(source: string, id: string) {
    function Key(): G.Key { G.KeyOf(source, id) }
  }

  /**
   * A request, with what the verifier and the message validation make of it. The stream is missing when reading the
   * body fails.
   */
  datatype Request = Request(
    isPost: bool,
    compressed: bool,
    contentLength: int64,
    stream: Option<Bytes>,
    verify: Bytes -> Result<Message>,
    invalid: Option<Code>)

  /** How the handler's run ended. */
  datatype Ending = ReturnedNil | ReturnedError(code: Code) | Panicked

  /** Where ServeHTTP stands: it has responded, waits for another call's claim, or runs the handler. */
  datatype Stage = Responded(reply: Reply) | Waits(channel: nat) | Runs(message: Message)

  /** What a request must satisfy before its identity is claimed; the answers are in the order of the checks. */
  function Checked(config: Config, request: Request): Result<Message>
    requires Usable(config)
  {
    if request.compressed then Err(InvalidMessage)
    else if request.contentLength > config.maxBodyBytes then Err(BodyTooLarge)
    else if request.stream.None? then Err(InvalidMessage)
    else
      match ReadBounded(request.stream.value, config.maxBodyBytes)
      case Err(code) => Err(code)
      case Ok(body) =>
        match request.verify(body)
        case Err(code) => Err(code)
        case Ok(message) => if request.invalid.Some? then Err(request.invalid.value) else Ok(message)
  }

  lemma DuplicateWasAccepted(g: G.Guard, key: G.Key, now: Time)
    ensures G.AfterClaim(g, key, now).0.Duplicate? ==>
      key in g.entries && g.entries[key].Accepted? && g.entries[key].expiresAt > now
  {
    hide G.Trimmed;
  }

  lemma CommitOutcome(g: G.Guard, key: G.Key, expiresAt: Time)
    ensures
      var (r, g') := G.AfterCommit(g, key, expiresAt);
      && (r.Ok? <==> G.ActiveKey(g, key))
      && (r.Ok? ==> key in g'.entries && g'.entries[key] == G.Accepted(expiresAt))
  {
  }

  lemma ReleaseOutcome(g: G.Guard, key: G.Key)
    ensures G.ActiveKey(g, key) ==> key !in G.AfterRelease(g, key).1.entries
  {
  }

  /** The checks in the order they are made; each failure has its own answer, and a message passes them all. */
  lemma ChecksInOrder(config: Config, request: Request)
    requires Usable(config) && config.maxBodyBytes < MAX_INT64
    ensures
      var checked, size := Checked(config, request), config.maxBodyBytes;
      && (request.compressed ==> checked == Err(InvalidMessage))
      && (!request.compressed && request.contentLength > size ==> checked == Err(BodyTooLarge))
      && (!request.compressed && request.contentLength <= size ==>
            && (request.stream.None? ==> checked == Err(InvalidMessage))
            && (request.stream.Some? && |request.stream.value| > size ==> checked == Err(BodyTooLarge))
            && (request.stream.Some? && |request.stream.value| <= size ==>
                  var verdict := request.verify(request.stream.value);
                  checked == if verdict.Ok? && request.invalid.Some? then Err(request.invalid.value) else verdict))
  {
    if request.stream.Some? {
      BodyIsReadWhole(request.stream.value, config.maxBodyBytes);
    }
    hide ReadBounded;
  }

  class Receiver {
    const config: Config
    const guard: G.MemoryReplayGuard?

    constructor (config: Config, guard: G.MemoryReplayGuard?)
      requires Usable(config)
      ensures this.config == config && this.guard == guard
    {
      this.config := config;
      this.guard := guard;
    }

    ghost predicate Valid()
      reads this, guard
    {
      Usable(config) && (guard != null ==> guard.Valid())
    }

    /**
     * ServeHTTP up to the handler's run, or to the wait for another call's claim, after which it is entered again
     * at the claim. The guard changes by one critical section of Claim and only for a message that passed every
     * check; the only success answered here is the one for an identity already accepted.
     */
    method Admit(request: Request, now: Time) returns (stage: Stage)
      requires Valid()
      modifies guard
      ensures Valid()
      ensures !request.isPost ==> stage == Responded(Answered(405))
      ensures request.isPost && Checked(config, request).Err? ==>
        stage == Responded(Refused(Checked(config, request).code))
      ensures stage.Runs? ==> request.isPost && Checked(config, request) == Ok(stage.message)
      ensures guard != null && !(request.isPost && Checked(config, request).Ok?) ==> guard.Value() == old(guard.Value())
      ensures guard != null && request.isPost && Checked(config, request).Ok? ==>
        var (answer, after) := G.AfterClaim(old(guard.Value()), Checked(config, request).value.Key(), now);
        && guard.Value() == after
        && (stage.Runs? <==> answer.Claimed?)
        && (stage.Waits? <==> answer.Wait?)
        && (answer.Wait? ==> stage.channel == answer.channel)
        && (answer.Duplicate? ==> stage == Responded(Answered(config.successStatus)))
        && (answer.Full? ==> stage == Responded(Refused(Internal)))
      ensures stage.Responded? && stage.reply.Answered? && Success(stage.reply.status) ==>
        && guard != null && request.isPost && Checked(config, request).Ok?
        && var key := Checked(config, request).value.Key();
           && key in old(guard.entries) && old(guard.entries)[key].Accepted? && old(guard.entries)[key].expiresAt > now
      ensures guard == null && request.isPost && Checked(config, request).Ok? ==> stage.Runs?
    {
      hide G.GuardOk, G.AfterClaim, G.KeyOf, ReadBounded;
      if !request.isPost {
        return Responded(Answered(405));
      }
      if request.compressed {
        return Responded(Refused(InvalidMessage));
      }
      if request.contentLength > config.maxBodyBytes {
        return Responded(Refused(BodyTooLarge));
      }
      if request.stream.None? {
        return Responded(Refused(InvalidMessage));
      }
      var read := ReadBounded(request.stream.value, config.maxBodyBytes);
      if read.Err? {
        return Responded(Refused(read.code));
      }
      var verification := request.verify(read.value);
      if verification.Err? {
        return Responded(Refused(verification.code));
      }
      var message := verification.value;
      if request.invalid.Some? {
        return Responded(Refused(request.invalid.value));
      }
      if guard != null {
        DuplicateWasAccepted(guard.Value(), message.Key(), now);
        var answer := guard.TryClaim(message.Key(), now);
        match answer {
          case Full => return Responded(Refused(Internal));
          case Duplicate => return Responded(Answered(config.successStatus));
          case Wait(channel) => return Waits(channel);
          case Claimed =>
        }
      }
      return Runs(message);
    }

    /**
     * ServeHTTP from the end of the handler's run; no reply means that the panic goes on. `readAt` is the clock
     * reading of the commit. The success status is answered exactly when the handler returned nil and, with a guard,
     * the acceptance was recorded; a failed or panicked handler gives the claim up.
     */
    method Finish(message: Message, ending: Ending, readAt: Time) returns (reply: Option<Reply>)
      requires Valid()
      modifies guard
      ensures Valid()
      ensures reply.None? <==> ending.Panicked?
      ensures ending.ReturnedNil? ==>
        reply == Some(if guard == null || G.ActiveKey(old(guard.Value()), message.Key())
                      then Answered(config.successStatus) else Refused(ReplayCode))
      ensures ending.ReturnedError? ==>
        reply == Some(Refused(if guard != null && G.AfterRelease(old(guard.Value()), message.Key()).0.Err?
                              then HandlerFailed else ending.code))
      ensures guard != null && reply.Some? && reply.value.Answered? ==>
        message.Key() in guard.entries && guard.entries[message.Key()] == G.Accepted(readAt + config.replayTTL)
      ensures guard != null && !ending.ReturnedNil? && G.ActiveKey(old(guard.Value()), message.Key()) ==>
        message.Key() !in guard.entries
      ensures guard != null ==>
        guard.Value() == if ending.ReturnedNil?
                         then G.AfterCommit(old(guard.Value()), message.Key(), readAt + config.replayTTL).1
                         else G.AfterRelease(old(guard.Value()), message.Key()).1
    {
      hide G.GuardOk, G.AfterCommit, G.AfterRelease, G.ActiveKey, G.KeyOf;
      if guard != null {
        CommitOutcome(guard.Value(), message.Key(), readAt + config.replayTTL);
        ReleaseOutcome(guard.Value(), message.Key());
      }
      match ending
      case Panicked =>
        if guard != null {
          var _ := guard.Release(message.Key());
        }
        return None;
      case ReturnedError(code) =>
        var answer := code;
        if guard != null {
          var released := guard.Release(message.Key());
          if released.Err? {
            answer := HandlerFailed;
          }
        }
        return Some(Refused(answer));
      case ReturnedNil =>
        if guard != null {
          var committed := guard.Commit(message.Key(), readAt + config.replayTTL);
          if committed.Err? {
            return Some(Refused(ReplayCode));
          }
        }
        return Some(Answered(config.successStatus));
    }
  }
}
