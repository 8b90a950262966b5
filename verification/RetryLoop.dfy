/** The embedding worker's client: retries with a capped exponential backoff, and a health probe behind a cache. */
module RetryLoop {
  import opened Options
  import HealthLog
  import opened Text

  const MILLISECOND := 1_000_000
  const SECOND := 1_000_000_000
  const BACKOFF_CAP := 2 * SECOND

  datatype Config = Config(address: string, timeout: int, retryMax: int, retryBackoff: int, healthTTL: int)

  datatype Request = Request(input: string, model: string)

  datatype Response = Response(embeddings: seq<seq<real>>, model: string, promptTokens: int, totalTokens: int)

  /** A failure, with or without an underlying error of the transport or of the encoding. */
  datatype WorkerError = WorkerError(statusCode: int, message: string, hasCause: bool)

  const NOT_CONFIGURED := WorkerError(503, "embedding worker is not configured", false)
  const CANCELLED := WorkerError(503, "embedding worker request cancelled", true)

  /** Section 4 of RFC 6585 for 429; section 15.6 of RFC 9110 for the others. */
  predicate IsTransient(statusCode: int) {
    statusCode in {429, 500, 502, 503, 504}
  }

  predicate Retryable(error: WorkerError) {
    error.hasCause || IsTransient(error.statusCode)
  }

  // ---------- One call ----------

  /** What the world does to one call. */
  datatype Exchange =
    | MarshalFailed
    | BuildFailed
    | CallFailed
    | ReadFailed
    | Answered(statusCode: int, message: string, body: Option<Response>)

  datatype Outcome = Delivered(response: Response) | Refused(error: WorkerError)

  function OutcomeOf(exchange: Exchange): Outcome {
    match exchange
    case MarshalFailed => Refused(WorkerError(400, "failed to marshal embedding request", true))
    case BuildFailed => Refused(WorkerError(502, "failed to build embedding worker request", true))
    case CallFailed => Refused(WorkerError(503, "failed to call embedding worker", true))
    case ReadFailed => Refused(WorkerError(502, "failed to read embedding worker response", true))
    case Answered(statusCode, message, body) =>
      if statusCode != 200 then Refused(WorkerError(statusCode, message, false))
      else if body.None? then Refused(WorkerError(502, "failed to parse embedding worker response", true))
      else Delivered(body.value)
  }

  /** A call is worth no second try if it delivered, or was refused in a way that is not worth one. */
  predicate IsFinal(outcome: Outcome) {
    outcome.Delivered? || !Retryable(outcome.error)
  }

  /** The worker answered, either with a readable delivery or with a status that will not pass. */
  predicate IsConclusive(exchange: Exchange) {
    && exchange.Answered?
    && (if exchange.statusCode == 200 then exchange.body.Some?
        else exchange.statusCode !in {429, 500, 502, 503, 504})
  }

  lemma FinalIff(exchange: Exchange)
    ensures IsFinal(OutcomeOf(exchange)) <==> IsConclusive(exchange)
  {
  }

  // ---------- Waiting ----------

  function Pow2(n: nat): (p: nat)
    ensures p >= 1
  {
    if n == 0 then 1 else 2 * Pow2(n - 1)
  }

  function Min(a: int, b: int): int {
    if a <= b then a else b
  }

  /** The wait before retry i + 1, when the base backoff is b; none but the first is longer than two seconds. */
  function Wait(b: int, i: nat): int {
    if i == 0 then b else Min(b * Pow2(i), 2_000_000_000)
  }

  /** The base backoff, doubled and capped so many times. */
  function Doubled(b: int, i: nat): int {
    if i == 0 then b else Min(Doubled(b, i - 1) * 2, BACKOFF_CAP)
  }

  lemma ProductIsPositive(a: int, b: int)
    requires a > 0 && b > 0
    ensures a * b > 0
  {
  }

  /** Doubling and capping step by step reaches the closed form. */
  lemma {:induction false} DoubledIsWait(b: int, i: nat)
    requires b > 0
    ensures Doubled(b, i) == Wait(b, i)
  {
    if i > 0 {
      DoubledIsWait(b, i - 1);
      assert b * Pow2(i) == b * Pow2(i - 1) * 2;
      ProductIsPositive(b, Pow2(i - 1));
    }
  }

  ghost predicate IsDoubled(waits: seq<int>, b: int) {
    forall i :: 0 <= i < |waits| ==> waits[i] == Doubled(b, i)
  }

  ghost predicate IsSchedule(waits: seq<int>, b: int) {
    forall i :: 0 <= i < |waits| ==> waits[i] == Wait(b, i)
  }

  lemma DoubledAreScheduled(waits: seq<int>, b: int)
    requires b > 0 && IsDoubled(waits, b)
    ensures IsSchedule(waits, b)
  {
    forall i | 0 <= i < |waits|
      ensures waits[i] == Wait(b, i)
    {
      DoubledIsWait(b, i);
    }
  }

  function Total(waits: seq<int>): int {
    if waits == [] then 0 else Total(waits[..|waits| - 1]) + waits[|waits| - 1]
  }

  /** All waits together: the base backoff once, and the cap for every further one. */
  lemma {:induction false} TotalWaitIsBounded(waits: seq<int>, b: int)
    requires b > 0 && IsSchedule(waits, b)
    ensures Total(waits) <= if waits == [] then 0 else b + (|waits| - 1) * 2_000_000_000
    ensures waits != [] ==> 0 < waits[|waits| - 1] <= Total(waits)
  {
    if waits != [] {
      ProductIsPositive(b, Pow2(|waits| - 1));
    }
    if |waits| == 1 {
      assert Total(waits[..0]) == 0;
    } else if |waits| > 1 {
      TotalWaitIsBounded(waits[..|waits| - 1], b);
    }
  }

  // ---------- The client ----------

  function TrimSlashes(s: string): string {
    if s != "" && s[|s| - 1] == '/' then TrimSlashes(s[..|s| - 1]) else s
  }

  /** Only slashes go, and all of those at the end. */
  lemma {:induction false} TrimSlashesCuts(s: string) returns (n: nat)
    ensures n <= |s| && TrimSlashes(s) == s[..n] && (forall i :: n <= i < |s| ==> s[i] == '/')
    ensures n > 0 ==> s[n - 1] != '/'
  {
    n := |s|;
    if s != "" && s[|s| - 1] == '/' {
      n := TrimSlashesCuts(s[..|s| - 1]);
    }
  }

  /** Each wait doubles the one before it, up to two seconds. */
  ghost predicate Doubles(wait: int, next: int) {
    next == if 2 * wait <= 2_000_000_000 then 2 * wait else 2_000_000_000
  }

  lemma WaitsDouble(waits: seq<int>, b: int)
    requires IsDoubled(waits, b)
    ensures waits != [] ==> waits[0] == b
    ensures forall i :: 0 <= i < |waits| - 1 ==> Doubles(waits[i], waits[i + 1])
  {
    forall i | 0 <= i < |waits| - 1
      ensures Doubles(waits[i], waits[i + 1])
    {
      assert waits[i + 1] == Doubled(b, i + 1);
    }
  }

  /**
   * Every call but the last was inconclusive, and was followed by the wait on schedule; a last wait was begun after
   * the last call only to be cut short.
   */
  ghost predicate IsRetried(calls: seq<Exchange>, waits: seq<int>, backoff: int, cancelled: bool) {
    && (forall i :: 0 <= i < |calls| - 1 ==> !IsConclusive(calls[i]))
    && IsSchedule(waits, backoff) && (waits != [] ==> waits[0] == backoff)
    && (forall i :: 0 <= i < |waits| - 1 ==> Doubles(waits[i], waits[i + 1]))
    && (if cancelled then calls != [] && !IsConclusive(calls[|calls| - 1]) && |waits| == |calls|
        else |waits| == if calls == [] then 0 else |calls| - 1)
  }

  lemma FewWaits(waits: seq<int>, b: int, retryMax: int)
    requires b > 0 && IsSchedule(waits, b) && |waits| < retryMax
    ensures Total(waits) <= if retryMax >= 2 then b + (retryMax - 2) * 2_000_000_000 else 0
  {
    TotalWaitIsBounded(waits, b);
  }

  /** One of the worker's two health routes answers, and not with a server error. */
  ghost predicate IsUp(probe: nat -> Option<int>) {
    (probe(0).Some? && probe(0).value < 500) || (probe(1).Some? && probe(1).value < 500)
  }

  /** What a request meets with: what becomes of each call, and whether the caller gives up during each wait. */
  datatype World = World(answer: nat -> Request -> Exchange, givesUp: nat -> bool)

  /** The calls were answered, and the waits sat out or cut short, as the world has it. */
  ghost predicate IsReal(world: World, request: Request, calls: seq<Exchange>, waits: seq<int>, cancelled: bool) {
    && (forall i: nat :: i < |calls| ==> calls[i] == world.answer(i)(request))
    && (forall i: nat :: i < |waits| ==> (world.givesUp(i) <==> cancelled && i == |waits| - 1))
  }

  class Client {
    const baseURL: string
    const timeout: int
    const retryMax: int
    const retryBackoff: int
    const healthTTL: int
    var lastHealthAt: Option<int>
    var lastHealthValue: bool
    ghost var steps: HealthLog.Log

    /** What the constructor's defaults ensure for good. */
    ghost predicate Configured() {
      timeout > 0 && retryMax >= 1 && retryBackoff > 0 && healthTTL > 0
    }

    /** Between any steps of any callers: the cache holds the probe stored last, and every probe was called for. */
    ghost predicate Valid()
      reads this
    {
      && Configured() && HealthLog.IsLog(steps, healthTTL)
      && HealthLog.LastStored(steps) ==
         if lastHealthAt.None? then None else Some(HealthLog.Probe(lastHealthAt.value, lastHealthValue))
    }

    constructor (config: Config)
      ensures Valid() && steps == HealthLog.Empty
      ensures baseURL == TrimSlashes(Trim(config.address))
      ensures timeout == if config.timeout > 0 then config.timeout else 5_000_000_000
      ensures retryMax == if config.retryMax > 0 then config.retryMax else 3
      ensures retryBackoff == if config.retryBackoff > 0 then config.retryBackoff else 300_000_000
      ensures healthTTL == if config.healthTTL > 0 then config.healthTTL else 10_000_000_000
    {
      baseURL := TrimSlashes(Trim(config.address));
      timeout := if config.timeout <= 0 then 5 * SECOND else config.timeout;
      retryMax := if config.retryMax <= 0 then 3 else config.retryMax;
      retryBackoff := if config.retryBackoff <= 0 then 300 * MILLISECOND else config.retryBackoff;
      healthTTL := if config.healthTTL <= 0 then 10 * SECOND else config.healthTTL;
      lastHealthAt, lastHealthValue, steps := None, false, HealthLog.Empty;
    }

    /**
     * One call. It delivers only what the worker sent with status 200; a refusal without a cause is the worker's own
     * answer; and a request that cannot even be encoded is tried again, although its error carries status 400.
     */
    method GenerateOnce(request: Request, answer: Request -> Exchange)
      returns (outcome: Outcome, ghost exchange: Exchange)
      ensures exchange == answer(request)
      ensures outcome == OutcomeOf(exchange) && (IsFinal(outcome) <==> IsConclusive(exchange))
      ensures outcome.Delivered? ==>
        exchange.Answered? && exchange.statusCode == 200 && exchange.body == Some(outcome.response)
      ensures outcome.Refused? && !outcome.error.hasCause ==>
        exchange.Answered? && outcome.error.statusCode == exchange.statusCode != 200
      ensures outcome.Refused? ==>
        if outcome.error.hasCause then outcome.error.statusCode in {400, 502, 503} else outcome.error.statusCode != 200
      ensures exchange.MarshalFailed? ==> outcome.Refused? && outcome.error.statusCode == 400 && !IsFinal(outcome)
      ensures exchange.MarshalFailed? ==> outcome.error.message == "failed to marshal embedding request"
      ensures exchange.CallFailed? ==> outcome == Refused(WorkerError(503, "failed to call embedding worker", true))
      ensures exchange.BuildFailed? ==>
        outcome == Refused(WorkerError(502, "failed to build embedding worker request", true))
      ensures exchange.ReadFailed? ==>
        outcome == Refused(WorkerError(502, "failed to read embedding worker response", true))
      ensures exchange.Answered? && exchange.statusCode != 200 ==>
        outcome == Refused(WorkerError(exchange.statusCode, exchange.message, false))
      ensures exchange.Answered? && exchange.statusCode == 200 && exchange.body.None? ==>
        outcome == Refused(WorkerError(502, "failed to parse embedding worker response", true))
    {
      var happened := answer(request);
      exchange := happened;
      outcome := OutcomeOf(happened);
    }

    /**
     * Calls the worker until it delivers, refuses for good, or the tries or the caller's patience run out. The
     * ghost results are the request sent, the exchange of every call, the waits begun, and whether the last of
     * them was cut short.
     */
    method Generate(request: Request, world: World)
      returns (response: Option<Response>, error: Option<WorkerError>,
               ghost sent: Request, ghost calls: seq<Exchange>, ghost waits: seq<int>, ghost cancelled: bool)
      requires Configured()
      ensures sent == request.(model := if Trim(request.model) == "" then "text-embedding-ada-002" else request.model)
      ensures response.Some? <==> error.None?
      ensures |calls| <= retryMax && (calls == [] <==> baseURL == "")
      ensures IsReal(world, sent, calls, waits, cancelled) && IsRetried(calls, waits, retryBackoff, cancelled)
      ensures calls == [] ==> error == Some(WorkerError(503, "embedding worker is not configured", false))
      ensures cancelled ==>
        |calls| < retryMax && error == Some(WorkerError(503, "embedding worker request cancelled", true))
      ensures calls != [] && !cancelled ==>
        && (IsConclusive(calls[|calls| - 1]) || |calls| == retryMax)
        && match OutcomeOf(calls[|calls| - 1])
           case Delivered(delivered) => response == Some(delivered)
           case Refused(refusal) => error == Some(refusal)
      ensures response.Some? ==>
        calls != [] && IsConclusive(calls[|calls| - 1]) && calls[|calls| - 1].body == response
      ensures Total(waits) <= if retryMax >= 2 then retryBackoff + (retryMax - 2) * 2_000_000_000 else 0
    {
      response, error, calls, waits, cancelled := None, None, [], [], false;
      var effective := request;
      if Trim(request.model) == "" {
        effective := request.(model := "text-embedding-ada-002");
      }
      sent := effective;
      if baseURL == "" {
        error := Some(NOT_CONFIGURED);
      } else {
        response, error, calls, waits, cancelled := Retry(effective, world);
      }
      FewWaits(waits, retryBackoff, retryMax);
    }

    /** The loop over the attempts. */
    method Retry(request: Request, world: World)
      returns (response: Option<Response>, error: Option<WorkerError>,
               ghost calls: seq<Exchange>, ghost waits: seq<int>, ghost cancelled: bool)
      requires Configured()
      ensures response.Some? <==> error.None?
      ensures 0 < |calls| <= retryMax && |waits| < retryMax
      ensures IsReal(world, request, calls, waits, cancelled)
      ensures IsRetried(calls, waits, retryBackoff, cancelled)
      ensures cancelled ==> |calls| < retryMax && error == Some(CANCELLED)
      ensures !cancelled ==>
        && (IsConclusive(calls[|calls| - 1]) || |calls| == retryMax)
        && match OutcomeOf(calls[|calls| - 1])
           case Delivered(delivered) => response == Some(delivered)
           case Refused(refusal) => error == Some(refusal)
    {
      response, error, calls, waits, cancelled := None, None, [], [], false;
      var backoff := retryBackoff;
      var attempt := 0;
      while attempt < retryMax
        invariant 0 <= attempt < retryMax && |calls| == |waits| == attempt
        invariant !cancelled && response.None? && error.None? && IsReal(world, request, calls, waits, false)
        invariant backoff == Doubled(retryBackoff, attempt) && IsDoubled(waits, retryBackoff)
        invariant forall i :: 0 <= i < |calls| ==> !IsConclusive(calls[i])
      {
        var outcome, exchange := GenerateOnce(request, world.answer(attempt));
        calls := calls + [exchange];
        if outcome.Delivered? {
          response := Some(outcome.response);
          break;
        }
        if !Retryable(outcome.error) || attempt == retryMax - 1 {
          error := Some(outcome.error);
          break;
        }
        waits := waits + [backoff];
        cancelled := world.givesUp(attempt);
        if world.givesUp(attempt) {
          error := Some(CANCELLED);
          break;
        }
        backoff := backoff * 2;
        if backoff > BACKOFF_CAP {
          backoff := BACKOFF_CAP;
        }
        attempt := attempt + 1;
      }
      DoubledAreScheduled(waits, retryBackoff);
      WaitsDouble(waits, retryBackoff);
    }

    /** The first step, before any lock: the caller reads the clock. */
    ghost method EnterHealthy(now: int)
      requires Valid()
      modifies this`steps
      ensures Valid() && steps == HealthLog.Then(old(steps), HealthLog.Entered(now))
    {
      steps := HealthLog.Then(steps, HealthLog.Entered(now));
    }

    /** The step under the read lock, some time later: the cached answer if it is young enough, else a probe begins. */
    method ReadHealth(now: int) returns (cached: Option<bool>)
      requires Valid() && HealthLog.Has(HealthLog.Waiting(steps), now)
      modifies this`steps
      ensures Valid()
      ensures cached.Some? <==> HealthLog.IsFresh(old(steps), healthTTL, now)
      ensures cached.Some? <==> lastHealthAt.Some? && now - lastHealthAt.value < healthTTL
      ensures cached.Some? ==> cached.value == HealthLog.LastStored(old(steps)).value.healthy
      ensures steps == HealthLog.Then(
                         old(steps), if cached.Some? then HealthLog.Answered(now) else HealthLog.Started(now))
    {
      if lastHealthAt.Some? && now - lastHealthAt.value < healthTTL {
        steps := HealthLog.Then(steps, HealthLog.Answered(now));
        return Some(lastHealthValue);
      }
      steps := HealthLog.Then(steps, HealthLog.Started(now));
      return None;
    }

    /** The step under the write lock, any time later: what the probe found goes into the cache. */
    method StoreHealth(now: int, healthy: bool)
      requires Valid() && HealthLog.Has(HealthLog.Probing(steps), now)
      modifies this
      ensures Valid() && steps == HealthLog.Then(old(steps), HealthLog.Stored(now, healthy))
    {
      lastHealthAt, lastHealthValue := Some(now), healthy;
      steps := HealthLog.Then(steps, HealthLog.Stored(now, healthy));
    }

    /** All steps with no other caller's in between; a probe gets these answers from its two routes. */
    method Healthy(now: int, probe: nat -> Option<int>) returns (healthy: bool)
      requires Valid()
      modifies this
      ensures Valid()
      ensures baseURL == "" ==> !healthy && steps == old(steps)
      ensures baseURL != "" ==>
        && HealthLog.LastStored(steps).Some? && healthy == HealthLog.LastStored(steps).value.healthy
        && HealthLog.IsFresh(steps, healthTTL, now)
        && var entered := HealthLog.Then(old(steps), HealthLog.Entered(now));
           steps ==
           if HealthLog.IsFresh(old(steps), healthTTL, now) then HealthLog.Then(entered, HealthLog.Answered(now))
           else HealthLog.Then(HealthLog.Then(entered, HealthLog.Started(now)), HealthLog.Stored(now, healthy))
      ensures baseURL != "" && !HealthLog.IsFresh(old(steps), healthTTL, now) ==> (healthy <==> IsUp(probe))
    {
      if baseURL == "" {
        return false;
      }
      EnterHealthy(now);
      var cached := ReadHealth(now);
      if cached.Some? {
        return cached.value;
      }
      healthy := ProbeHealth(probe);
      StoreHealth(now, healthy);
    }

    /** Asks two routes in turn; an answer without a server error will do. */
    method ProbeHealth(probe: nat -> Option<int>) returns (healthy: bool)
      ensures healthy <==> IsUp(probe)
    {
      var attempt := 0;
      while attempt < 2
        invariant forall i: nat :: i < attempt <= 2 ==> probe(i).None? || probe(i).value >= 500
      {
        var status := probe(attempt);
        if status.Some? && status.value < 500 {
          return true;
        }
        attempt := attempt + 1;
      }
      return false;
    }
  }
}
