/** Runs of the registry that handle one request after another. */
module RegistryRuns {
  import opened Breaker
  import opened Registry
  import opened Routing
  import opened Upstream

  // ---------- What the reply of one request says ----------

  datatype Exchange = Exchange(request: ChatCompletionRequest, queue: seq<Route>, trace: seq<Attempt>, reply: Result)

  ghost predicate Exchanged(providers: set<string>, before: Breakers, exchange: Exchange, after: Breakers) {
    Served(providers, before, exchange.request, exchange.queue, exchange.trace, exchange.reply, after)
  }

  ghost predicate Succeeds(attempt: Attempt) {
    attempt.Called? && attempt.result.Ok?
  }

  /** Every earlier route lacked a client, was denied, or failed with a status other than 400. */
  ghost predicate PassedOver(attempt: Attempt) {
    attempt.Called? ==> attempt.result.Fail? && attempt.result.error.statusCode != STATUS_BAD_REQUEST
  }

  /** A request succeeds exactly when some route does, with that route's response and no route tried after it. */
  lemma FirstSuccessAnswers(providers: set<string>, before: Breakers, exchange: Exchange, after: Breakers)
    requires Exchanged(providers, before, exchange, after)
    ensures
      var trace := exchange.trace;
      exchange.reply.Ok? <==>
      trace != [] && Succeeds(trace[|trace| - 1]) && exchange.reply == trace[|trace| - 1].result
    ensures forall i :: 0 <= i < |exchange.trace| - 1 ==> PassedOver(exchange.trace[i])
    ensures forall i :: 0 <= i < |exchange.trace| && Succeeds(exchange.trace[i]) ==> i == |exchange.trace| - 1
  {
  }

  /** When the breakers of all queued routes deny, nothing is called, no breaker changes and 503 is the answer. */
  lemma AllDeniedTouchesNothing(providers: set<string>, before: Breakers, exchange: Exchange, after: Breakers)
    requires Exchanged(providers, before, exchange, after)
    requires forall i :: 0 <= i < |exchange.trace| ==> exchange.trace[i].Denied?
    ensures |exchange.trace| == |exchange.queue|
    ensures exchange.reply == Fail(AllCircuitOpen())
    ensures after == before
  {
  }

  /** The attempt ends a request: it succeeded, or failed with 400. */
  ghost predicate Ends(attempt: Attempt) {
    attempt.Called? && (attempt.result.Ok? || attempt.result.error.statusCode == 400)
  }

  /**
   * Routes are tried in queue order up to the first that succeeds or fails with 400, and to the end of the queue if
   * none does: every other failure, every denial and every missing client sends the request on to the next route.
   */
  lemma TriesUntilSuccessOr400(providers: set<string>, before: Breakers, exchange: Exchange, after: Breakers)
    requires Exchanged(providers, before, exchange, after)
    ensures |exchange.trace| <= |exchange.queue|
    ensures forall i :: 0 <= i < |exchange.trace| ==> exchange.trace[i].route == exchange.queue[i]
    ensures forall i :: 0 <= i < |exchange.trace| && Ends(exchange.trace[i]) ==> i == |exchange.trace| - 1
    ensures |exchange.trace| < |exchange.queue| ==>
      exchange.trace != [] && Ends(exchange.trace[|exchange.trace| - 1])
  {
  }

  /** `k` is the last attempt that was not denied. */
  ghost predicate IsLastTried(trace: seq<Attempt>, k: nat) {
    k < |trace| && !trace[k].Denied? && forall i :: k < i < |trace| ==> trace[i].Denied?
  }

  lemma LastTriedIsUnique(trace: seq<Attempt>, k: nat)
    requires IsLastTried(trace, k)
    ensures forall last: nat :: IsLastUndenied(trace, last) ==> last == k
  {
  }

  /**
   * A request that fails reports the last route that was tried: its missing client as a 503, or its upstream's
   * error under the route's own names. If every route was denied, the answer is a 503 that names none.
   */
  lemma FailureNamesLastTried(providers: set<string>, before: Breakers, exchange: Exchange, after: Breakers, k: nat)
    requires Exchanged(providers, before, exchange, after) && exchange.reply.Fail?
    ensures (forall i :: 0 <= i < |exchange.trace| ==> exchange.trace[i].Denied?) ==>
      exchange.reply.error == UpstreamError("", "", 503, "all candidate routes are circuit-open", false)
    ensures IsLastTried(exchange.trace, k) ==>
      var attempt, error := exchange.trace[k], exchange.reply.error;
      && error.provider == attempt.route.providerName && error.model == attempt.route.modelName
      && (attempt.NoClient? ==>
            error.statusCode == 503 && error.message == "provider client is not configured" && !error.hasInner)
      && (attempt.Called? ==>
            && attempt.result.Fail? && error.statusCode == attempt.result.error.statusCode
            && error.message == attempt.result.error.message && error.hasInner == attempt.result.error.hasInner)
  {
    if IsLastTried(exchange.trace, k) {
      LastTriedIsUnique(exchange.trace, k);
    }
  }

  /** Failures that count against a route: transport errors, overload and server errors. */
  ghost predicate Counts(error: UpstreamError) {
    || error.hasInner || error.statusCode == 429 || error.statusCode == 500 || error.statusCode == 502
    || error.statusCode == 503 || error.statusCode == 504
  }

  /**
   * What an attempt does to its route's breaker: a denial finds it open and leaves it so; a call finds it closed,
   * or open for its whole timeout, and then adds a failure that counts or clears it.
   */
  lemma AttemptMovesBreaker(providers: set<string>, before: Breakers, exchange: Exchange, after: Breakers, i: nat)
    requires Exchanged(providers, before, exchange, after)
    requires i < |exchange.trace| && !exchange.trace[i].NoClient?
    ensures
      var attempt := exchange.trace[i];
      var key := attempt.route.providerName + ":" + attempt.route.modelName;
      var was := if key in before then before[key] else State(3, 30_000_000_000, 0, 0);
      var open := was.openedAt != 0 && attempt.now - was.openedAt < was.timeout;
      && key in after && attempt.route.providerName in providers
      && (attempt.Denied? ==> open && after[key] == was)
      && (attempt.Called? ==>
            && !open && after[key].threshold == was.threshold && after[key].timeout == was.timeout
            && attempt.sent == exchange.request.(model := attempt.route.modelName)
            && if attempt.result.Fail? && Counts(attempt.result.error) then
                 && after[key].failures == 1 + (if was.openedAt == 0 then was.failures else 0)
                 && after[key].openedAt == if after[key].failures >= was.threshold then attempt.now else 0
               else
                 after[key].failures == 0 && after[key].openedAt == 0)
  {
    assert CircuitKey(exchange.trace[i].route) == AttemptKey(exchange.trace[i]);
  }

  // ---------- Runs ----------

  ghost predicate IsStep(providers: set<string>, states: seq<Breakers>, run: seq<Exchange>, i: nat)
    requires i < |run| && i + 1 < |states|
  {
    Exchanged(providers, states[i], run[i], states[i + 1])
  }

  /** `states[i]` are the breakers just before request `i`. */
  ghost predicate IsRun(providers: set<string>, states: seq<Breakers>, run: seq<Exchange>) {
    |states| == |run| + 1 && forall i: nat :: i < |run| ==> IsStep(providers, states, run, i)
  }

  ghost predicate ClockIsReal(run: seq<Exchange>) {
    forall i, a :: 0 <= i < |run| && a in run[i].trace && !a.NoClient? ==> a.now != ZERO_TIME
  }

  /** The clock never reads the zero instant, and later requests do not read earlier times. */
  ghost predicate ClockForward(run: seq<Exchange>) {
    && ClockIsReal(run)
    && forall i, j, a, b ::
         0 <= i < j < |run| && a in run[i].trace && b in run[j].trace && !a.NoClient? && !b.NoClient? ==>
         a.now <= b.now
  }

  /** Every call that reaches the route fails with an error that trips its breaker. */
  ghost predicate Dead(run: seq<Exchange>, key: string) {
    forall i, a :: 0 <= i < |run| && a in run[i].trace && a.Called? && AttemptKey(a) == key ==>
      a.result.Fail? && ShouldTripCircuit(a.result.error)
  }

  /** The times at which a route's upstream was called. */
  function CallsIn(trace: seq<Attempt>, key: string): seq<int> {
    if trace == [] then []
    else
      var last := trace[|trace| - 1];
      CallsIn(trace[..|trace| - 1], key) + if last.Called? && AttemptKey(last) == key then [last.now] else []
  }

  function CallsByRequest(run: seq<Exchange>, key: string): seq<seq<int>> {
    seq(|run|, i requires 0 <= i < |run| => CallsIn(run[i].trace, key))
  }

  function CallTimes(run: seq<Exchange>, key: string): seq<int> {
    Flatten(CallsByRequest(run, key))
  }

  ghost predicate DistinctAttempts(trace: seq<Attempt>) {
    forall i, j :: 0 <= i < j < |trace| ==> AttemptKey(trace[i]) != AttemptKey(trace[j])
  }

  lemma {:induction false} NoAttemptNoCall(trace: seq<Attempt>, key: string)
    requires forall i :: 0 <= i < |trace| ==> AttemptKey(trace[i]) != key
    ensures CallsIn(trace, key) == []
  {
    if trace != [] {
      NoAttemptNoCall(trace[..|trace| - 1], key);
    }
  }

  /** A trace of distinct routes calls a route at most once: exactly when it has a `Called` attempt for it. */
  lemma {:induction false} AtMostOneCall(trace: seq<Attempt>, key: string) returns (i: nat)
    requires DistinctAttempts(trace)
    ensures i <= |trace|
    ensures i < |trace| ==> AttemptKey(trace[i]) == key && trace[i].Called? && CallsIn(trace, key) == [trace[i].now]
    ensures i == |trace| ==> CallsIn(trace, key) == [] && forall a :: a in trace && a.Called? ==> AttemptKey(a) != key
  {
    i := 0;
    if trace != [] {
      var init, last := trace[..|trace| - 1], trace[|trace| - 1];
      assert trace == init + [last];
      if last.Called? && AttemptKey(last) == key {
        NoAttemptNoCall(init, key);
        i := |init|;
      } else {
        i := AtMostOneCall(init, key);
        if i == |init| {
          i := |trace|;
        }
      }
    }
  }

  // ---------- Well-formed breakers ----------

  ghost predicate AllSettled(breakers: Breakers) {
    forall key :: key in breakers ==> Settled(breakers[key])
  }

  lemma AttemptKeepsSettled(breaker: State, attempt: Attempt)
    requires Settled(breaker)
    requires attempt.Called? ==> attempt.now != ZERO_TIME && !IsOpenAt(breaker, attempt.now)
    ensures Settled(AfterAttempt(breaker, attempt))
  {
  }

  /** One exchange keeps every breaker closed below its threshold and open at it. */
  lemma ExchangeKeepsSettled(providers: set<string>, before: Breakers, exchange: Exchange, after: Breakers)
    requires AllSettled(before) && Exchanged(providers, before, exchange, after)
    requires forall a :: a in exchange.trace && !a.NoClient? ==> a.now != ZERO_TIME
    ensures AllSettled(after)
  {
    forall key | key in after
      ensures Settled(after[key])
    {
      if Touches(exchange.trace, key) {
        var i :| 0 <= i < |exchange.trace| && !exchange.trace[i].NoClient? && AttemptKey(exchange.trace[i]) == key;
        assert exchange.trace[i] in exchange.trace;
        AttemptKeepsSettled(BreakerFor(before, key), exchange.trace[i]);
      }
    }
  }

  /** Handling requests one at a time keeps every breaker closed below its threshold and open at it. */
  lemma {:induction false} RunKeepsSettled(providers: set<string>, states: seq<Breakers>, run: seq<Exchange>, n: nat)
    requires IsRun(providers, states, run) && ClockIsReal(run) && n <= |run|
    requires AllSettled(states[0])
    ensures AllSettled(states[n])
  {
    if n > 0 {
      RunKeepsSettled(providers, states, run, n - 1);
      assert IsStep(providers, states, run, n - 1);
      ExchangeKeepsSettled(providers, states[n - 1], run[n - 1], states[n]);
    }
  }

  /** The exchanges are for the first of the requests, in order, each with what it met with. */
  ghost predicate Answers(run: seq<Exchange>, requests: seq<ChatCompletionRequest>, worlds: seq<World>)
    requires |worlds| == |requests|
  {
    && |run| <= |requests|
    && forall i :: 0 <= i < |run| ==> run[i].request == requests[i] && IsReal(worlds[i], run[i].trace)
  }

  method HandleOne(registry: Registry, request: ChatCompletionRequest, world: World)
    returns (ghost exchange: Exchange)
    requires registry.Valid() && IsWorld(world)
    modifies registry`circuits, registry.circuits.Values
    ensures registry.Valid() && fresh(registry.circuits.Values - old(registry.circuits.Values))
    ensures exchange.request == request && IsReal(world, exchange.trace)
    ensures Exchanged(registry.providers, old(registry.Breakers()), exchange, registry.Breakers())
  {
    var reply, queue, trace := registry.ChatCompletion(request, world);
    exchange := Exchange(request, queue, trace, reply);
  }

  lemma EarlierStep(providers: set<string>, states: seq<Breakers>, run: seq<Exchange>, i: nat, exchange: Exchange,
                    after: Breakers)
    requires |states| == |run| + 1 && i < |run| && IsStep(providers, states, run, i)
    ensures IsStep(providers, states + [after], run + [exchange], i)
  {
    assert (states + [after])[i] == states[i] && (states + [after])[i + 1] == states[i + 1];
    assert (run + [exchange])[i] == run[i];
  }

  lemma LastStep(providers: set<string>, states: seq<Breakers>, run: seq<Exchange>, exchange: Exchange,
                 after: Breakers)
    requires |states| == |run| + 1 && Exchanged(providers, states[|run|], exchange, after)
    ensures IsStep(providers, states + [after], run + [exchange], |run|)
  {
    assert (states + [after])[|run|] == states[|run|] && (states + [after])[|run| + 1] == after;
    assert (run + [exchange])[|run|] == exchange;
  }

  lemma RunOneMore(providers: set<string>, states: seq<Breakers>, run: seq<Exchange>, exchange: Exchange,
                   after: Breakers)
    requires IsRun(providers, states, run) && Exchanged(providers, states[|run|], exchange, after)
    ensures IsRun(providers, states + [after], run + [exchange])
  {
    forall i: nat | i <= |run|
      ensures IsStep(providers, states + [after], run + [exchange], i)
    {
      if i < |run| {
        EarlierStep(providers, states, run, i, exchange, after);
      } else {
        LastStep(providers, states, run, exchange, after);
      }
    }
  }

  lemma AnswersOneMore(run: seq<Exchange>, requests: seq<ChatCompletionRequest>, worlds: seq<World>, exchange: Exchange)
    requires |worlds| == |requests| && Answers(run, requests, worlds) && |run| < |requests|
    requires exchange.request == requests[|run|] && IsReal(worlds[|run|], exchange.trace)
    ensures Answers(run + [exchange], requests, worlds)
  {
  }

  /** A registry handles requests one after another: a run, whose states are those of its breakers. */
  method HandleAll(registry: Registry, requests: seq<ChatCompletionRequest>, worlds: seq<World>)
    returns (ghost states: seq<Breakers>, ghost run: seq<Exchange>)
    requires registry.Valid() && |worlds| == |requests|
    requires forall i :: 0 <= i < |worlds| ==> IsWorld(worlds[i])
    modifies registry`circuits, registry.circuits.Values
    ensures registry.Valid() && fresh(registry.circuits.Values - old(registry.circuits.Values))
    ensures |run| == |requests| && Answers(run, requests, worlds)
    ensures IsRun(registry.providers, states, run)
    ensures states[0] == old(registry.Breakers()) && states[|run|] == registry.Breakers()
  {
    states, run := [registry.Breakers()], [];
    for n := 0 to |requests|
      invariant registry.Valid() && fresh(registry.circuits.Values - old(registry.circuits.Values))
      invariant |run| == n && Answers(run, requests, worlds)
      invariant IsRun(registry.providers, states, run)
      invariant states[0] == old(registry.Breakers()) && states[n] == registry.Breakers()
    {
      var exchange := HandleOne(registry, requests[n], worlds[n]);
      RunOneMore(registry.providers, states, run, exchange, registry.Breakers());
      AnswersOneMore(run, requests, worlds, exchange);
      states, run := states + [registry.Breakers()], run + [exchange];
    }
  }

  /** A new registry's breakers are closed and below their thresholds. */
  lemma NewRegistryIsSettled(registry: Registry, keys: set<string>)
    requires registry.FreshBreakers(keys)
    ensures AllSettled(registry.Breakers())
  {
  }

  // ---------- The dead upstream ----------

  lemma ExchangeIsDeadStep(providers: set<string>, before: Breakers, exchange: Exchange, after: Breakers, key: string)
    requires Exchanged(providers, before, exchange, after)
    requires forall a :: a in exchange.trace && a.Called? && AttemptKey(a) == key ==>
      a.result.Fail? && ShouldTripCircuit(a.result.error)
    ensures DeadStep(BreakerFor(before, key), CallsIn(exchange.trace, key), BreakerFor(after, key))
  {
    var trace := exchange.trace;
    var i := AtMostOneCall(trace, key);
    if i < |trace| {
      assert trace[i] in trace;
    } else if Touches(trace, key) {
      var j :| 0 <= j < |trace| && !trace[j].NoClient? && AttemptKey(trace[j]) == key;
      assert trace[j] in trace;
    }
  }

  lemma {:induction false} CallIsAttempt(trace: seq<Attempt>, key: string, now: int)
    requires now in CallsIn(trace, key)
    ensures exists a :: a in trace && a.Called? && AttemptKey(a) == key && a.now == now
  {
    var init, last := trace[..|trace| - 1], trace[|trace| - 1];
    assert trace == init + [last];
    if now in CallsIn(init, key) {
      CallIsAttempt(init, key, now);
      var a :| a in init && a.Called? && AttemptKey(a) == key && a.now == now;
      assert a in trace;
    }
  }

  function StatesOf(states: seq<Breakers>, key: string): seq<State> {
    seq(|states|, i requires 0 <= i < |states| => BreakerFor(states[i], key))
  }

  /** Seen through one dead route's key, a run of the registry is a run of its breaker. */
  lemma DeadRouteIsDeadRun(providers: set<string>, states: seq<Breakers>, run: seq<Exchange>, key: string)
    requires IsRun(providers, states, run) && ClockForward(run) && Dead(run, key)
    ensures IsDeadRun(StatesOf(states, key), CallsByRequest(run, key))
  {
    var calls := CallsByRequest(run, key);
    forall i | 0 <= i < |run|
      ensures DeadStep(BreakerFor(states[i], key), calls[i], BreakerFor(states[i + 1], key))
    {
      assert IsStep(providers, states, run, i);
      ExchangeIsDeadStep(providers, states[i], run[i], states[i + 1], key);
    }
    forall j, now | 0 <= j < |run| && now in calls[j]
      ensures now != ZERO_TIME
      ensures forall i, was :: 0 <= i < j && was in calls[i] ==> was <= now
    {
      CallIsAttempt(run[j].trace, key, now);
      forall i, was | 0 <= i < j && was in calls[i]
        ensures was <= now
      {
        CallIsAttempt(run[i].trace, key, was);
      }
    }
  }

  /**
   * With requests handled one at a time, a clock that does not run backwards and an upstream whose every answer
   * trips the breaker, the calls that reach it from its first call up to any time `t` number at most
   * `threshold * (floor((t - first) / timeout) + 1)`.
   */
  lemma DeadRouteBound(providers: set<string>, states: seq<Breakers>, run: seq<Exchange>, key: string, n: nat, t: int)
    requires IsRun(providers, states, run) && ClockForward(run) && Dead(run, key)
    requires AllSettled(states[0])
    requires 0 < n <= |CallTimes(run, key)| && CallTimes(run, key)[n - 1] <= t
    ensures WithinDeadBound(BreakerFor(states[0], key), n, t - CallTimes(run, key)[0])
  {
    DeadRouteIsDeadRun(providers, states, run, key);
    DeadRunBound(StatesOf(states, key), CallsByRequest(run, key), n, t);
  }
}
