/** The provider registry: weighted routing, fallback and circuit breaking for one request after another. */
module Registry {
  import opened Breaker
  import opened Routing
  import opened Text
  import opened Upstream
  import opened Options
  import WeightedOrder

  type Random = WeightedOrder.Random

  const DEFAULT_MODEL := "gpt-4"

  /** What happened to one route of the queue. */
  datatype Attempt =
    | NoClient(route: Route)
    | Denied(route: Route, now: int)
    | Called(route: Route, now: int, sent: ChatCompletionRequest, result: Result)

  function AttemptKey(attempt: Attempt): string {
    CircuitKey(attempt.route)
  }

  // ---------- What serving one request means ----------

  /** The request is settled by a success or by an error that must not be retried elsewhere. */
  predicate Settles(attempt: Attempt) {
    attempt.Called? && (attempt.result.Ok? || !ShouldFallback(attempt.result.error))
  }

  function NotConfigured(route: Route): UpstreamError {
    UpstreamError(route.providerName, route.modelName, STATUS_SERVICE_UNAVAILABLE,
                  "provider client is not configured", false)
  }

  function AllCircuitOpen(): UpstreamError {
    UpstreamError("", "", STATUS_SERVICE_UNAVAILABLE, "all candidate routes are circuit-open", false)
  }

  /** The error that an attempt leaves behind, stamped with its route. */
  function AttemptError(attempt: Attempt): UpstreamError
    requires attempt.NoClient? || (attempt.Called? && attempt.result.Fail?)
  {
    match attempt
    case NoClient(route) => NotConfigured(route)
    case Called(route, _, _, result) =>
      result.error.(provider := route.providerName, model := route.modelName)
  }

  ghost predicate IsLastUndenied(trace: seq<Attempt>, last: nat) {
    last < |trace| && !trace[last].Denied? && forall i :: last < i < |trace| ==> trace[i].Denied?
  }

  /** `error` is what the last attempt that was not denied left behind. */
  ghost predicate LastErrorIs(trace: seq<Attempt>, error: UpstreamError) {
    exists last: nat :: IsLastUndenied(trace, last) && !Settles(trace[last]) && error == AttemptError(trace[last])
  }

  /** What `reply` must be after these attempts: the settling attempt's, else the last error that occurred. */
  ghost predicate IsReply(trace: seq<Attempt>, reply: Result) {
    if trace != [] && Settles(trace[|trace| - 1]) then
      match trace[|trace| - 1].result
      case Ok(response) => reply == Ok(response)
      case Fail(_) => reply == Fail(AttemptError(trace[|trace| - 1]))
    else if forall i :: 0 <= i < |trace| ==> trace[i].Denied? then
      reply == Fail(AllCircuitOpen())
    else
      reply.Fail? && LastErrorIs(trace, reply.error)
  }

  /** The attempts follow the queue from its start and end with it, or early at the first settling one. */
  ghost predicate Follows(queue: seq<Route>, trace: seq<Attempt>) {
    && |trace| <= |queue|
    && (forall i :: 0 <= i < |trace| ==> trace[i].route == queue[i])
    && (forall i :: 0 <= i < |trace| - 1 ==> !Settles(trace[i]))
    && (|trace| < |queue| ==> trace != [] && Settles(trace[|trace| - 1]))
  }

  type Breakers = map<string, State>

  function BreakerFor(breakers: Breakers, key: string): State {
    if key in breakers then breakers[key] else Fresh(DEFAULT_FAILURE_THRESHOLD, DEFAULT_OPEN_TIMEOUT)
  }

  /** Each attempt did what the providers, and the breakers as they stood before the request, call for. */
  ghost predicate Justified(providers: set<string>, before: Breakers, request: ChatCompletionRequest,
                            attempt: Attempt) {
    var breaker := BreakerFor(before, AttemptKey(attempt));
    match attempt
    case NoClient(route) => route.providerName !in providers
    case Denied(route, now) => route.providerName in providers && IsOpenAt(breaker, now)
    case Called(route, now, sent, _) =>
      && route.providerName in providers && !IsOpenAt(breaker, now)
      && sent == request.(model := route.modelName)
  }

  /** How an attempt leaves the breaker of its route. */
  function AfterAttempt(breaker: State, attempt: Attempt): State {
    match attempt
    case NoClient(_) => breaker
    case Denied(_, now) => breaker
    case Called(_, now, _, Ok(_)) => AfterSuccess(AfterAllow(breaker, now))
    case Called(_, now, _, Fail(error)) =>
      if ShouldTripCircuit(error) then AfterFailure(AfterAllow(breaker, now), now)
      else AfterSuccess(AfterAllow(breaker, now))
  }

  ghost predicate Touches(trace: seq<Attempt>, key: string) {
    exists i :: 0 <= i < |trace| && !trace[i].NoClient? && AttemptKey(trace[i]) == key
  }

  /** Only the breakers of attempted routes are created or changed, each by its own attempt. */
  ghost predicate BreakersFollow(before: Breakers, trace: seq<Attempt>, after: Breakers) {
    && (forall key :: key in after <==> key in before || Touches(trace, key))
    && (forall key :: key in before && !Touches(trace, key) ==> after[key] == before[key])
    && (forall i :: 0 <= i < |trace| && !trace[i].NoClient? ==>
          var key := AttemptKey(trace[i]);
          key in after && after[key] == AfterAttempt(BreakerFor(before, key), trace[i]))
  }

  /** One request served along a queue of distinct keys. */
  ghost predicate Served(providers: set<string>, before: Breakers, request: ChatCompletionRequest, queue: seq<Route>,
                         trace: seq<Attempt>, reply: Result, after: Breakers) {
    && queue != [] && DistinctKeys(queue)
    && Follows(queue, trace)
    && (forall i :: 0 <= i < |trace| ==> Justified(providers, before, request, trace[i]))
    && IsReply(trace, reply)
    && BreakersFollow(before, trace, after)
  }

  // ---------- The queue, model by model ----------

  /** A random source for each model of the chain. */
  type Sources = nat -> Random

  ghost predicate AreRandom(random: Sources) {
    forall m :: WeightedOrder.IsRandom(random(m))
  }

  /** A model's routes joined the queue in an order drawn by weight, each key once. */
  ghost predicate IsEnqueued(random: Random, routes: map<string, seq<Route>>, model: string,
                             queue: seq<Route>, longer: seq<Route>) {
    exists ordered ::
      && WeightedOrder.IsWeighted(random, RoutesFor(routes, model), ordered)
      && longer == EnqueueAll(queue, ordered)
  }

  /** The queue was built model by model along the chain. */
  ghost predicate IsDrawnQueue(random: Sources, routes: map<string, seq<Route>>, chain: seq<string>,
                               queue: seq<Route>) {
    if chain == [] then queue == []
    else
      var init, last := chain[..|chain| - 1], chain[|chain| - 1];
      exists before ::
        IsDrawnQueue(random, routes, init, before) && IsEnqueued(random(|init|), routes, last, before, queue)
  }

  /** A queue of the routes of the model and of everything it falls back to, drawn by weight. */
  ghost predicate IsQueueFor(random: Sources, fallbacks: map<string, string>, routes: map<string, seq<Route>>,
                             model: string, queue: seq<Route>) {
    exists chain ::
      && ResolvesTo(fallbacks, model, chain) && IsRouteQueue(routes, chain, queue)
      && IsDrawnQueue(random, routes, chain, queue)
  }

  lemma PrefixOneMore(chain: seq<string>, m: nat)
    requires m < |chain|
    ensures chain[..m + 1] == chain[..m] + [chain[m]]
  {
  }

  lemma SameElements<T>(a: seq<T>, b: seq<T>)
    requires multiset(a) == multiset(b)
    ensures forall x :: x in a <==> x in b
  {
    forall x
      ensures x in a <==> x in b
    {
      assert x in a <==> x in multiset(a);
      assert x in b <==> x in multiset(b);
    }
  }

  lemma EnqueuedOrder(random: Random, routes: map<string, seq<Route>>, model: string, queue: seq<Route>,
                      longer: seq<Route>)
    returns (ordered: seq<Route>)
    requires IsEnqueued(random, routes, model, queue, longer)
    ensures longer == EnqueueAll(queue, ordered)
    ensures forall route :: route in ordered <==> route in RoutesFor(routes, model)
  {
    ordered :|
      && WeightedOrder.IsWeighted(random, RoutesFor(routes, model), ordered)
      && longer == EnqueueAll(queue, ordered);
    SameElements(ordered, RoutesFor(routes, model));
  }

  lemma DrawnOneMore(random: Sources, routes: map<string, seq<Route>>, models: seq<string>, queue: seq<Route>,
                     model: string, longer: seq<Route>)
    requires IsDrawnQueue(random, routes, models, queue) && IsEnqueued(random(|models|), routes, model, queue, longer)
    ensures IsDrawnQueue(random, routes, models + [model], longer)
  {
    assert (models + [model])[..|models|] == models;
  }

  /** Enqueueing the next model of the chain extends the queue to one model more. */
  lemma QueueOneMore(random: Sources, routes: map<string, seq<Route>>, chain: seq<string>, m: nat, queue: seq<Route>,
                     longer: seq<Route>)
    requires m < |chain|
    requires IsRouteQueue(routes, chain[..m], queue) && IsDrawnQueue(random, routes, chain[..m], queue)
    requires IsEnqueued(random(m), routes, chain[m], queue, longer)
    ensures IsRouteQueue(routes, chain[..m + 1], longer) && IsDrawnQueue(random, routes, chain[..m + 1], longer)
  {
    PrefixOneMore(chain, m);
    var ordered := EnqueuedOrder(random(m), routes, chain[m], queue, longer);
    EnqueueModel(routes, chain[..m], chain[m], queue, ordered);
    DrawnOneMore(random, routes, chain[..m], queue, chain[m], longer);
  }

  lemma LastOfChain(chain: seq<string>)
    requires chain != [] && NoRepeats(chain)
    ensures chain == chain[..|chain| - 1] + [chain[|chain| - 1]] && NoRepeats(chain[..|chain| - 1])
  {
  }

  lemma EnqueuedInChainOrder(random: Random, routes: map<string, seq<Route>>, models: seq<string>, queue: seq<Route>,
                             m: string, longer: seq<Route>)
    requires IsEnqueued(random, routes, m, queue, longer) && FiledByModel(routes)
    requires InChainOrder(models, queue) && NoRepeats(models + [m])
    ensures InChainOrder(models + [m], longer)
  {
    var ordered := EnqueuedOrder(random, routes, m, queue, longer);
    EnqueueAllAppends(queue, ordered);
    ChainOrderOneMore(models, queue, m, longer);
  }

  /** Whatever the providers are called, the queue lists the models of the chain in chain order. */
  lemma {:induction false} ModelsInChainOrder(random: Sources, routes: map<string, seq<Route>>, chain: seq<string>,
                                              queue: seq<Route>)
    requires IsDrawnQueue(random, routes, chain, queue) && FiledByModel(routes) && NoRepeats(chain)
    ensures InChainOrder(chain, queue)
    decreases |chain|
  {
    if chain != [] {
      var init, m := chain[..|chain| - 1], chain[|chain| - 1];
      LastOfChain(chain);
      var before :|
        IsDrawnQueue(random, routes, init, before) && IsEnqueued(random(|init|), routes, m, before, queue);
      ModelsInChainOrder(random, routes, init, before);
      EnqueuedInChainOrder(random(|init|), routes, init, before, m, queue);
    }
  }

  lemma {:induction false} EnqueuedStart(routes: seq<Route>)
    requires routes != []
    ensures EnqueueAll([], routes) != [] && EnqueueAll([], routes)[0] == routes[0]
  {
    if |routes| > 1 {
      EnqueuedStart(routes[..|routes| - 1]);
    } else {
      assert routes[..0] == [] && EnqueueAll([], routes) == [routes[0]];
    }
  }

  /** The queue starts with a route of the model that heads the chain. */
  lemma {:induction false} DrawnQueueStarts(random: Sources, routes: map<string, seq<Route>>, chain: seq<string>,
                                            queue: seq<Route>)
    requires IsDrawnQueue(random, routes, chain, queue) && chain != []
    ensures queue != [] && queue[0] in RoutesFor(routes, chain[0])
    decreases |chain|
  {
    var init, m := chain[..|chain| - 1], chain[|chain| - 1];
    var before :|
      IsDrawnQueue(random, routes, init, before) && IsEnqueued(random(|init|), routes, m, before, queue);
    var ordered := EnqueuedOrder(random(|init|), routes, m, before, queue);
    if init == [] {
      assert RoutesFor(routes, m)[0] in ordered;
      EnqueuedStart(ordered);
    } else {
      DrawnQueueStarts(random, routes, init, before);
      EnqueueAllAppends(before, ordered);
    }
  }

  /** Whatever else is queued behind it, the first route to be tried is one of the requested model's own. */
  lemma QueueStartsWithModel(random: Sources, fallbacks: map<string, string>, routes: map<string, seq<Route>>,
                             model: string, queue: seq<Route>)
    requires IsQueueFor(random, fallbacks, routes, model, queue) && FiledByModel(routes) && Trim(model) == model != ""
    ensures queue != [] && queue[0].modelName == model
    ensures model in routes && routes[model] != [] ==> queue[0] in routes[model]
    ensures model !in routes ==> queue[0] == Route(model, DetectProvider(model), 1, "")
  {
    var chain :|
      && ResolvesTo(fallbacks, model, chain) && IsRouteQueue(routes, chain, queue)
      && IsDrawnQueue(random, routes, chain, queue);
    DrawnQueueStarts(random, routes, chain, queue);
  }

  /** What a queued model falls back to is queued as well, every route of it by its provider and model. */
  lemma FallbacksAreQueued(random: Sources, fallbacks: map<string, string>, routes: map<string, seq<Route>>,
                           model: string, queue: seq<Route>, i: nat, next: string, route: Route)
    requires IsQueueFor(random, fallbacks, routes, model, queue) && FiledByModel(routes) && Trim(model) == model != ""
    requires i < |queue| && FallsBackTo(fallbacks, queue[i].modelName, next)
    requires next in routes && route in routes[next]
    ensures exists q :: q in queue && q.providerName + ":" + q.modelName == route.providerName + ":" + route.modelName
  {
    var chain :|
      && ResolvesTo(fallbacks, model, chain) && IsRouteQueue(routes, chain, queue)
      && IsDrawnQueue(random, routes, chain, queue);
    QueuedModelIsInChain(routes, chain, queue, i);
    FallbackIsInChain(fallbacks, model, chain, queue[i].modelName, next);
    RouteIsQueued(routes, chain, queue, next, route);
  }

  function RequestedModel(request: ChatCompletionRequest): string {
    if Trim(request.model) == "" then DEFAULT_MODEL else Trim(request.model)
  }

  /** The queue of a request starts with the model it asks for, or with gpt-4 if it asks for none. */
  lemma RequestIsQueued(random: Sources, fallbacks: map<string, string>, routes: map<string, seq<Route>>,
                        request: ChatCompletionRequest, queue: seq<Route>)
    requires IsQueueFor(random, fallbacks, routes, RequestedModel(request), queue)
    ensures FiledByModel(routes) ==>
      queue != [] && queue[0].modelName == if Trim(request.model) == "" then "gpt-4" else Trim(request.model)
  {
    TrimIdempotent(request.model);
    TrimIsEmptyIff("gpt-4");
    if FiledByModel(routes) {
      QueueStartsWithModel(random, fallbacks, routes, RequestedModel(request), queue);
    }
  }

  // ---------- The failover loop, on values ----------

  function AfterAttempts(breakers: Breakers, attempt: Attempt): Breakers {
    if attempt.NoClient? then breakers
    else
      var key := AttemptKey(attempt);
      breakers[key := AfterAttempt(BreakerFor(breakers, key), attempt)]
  }

  /** The attempt at this position of the queue was called for, and did not settle the request. */
  ghost predicate IsPassed(providers: set<string>, before: Breakers, request: ChatCompletionRequest,
                           queue: seq<Route>, trace: seq<Attempt>, i: nat) {
    && i < |trace| <= |queue| && trace[i].route == queue[i]
    && !Settles(trace[i]) && Justified(providers, before, request, trace[i])
  }

  /** The attempts so far follow the queue, none has settled the request, and `now` is what they left behind. */
  ghost predicate InProgress(providers: set<string>, before: Breakers, request: ChatCompletionRequest,
                             queue: seq<Route>, trace: seq<Attempt>, current: Breakers) {
    && |trace| <= |queue|
    && (forall i: nat :: i < |trace| ==> IsPassed(providers, before, request, queue, trace, i))
    && BreakersFollow(before, trace, current)
  }

  lemma TouchesOneMore(trace: seq<Attempt>, attempt: Attempt)
    ensures forall key ::
      Touches(trace + [attempt], key) <==> Touches(trace, key) || (!attempt.NoClient? && key == AttemptKey(attempt))
  {
    var longer := trace + [attempt];
    forall key
      ensures Touches(longer, key) <==> Touches(trace, key) || (!attempt.NoClient? && key == AttemptKey(attempt))
    {
      if Touches(trace, key) {
        var i :| 0 <= i < |trace| && !trace[i].NoClient? && AttemptKey(trace[i]) == key;
        assert longer[i] == trace[i];
      } else if !attempt.NoClient? && key == AttemptKey(attempt) {
        assert longer[|trace|] == attempt;
      }
    }
  }

  lemma BreakersFollowOneMore(before: Breakers, trace: seq<Attempt>, current: Breakers, attempt: Attempt)
    requires BreakersFollow(before, trace, current)
    requires forall i :: 0 <= i < |trace| ==> AttemptKey(trace[i]) != AttemptKey(attempt)
    requires BreakerFor(current, AttemptKey(attempt)) == BreakerFor(before, AttemptKey(attempt))
    ensures BreakersFollow(before, trace + [attempt], AfterAttempts(current, attempt))
  {
    TouchesOneMore(trace, attempt);
    var longer, after := trace + [attempt], AfterAttempts(current, attempt);
    forall i | 0 <= i < |longer| && !longer[i].NoClient?
      ensures
        var key := AttemptKey(longer[i]);
        key in after && after[key] == AfterAttempt(BreakerFor(before, key), longer[i])
    {
      if i < |trace| {
        assert longer[i] == trace[i];
      }
    }
  }

  lemma AllPassed(providers: set<string>, before: Breakers, request: ChatCompletionRequest, queue: seq<Route>,
                  trace: seq<Attempt>)
    requires |trace| <= |queue|
    requires forall i: nat :: i < |trace| ==> IsPassed(providers, before, request, queue, trace, i)
    ensures forall i :: 0 <= i < |trace| ==>
      trace[i].route == queue[i] && !Settles(trace[i]) && Justified(providers, before, request, trace[i])
  {
    forall i | 0 <= i < |trace|
      ensures trace[i].route == queue[i] && !Settles(trace[i]) && Justified(providers, before, request, trace[i])
    {
      assert IsPassed(providers, before, request, queue, trace, i);
    }
  }

  lemma PassedOneMore(providers: set<string>, before: Breakers, request: ChatCompletionRequest, queue: seq<Route>,
                      trace: seq<Attempt>, attempt: Attempt)
    requires |trace| < |queue| && attempt.route == queue[|trace|]
    requires forall i: nat :: i < |trace| ==> IsPassed(providers, before, request, queue, trace, i)
    requires !Settles(attempt) && Justified(providers, before, request, attempt)
    ensures forall i: nat :: i <= |trace| ==> IsPassed(providers, before, request, queue, trace + [attempt], i)
  {
    forall i: nat | i <= |trace|
      ensures IsPassed(providers, before, request, queue, trace + [attempt], i)
    {
      if i < |trace| {
        assert IsPassed(providers, before, request, queue, trace, i);
      }
    }
  }

  /** An attempt at the next route sees its breaker as it was before the request, and changes no other. */
  lemma ProgressOneMore(providers: set<string>, before: Breakers, request: ChatCompletionRequest,
                        queue: seq<Route>, trace: seq<Attempt>, current: Breakers, attempt: Attempt)
    requires InProgress(providers, before, request, queue, trace, current) && DistinctKeys(queue)
    requires |trace| < |queue| && attempt.route == queue[|trace|]
    requires Justified(providers, current, request, attempt)
    ensures Justified(providers, before, request, attempt)
    ensures BreakersFollow(before, trace + [attempt], AfterAttempts(current, attempt))
    ensures !Settles(attempt) ==>
      InProgress(providers, before, request, queue, trace + [attempt], AfterAttempts(current, attempt))
  {
    var key := AttemptKey(attempt);
    AllPassed(providers, before, request, queue, trace);
    assert forall i :: 0 <= i < |trace| ==> AttemptKey(trace[i]) != key;
    assert !Touches(trace, key);
    assert BreakerFor(current, key) == BreakerFor(before, key);
    BreakersFollowOneMore(before, trace, current, attempt);
    if !Settles(attempt) {
      PassedOneMore(providers, before, request, queue, trace, attempt);
    }
  }

  /** The loop's bookkeeping: the last error that occurred, if any, and how many routes were denied. */
  ghost predicate Bookkept(trace: seq<Attempt>, lastErr: Option<UpstreamError>, skipped: int) {
    && 0 <= skipped <= |trace|
    && (skipped == |trace| <==> forall i :: 0 <= i < |trace| ==> trace[i].Denied?)
    && (lastErr.None? <==> skipped == |trace|)
    && (lastErr.Some? ==> LastErrorIs(trace, lastErr.value))
  }

  lemma BookkeepOneMore(trace: seq<Attempt>, lastErr: Option<UpstreamError>, skipped: int, attempt: Attempt)
    requires Bookkept(trace, lastErr, skipped)
    ensures attempt.Denied? ==> Bookkept(trace + [attempt], lastErr, skipped + 1)
    ensures !attempt.Denied? && !Settles(attempt) ==>
      Bookkept(trace + [attempt], Some(AttemptError(attempt)), skipped)
  {
    var longer := trace + [attempt];
    assert longer[|trace|] == attempt;
    if attempt.Denied? && lastErr.Some? {
      var last: nat :|
        IsLastUndenied(trace, last) && !Settles(trace[last]) && lastErr.value == AttemptError(trace[last]);
      assert IsLastUndenied(longer, last) && longer[last] == trace[last];
    } else if !attempt.Denied? && !Settles(attempt) {
      assert IsLastUndenied(longer, |trace|);
    }
  }

  /** The answer of an attempt that settles the request. */
  function SettledReply(attempt: Attempt): Result
    requires Settles(attempt)
  {
    if attempt.result.Ok? then attempt.result else Fail(AttemptError(attempt))
  }

  /** An attempt that settles the request ends it. */
  lemma SettledIsServed(providers: set<string>, before: Breakers, request: ChatCompletionRequest, queue: seq<Route>,
                        trace: seq<Attempt>, attempt: Attempt, after: Breakers)
    requires DistinctKeys(queue) && |trace| < |queue| && attempt.route == queue[|trace|]
    requires forall i: nat :: i < |trace| ==> IsPassed(providers, before, request, queue, trace, i)
    requires Justified(providers, before, request, attempt) && Settles(attempt)
    requires BreakersFollow(before, trace + [attempt], after)
    ensures Served(providers, before, request, queue, trace + [attempt], SettledReply(attempt), after)
  {
    AllPassed(providers, before, request, queue, trace);
  }

  /** A queue whose every route was tried without settling the request answers from the bookkeeping. */
  lemma ExhaustedIsServed(providers: set<string>, before: Breakers, request: ChatCompletionRequest, queue: seq<Route>,
                          trace: seq<Attempt>, lastErr: Option<UpstreamError>, skipped: int, after: Breakers)
    requires queue != [] && DistinctKeys(queue) && |trace| == |queue|
    requires InProgress(providers, before, request, queue, trace, after)
    requires Bookkept(trace, lastErr, skipped)
    ensures skipped == |trace| ==> Served(providers, before, request, queue, trace, Fail(AllCircuitOpen()), after)
    ensures skipped != |trace| ==>
      lastErr.Some? && Served(providers, before, request, queue, trace, Fail(lastErr.value), after)
  {
    AllPassed(providers, before, request, queue, trace);
  }

  // ---------- Sequences and sets ----------

  lemma SubsetSize<T>(a: set<T>, b: set<T>)
    requires a <= b
    ensures |a| <= |b|
  {
    assert b == a + (b - a);
  }

  // ---------- The registry ----------

  /**
   * What a request meets with: the clock and the upstreams' answers at each route of its queue, and the random
   * source's answers for each model of its chain.
   */
  datatype World = World(clock: nat -> int, upstream: nat -> (string, ChatCompletionRequest) -> Result, random: Sources)

  ghost predicate IsWorld(world: World) {
    AreRandom(world.random)
  }

  ghost predicate IsRealAt(world: World, trace: seq<Attempt>, i: nat)
    requires i < |trace|
  {
    && (!trace[i].NoClient? ==> trace[i].now == world.clock(i))
    && (trace[i].Called? ==> trace[i].result == world.upstream(i)(trace[i].route.providerName, trace[i].sent))
  }

  /** Times and results are those of the clock and of the route's upstream. */
  ghost predicate IsReal(world: World, trace: seq<Attempt>) {
    forall i: nat :: i < |trace| ==> IsRealAt(world, trace, i)
  }

  lemma RealOneMore(world: World, trace: seq<Attempt>, attempt: Attempt)
    requires IsReal(world, trace)
    requires !attempt.NoClient? ==> attempt.now == world.clock(|trace|)
    requires attempt.Called? ==> attempt.result == world.upstream(|trace|)(attempt.route.providerName, attempt.sent)
    ensures IsReal(world, trace + [attempt])
  {
    forall i: nat | i <= |trace|
      ensures IsRealAt(world, trace + [attempt], i)
    {
      if i < |trace| {
        assert IsRealAt(world, trace, i);
      }
    }
  }

  class Registry {
    var providers: set<string>
    var modelRoutes: map<string, seq<Route>>
    var modelFallbacks: map<string, string>
    var circuits: map<string, CircuitBreaker>

    /** No two keys share a breaker object. */
    ghost predicate Valid()
      reads this
    {
      forall k, l :: k in circuits && l in circuits && k != l ==> circuits[k] != circuits[l]
    }

    ghost function Breakers(): Breakers
      reads this, circuits.Values
    {
      map key | key in circuits :: circuits[key].Snapshot()
    }

    /** There is one breaker for each of these keys, and none has seen anything yet. */
    ghost predicate FreshBreakers(keys: set<string>)
      reads this`circuits, circuits.Values
    {
      && circuits.Keys == keys
      && (forall k, l :: k in circuits && l in circuits && k != l ==> circuits[k] != circuits[l])
      && forall key :: key in circuits ==>
           circuits[key].Snapshot() == Fresh(DEFAULT_FAILURE_THRESHOLD, DEFAULT_OPEN_TIMEOUT)
    }

    constructor (models: seq<ModelConfig>)
      ensures Valid() && fresh(circuits.Values)
      ensures providers == {"openai", "anthropic", "minimax"}
      ensures IsConfigured(Candidates(models), modelRoutes, modelFallbacks)
      ensures FreshBreakers(KeysOf(Candidates(models)))
      ensures forall key :: key in circuits ==> circuits[key].Snapshot() == State(3, 30_000_000_000, 0, 0)
    {
      providers := {"openai", "anthropic", "minimax"};
      modelRoutes, modelFallbacks, circuits := map[], map[], map[];
      new;
      ghost var candidates: seq<Route> := [];
      assert models[..0] == [];
      for i := 0 to |models|
        modifies this
        invariant providers == {"openai", "anthropic", "minimax"}
        invariant candidates == Candidates(models[..i])
        invariant IsConfigured(candidates, modelRoutes, modelFallbacks)
        invariant FreshBreakers(KeysOf(candidates)) && fresh(circuits.Values)
      {
        CandidatesOneMore(models, i);
        candidates := AddModel(models[i], candidates);
      }
      assert models[..|models|] == models;
    }

    method AddModel(model: ModelConfig, ghost candidates: seq<Route>) returns (ghost longer: seq<Route>)
      requires IsConfigured(candidates, modelRoutes, modelFallbacks) && FreshBreakers(KeysOf(candidates))
      modifies this
      ensures longer == if IsRouted(model) then candidates + [Candidate(model)] else candidates
      ensures IsConfigured(longer, modelRoutes, modelFallbacks) && FreshBreakers(KeysOf(longer))
      ensures providers == old(providers) && fresh(circuits.Values - old(circuits.Values))
    {
      if Trim(model.name) == "" || !model.isActive {
        return candidates;
      }
      var candidate := Candidate(model);
      AddCandidate(candidate, candidates);
      return candidates + [candidate];
    }

    method AddCandidate(candidate: Route, ghost candidates: seq<Route>)
      requires IsConfigured(candidates, modelRoutes, modelFallbacks) && FreshBreakers(KeysOf(candidates))
      modifies this
      ensures IsConfigured(candidates + [candidate], modelRoutes, modelFallbacks)
      ensures FreshBreakers(KeysOf(candidates + [candidate]))
      ensures providers == old(providers) && fresh(circuits.Values - old(circuits.Values))
    {
      FileCandidate(candidate, candidates);
      KeysOfOneMore(candidates, candidate);
      NewCircuit(candidate);
    }

    method FileCandidate(candidate: Route, ghost candidates: seq<Route>)
      requires IsConfigured(candidates, modelRoutes, modelFallbacks)
      modifies this`modelRoutes, this`modelFallbacks
      ensures IsConfigured(candidates + [candidate], modelRoutes, modelFallbacks)
    {
      ConfigureOneMore(candidates, modelRoutes, modelFallbacks, candidate);
      var name := candidate.modelName;
      modelRoutes := modelRoutes[name := (if name in modelRoutes then modelRoutes[name] else []) + [candidate]];
      if candidate.fallback != "" && name !in modelFallbacks {
        modelFallbacks := modelFallbacks[name := candidate.fallback];
      }
    }

    method NewCircuit(candidate: Route)
      requires FreshBreakers(circuits.Keys)
      modifies this`circuits
      ensures FreshBreakers(old(circuits.Keys) + {CircuitKey(candidate)})
      ensures fresh(circuits.Values - old(circuits.Values))
    {
      var breaker := new CircuitBreaker(DEFAULT_FAILURE_THRESHOLD, DEFAULT_OPEN_TIMEOUT);
      assert forall key :: key in circuits ==> circuits[key] in circuits.Values;
      circuits := circuits[CircuitKey(candidate) := breaker];
    }

    method EnsureCircuit(candidate: Route) returns (breaker: CircuitBreaker)
      requires Valid()
      modifies this`circuits
      ensures Valid() && CircuitKey(candidate) in circuits && breaker == circuits[CircuitKey(candidate)]
      ensures circuits.Values == old(circuits.Values) + {breaker}
      ensures breaker in old(circuits.Values) || fresh(breaker)
      ensures
        var key := CircuitKey(candidate);
        Breakers() == old(Breakers())[key := BreakerFor(old(Breakers()), key)]
    {
      var key := CircuitKey(candidate);
      if key in circuits {
        return circuits[key];
      }
      breaker := new CircuitBreaker(DEFAULT_FAILURE_THRESHOLD, DEFAULT_OPEN_TIMEOUT);
      circuits := circuits[key := breaker];
      assert circuits[key] in circuits.Values;
      assert forall k :: k in old(circuits) ==> circuits[k] in circuits.Values && circuits[k] == old(circuits[k]);
    }

    method ResolveModelChain(model: string) returns (chain: seq<string>)
      ensures ResolvesTo(modelFallbacks, model, chain)
      ensures |chain| <= |modelFallbacks| + 1
    {
      ghost var start := Trim(model);
      chain := [];
      var seen: set<string> := {};
      var current := Trim(model);
      while current != ""
        invariant forall m :: m in seen <==> m in chain
        invariant |chain| == |seen| && seen <= modelFallbacks.Keys
        invariant if chain == [] then current == start
                  else IsLinked(modelFallbacks, start, chain)
                       && current == NextModel(modelFallbacks, chain[|chain| - 1]) && current != ""
        decreases modelFallbacks.Keys - seen
      {
        SubsetSize(seen, modelFallbacks.Keys);
        if current in seen {
          break;
        }
        if chain != [] {
          LinkOneMore(modelFallbacks, start, chain, current);
        }
        seen := seen + {current};
        chain := chain + [current];
        var next := NextModel(modelFallbacks, current);
        if next == "" {
          break;
        }
        current := next;
      }
      if start != "" {
        LinkedListIsChain(modelFallbacks, start, chain);
      }
      if |chain| == 0 && model != "" {
        chain := chain + [model];
      }
    }

    method RoutesForModel(model: string) returns (candidates: seq<Route>)
      ensures candidates == RoutesFor(modelRoutes, model) && candidates != []
      ensures candidates ==
        if model in modelRoutes && modelRoutes[model] != [] then modelRoutes[model]
        else [Route(model, DetectProvider(model), 1, "")]
    {
      if model in modelRoutes && |modelRoutes[model]| > 0 {
        return modelRoutes[model];
      }
      return [Route(model, DetectProvider(model), 1, "")];
    }

    method BuildRouteQueue(model: string, random: Sources) returns (queue: seq<Route>)
      requires AreRandom(random)
      ensures IsQueueFor(random, modelFallbacks, modelRoutes, model, queue)
      ensures DistinctKeys(queue) && (queue != [] <==> model != "")
      ensures Breakers() == old(Breakers())
    {
      var chain := ResolveModelChain(model);
      queue := EnqueueChain(chain, random);
      QueueEmptyIffChainEmpty(modelRoutes, chain, queue);
    }

    method EnqueueChain(chain: seq<string>, random: Sources) returns (queue: seq<Route>)
      requires AreRandom(random)
      ensures IsRouteQueue(modelRoutes, chain, queue) && IsDrawnQueue(random, modelRoutes, chain, queue)
    {
      var seen: set<string> := {};
      queue := [];
      EmptyRouteQueue(modelRoutes, chain);
      for m := 0 to |chain|
        invariant IsRouteQueue(modelRoutes, chain[..m], queue) && IsDrawnQueue(random, modelRoutes, chain[..m], queue)
        invariant seen == KeysOf(queue)
      {
        ghost var before := queue;
        queue, seen := EnqueueRoutes(chain[m], queue, seen, random(m));
        QueueOneMore(random, modelRoutes, chain, m, before, queue);
      }
      assert chain[..|chain|] == chain;
    }

    /** Appends a model's routes in weighted order, except those whose keys have been seen. */
    method EnqueueRoutes(model: string, queue: seq<Route>, seen: set<string>, random: Random)
      returns (longer: seq<Route>, seenAfter: set<string>)
      requires seen == KeysOf(queue) && WeightedOrder.IsRandom(random)
      ensures IsEnqueued(random, modelRoutes, model, queue, longer)
      ensures seenAfter == KeysOf(longer)
    {
      var candidates := RoutesForModel(model);
      var ordered, draws := WeightedOrder.WeightedOrder(candidates, random);
      assert WeightedOrder.IsWeighted(random, candidates, ordered);
      longer, seenAfter := queue, seen;
      for k := 0 to |ordered|
        invariant longer == EnqueueAll(queue, ordered[..k])
        invariant seenAfter == KeysOf(longer)
      {
        EnqueueNext(queue, ordered, k);
        var key := CircuitKey(ordered[k]);
        if key in seenAfter {
          continue;
        }
        seenAfter := seenAfter + {key};
        longer := longer + [ordered[k]];
      }
      assert ordered[..|ordered|] == ordered;
    }

    /** Calls an admitted route's upstream and reports the outcome to its breaker. */
    method CallRoute(candidate: Route, breaker: CircuitBreaker, now: int,
                     upstream: (string, ChatCompletionRequest) -> Result, request: ChatCompletionRequest)
      returns (attempt: Attempt)
      requires Valid() && CircuitKey(candidate) in circuits && circuits[CircuitKey(candidate)] == breaker
      modifies breaker
      ensures attempt.Called? && attempt.route == candidate && attempt.now == now
      ensures attempt.sent == request.(model := candidate.modelName)
      ensures attempt.result == upstream(candidate.providerName, request.(model := candidate.modelName))
      ensures breaker.Snapshot() ==
              match attempt.result
              case Ok(_) => AfterSuccess(old(breaker.Snapshot()))
              case Fail(error) =>
                if ShouldTripCircuit(error) then AfterFailure(old(breaker.Snapshot()), now)
                else AfterSuccess(old(breaker.Snapshot()))
    {
      var callReq := request.(model := candidate.modelName);
      var result := upstream(candidate.providerName, callReq);
      if result.Ok? {
        breaker.RecordSuccess();
      } else if ShouldTripCircuit(result.error) {
        breaker.RecordFailure(now);
      } else {
        breaker.RecordSuccess();
      }
      return Called(candidate, now, callReq, result);
    }

    /** Tries one route: skips it, is denied by its breaker, or calls its upstream. */
    method TryRoute(candidate: Route, request: ChatCompletionRequest, now: int,
                    upstream: (string, ChatCompletionRequest) -> Result)
      returns (attempt: Attempt)
      requires Valid()
      modifies this`circuits, circuits.Values
      ensures Valid() && fresh(circuits.Values - old(circuits.Values))
      ensures attempt.route == candidate && Justified(providers, old(Breakers()), request, attempt)
      ensures !attempt.NoClient? ==> attempt.now == now
      ensures attempt.Called? ==> attempt.result == upstream(candidate.providerName, attempt.sent)
      ensures Breakers() == AfterAttempts(old(Breakers()), attempt)
    {
      if candidate.providerName !in providers {
        return NoClient(candidate);
      }
      ghost var key, before := CircuitKey(candidate), Breakers();
      var breaker := EnsureCircuit(candidate);
      assert breaker.Snapshot() == Breakers()[key] == BreakerFor(before, key);
      attempt := CallIfAllowed(candidate, breaker, request, now, upstream);
      assert Breakers() == before[key := breaker.Snapshot()];
    }

    /** Asks the route's breaker, at the time that a failure will be stamped with. */
    method CallIfAllowed(candidate: Route, breaker: CircuitBreaker, request: ChatCompletionRequest, now: int,
                         upstream: (string, ChatCompletionRequest) -> Result)
      returns (attempt: Attempt)
      requires Valid() && CircuitKey(candidate) in circuits && circuits[CircuitKey(candidate)] == breaker
      modifies breaker
      ensures !attempt.NoClient? && attempt.route == candidate && attempt.now == now
      ensures attempt.Called? ==> attempt.result == upstream(candidate.providerName, attempt.sent)
      ensures attempt.Denied? <==> IsOpenAt(old(breaker.Snapshot()), attempt.now)
      ensures attempt.Called? ==> attempt.sent == request.(model := candidate.modelName)
      ensures breaker.Snapshot() == AfterAttempt(old(breaker.Snapshot()), attempt)
    {
      var allowed := breaker.Allow(now);
      if allowed {
        attempt := CallRoute(candidate, breaker, now, upstream, request);
      } else {
        attempt := Denied(candidate, now);
      }
    }

    /** Routes one request; the trace records what happened along the queue. */
    method ChatCompletion(request: ChatCompletionRequest, world: World)
      returns (reply: Result, ghost queue: seq<Route>, ghost trace: seq<Attempt>)
      requires Valid() && IsWorld(world)
      modifies this`circuits, circuits.Values
      ensures Valid() && fresh(circuits.Values - old(circuits.Values))
      ensures Served(providers, old(Breakers()), request, queue, trace, reply, Breakers()) && IsReal(world, trace)
      ensures IsQueueFor(world.random, modelFallbacks, modelRoutes, RequestedModel(request), queue)
      ensures FiledByModel(modelRoutes) ==>
        queue[0].modelName == if Trim(request.model) == "" then "gpt-4" else Trim(request.model)
    {
      reply, queue, trace := Serve(RequestedModel(request), request, world);
      RequestIsQueued(world.random, modelFallbacks, modelRoutes, request, queue);
    }

    /** Serves a request along the queue of the model; there is always a route to try. */
    method Serve(model: string, request: ChatCompletionRequest, world: World)
      returns (reply: Result, ghost queue: seq<Route>, ghost trace: seq<Attempt>)
      requires Valid() && IsWorld(world) && model != ""
      modifies this`circuits, circuits.Values
      ensures Valid() && fresh(circuits.Values - old(circuits.Values))
      ensures Served(providers, old(Breakers()), request, queue, trace, reply, Breakers()) && IsReal(world, trace)
      ensures IsQueueFor(world.random, modelFallbacks, modelRoutes, model, queue)
    {
      var candidates := BuildRouteQueue(model, world.random);
      queue := candidates;
      if |candidates| == 0 {
        assert false;
      }
      reply, trace := TryQueue(candidates, request, world);
    }

    /** Tries the next route of the queue, which settles the request or leaves it in progress. */
    method TryNext(candidate: Route, request: ChatCompletionRequest, now: int,
                   upstream: (string, ChatCompletionRequest) -> Result, ghost before: Breakers,
                   ghost queue: seq<Route>, ghost trace: seq<Attempt>)
      returns (attempt: Attempt)
      requires Valid() && DistinctKeys(queue) && |trace| < |queue| && candidate == queue[|trace|]
      requires InProgress(providers, before, request, queue, trace, Breakers())
      modifies this`circuits, circuits.Values
      ensures Valid() && fresh(circuits.Values - old(circuits.Values))
      ensures !attempt.NoClient? ==> attempt.now == now
      ensures attempt.Called? ==> attempt.result == upstream(attempt.route.providerName, attempt.sent)
      ensures if Settles(attempt) then
                Served(providers, before, request, queue, trace + [attempt], SettledReply(attempt), Breakers())
              else
                InProgress(providers, before, request, queue, trace + [attempt], Breakers())
    {
      ghost var current := Breakers();
      attempt := TryRoute(candidate, request, now, upstream);
      ProgressOneMore(providers, before, request, queue, trace, current, attempt);
      if Settles(attempt) {
        SettledIsServed(providers, before, request, queue, trace, attempt, Breakers());
      }
    }

    /** The failover loop over a route queue. */
    method TryQueue(queue: seq<Route>, request: ChatCompletionRequest, world: World)
      returns (reply: Result, ghost trace: seq<Attempt>)
      requires Valid() && queue != [] && DistinctKeys(queue)
      modifies this`circuits, circuits.Values
      ensures Valid() && fresh(circuits.Values - old(circuits.Values))
      ensures Served(providers, old(Breakers()), request, queue, trace, reply, Breakers()) && IsReal(world, trace)
    {
      ghost var before := Breakers();
      trace := [];
      var lastErr: Option<UpstreamError> := None;
      var skippedByCircuit := 0;
      for i := 0 to |queue|
        invariant Valid() && fresh(circuits.Values - old(circuits.Values))
        invariant |trace| == i && InProgress(providers, before, request, queue, trace, Breakers())
        invariant IsReal(world, trace) && Bookkept(trace, lastErr, skippedByCircuit)
      {
        var attempt := TryNext(queue[i], request, world.clock(i), world.upstream(i), before, queue, trace);
        RealOneMore(world, trace, attempt);
        BookkeepOneMore(trace, lastErr, skippedByCircuit, attempt);
        match attempt {
          case NoClient(route) =>
            lastErr := Some(NotConfigured(route));
          case Denied(_, _) =>
            skippedByCircuit := skippedByCircuit + 1;
          case Called(_, _, _, Ok(response)) =>
            return Ok(response), trace + [attempt];
          case Called(route, _, _, Fail(error)) =>
            var err := error.(provider := route.providerName, model := route.modelName);
            lastErr := Some(err);
            if !ShouldFallback(err) {
              return Fail(err), trace + [attempt];
            }
        }
        trace := trace + [attempt];
      }

      ExhaustedIsServed(providers, before, request, queue, trace, lastErr, skippedByCircuit, Breakers());
      if skippedByCircuit == |queue| {
        return Fail(AllCircuitOpen()), trace;
      }
      if lastErr.Some? {
        return Fail(lastErr.value), trace;
      }
      assert false;
    }
  }
}
