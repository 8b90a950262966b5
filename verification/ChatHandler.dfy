/** The chat endpoint: exact cache, semantic cache, provider registry, and what each run leaves behind. */
module ChatHandler {
  import opened ChatTypes
  import opened Options
  import opened Text
  import CacheTypes
  import L1Cache
  import L2Cache
  import Registry
  import Routing
  import Upstream
  import Vectors

  // ---------- Request rewriting and validation ----------

  function NormalizeStepType(raw: string): string {
    var stepType := ToLower(Trim(raw));
    if stepType in {"planning", "execution", "summarization"} then stepType else ""
  }

  /** The request after the workflow route policy for its phase has had its say on the model. */
  function Rewritten(policies: map<string, string>, request: ChatCompletionRequest, stepType: string)
    : ChatCompletionRequest
  {
    var phase := NormalizeStepType(stepType);
    if phase == "" || phase !in policies || Trim(policies[phase]) == "" then request
    else request.(model := Trim(policies[phase]))
  }

  /** Only the model can change, and only to what the policy names for the request's phase. */
  method ApplyWorkflowRoutePolicy(policies: map<string, string>, request: ChatCompletionRequest, stepType: string)
    returns (rewritten: ChatCompletionRequest)
    ensures rewritten == Rewritten(policies, request, stepType)
    ensures rewritten == request.(model := rewritten.model)
    ensures rewritten.model != request.model ==>
      ToLower(Trim(stepType)) in policies && rewritten.model == Trim(policies[ToLower(Trim(stepType))]) != ""
    ensures
      var phase := ToLower(Trim(stepType));
      phase == "planning" || phase == "execution" || phase == "summarization" ==>
        (phase in policies && Trim(policies[phase]) != "" ==> rewritten.model == Trim(policies[phase]))
  {
    rewritten := request;
    var phase := NormalizeStepType(stepType);
    if phase == "" || phase !in policies {
      return;
    }
    var model := Trim(policies[phase]);
    if model == "" {
      return;
    }
    rewritten := rewritten.(model := model);
  }

  predicate IsValidMessage(m: ChatMessage) {
    Trim(m.role) != "" && Trim(m.content) != "" && m.role in {"system", "user", "assistant", "tool"}
  }

  predicate IsValidRequest(request: ChatCompletionRequest) {
    && Trim(request.model) != ""
    && request.messages != [] && (forall i :: 0 <= i < |request.messages| ==> IsValidMessage(request.messages[i]))
    && 0.0 <= request.temperature <= 2.0
    && 0.0 <= request.topP <= 1.0
    && request.maxTokens >= 0
    && |request.stop| <= 4
  }

  lemma RolesAreNotBlank()
    ensures forall role :: role in {"system", "user", "assistant", "tool"} ==> Trim(role) == role != ""
  {
    TrimIsEmptyIff("system");
    TrimIsEmptyIff("user");
    TrimIsEmptyIff("assistant");
    TrimIsEmptyIff("tool");
  }

  method ValidateChatRequest(request: ChatCompletionRequest) returns (ok: bool)
    ensures ok == IsValidRequest(request)
    ensures ok <==>
      && Trim(request.model) != "" && |request.messages| >= 1
      && (forall m :: m in request.messages ==>
            && Trim(m.content) != ""
            && (m.role == "system" || m.role == "user" || m.role == "assistant" || m.role == "tool"))
      && request.temperature >= 0.0 && request.temperature <= 2.0
      && request.topP >= 0.0 && request.topP <= 1.0
      && request.maxTokens >= 0 && |request.stop| <= 4
  {
    RolesAreNotBlank();
    if Trim(request.model) == "" || |request.messages| == 0 {
      return false;
    }
    for i := 0 to |request.messages|
      invariant forall j :: 0 <= j < i ==> IsValidMessage(request.messages[j])
    {
      var m := request.messages[i];
      if Trim(m.role) == "" || Trim(m.content) == "" || m.role !in {"system", "user", "assistant", "tool"} {
        return false;
      }
    }
    if request.temperature < 0.0 || request.temperature > 2.0 || request.topP < 0.0 || request.topP > 1.0 {
      return false;
    }
    return request.maxTokens >= 0 && |request.stop| <= 4;
  }

  // ---------- Provenance ----------

  /** A successful provider call: the rewritten request and what was returned. */
  datatype ProviderCall = ProviderCall(request: ChatCompletionRequest, response: ChatCompletionResponse)

  type Hash = map<CacheTypes.CacheKey, CacheTypes.Json>

  /** A response in JSON: the handler's own format and the cache's have the same fields there. */
  function Encoded(response: ChatCompletionResponse): CacheTypes.Json {
    CacheTypes.EncodeResponse(CacheResponse(response))
  }

  ghost predicate WroteL1(call: ProviderCall, key: CacheTypes.CacheKey, data: CacheTypes.Json) {
    KeyOf(call.request) == key && data == Encoded(call.response)
  }

  ghost predicate WroteL2(call: ProviderCall, key: CacheTypes.CacheKey, data: L2Cache.Data) {
    && KeyOf(call.request) == key
    && data.Entry? && data.entry.model == call.request.model && data.entry.response == Encoded(call.response)
  }

  ghost predicate IsProvenL1(calls: set<ProviderCall>, key: CacheTypes.CacheKey, data: CacheTypes.Json) {
    exists call :: call in calls && WroteL1(call, key, data)
  }

  ghost predicate IsProvenL2(calls: set<ProviderCall>, key: CacheTypes.CacheKey, data: L2Cache.Data) {
    exists call :: call in calls && WroteL2(call, key, data)
  }

  /** Everything in the exact cache was put there by a successful provider call for the same key. */
  ghost predicate ProvenL1(calls: set<ProviderCall>, hash: Hash) {
    forall key {:trigger IsProvenL1(calls, key, hash[key])} :: key in hash ==> IsProvenL1(calls, key, hash[key])
  }

  /** Everything in the semantic cache was put there by a successful provider call for the same key and model. */
  ghost predicate ProvenL2(calls: set<ProviderCall>, store: L2Cache.Store) {
    forall key {:trigger IsProvenL2(calls, key, store[key])} :: key in store ==> IsProvenL2(calls, key, store[key])
  }

  lemma MoreCallsProve(calls: set<ProviderCall>, more: set<ProviderCall>, hash: Hash, store: L2Cache.Store)
    requires calls <= more && ProvenL1(calls, hash) && ProvenL2(calls, store)
    ensures ProvenL1(more, hash) && ProvenL2(more, store)
  {
    forall key | key in hash
      ensures IsProvenL1(more, key, hash[key])
    {
      assert IsProvenL1(calls, key, hash[key]);
    }
    forall key | key in store
      ensures IsProvenL2(more, key, store[key])
    {
      assert IsProvenL2(calls, key, store[key]);
    }
  }

  /** Writing what a call on record returned keeps the provenance of the exact cache. */
  lemma L1WriteIsProven(calls: set<ProviderCall>, hash: Hash, call: ProviderCall, after: Hash)
    requires ProvenL1(calls, hash) && call in calls
    requires forall key :: key in after && key != KeyOf(call.request) ==> key in hash && after[key] == hash[key]
    requires KeyOf(call.request) in after && after[KeyOf(call.request)] == Encoded(call.response)
    ensures ProvenL1(calls, after)
  {
    forall key | key in after
      ensures IsProvenL1(calls, key, after[key])
    {
      if key == KeyOf(call.request) {
        assert WroteL1(call, key, after[key]);
      } else {
        assert IsProvenL1(calls, key, hash[key]);
      }
    }
  }

  /** Making room and writing what a call on record returned keeps that of the semantic cache. */
  lemma L2WriteIsProven(calls: set<ProviderCall>, store: L2Cache.Store, maxSize: int,
                        answering: set<CacheTypes.CacheKey>, call: ProviderCall, data: L2Cache.Data,
                        after: L2Cache.Store)
    requires ProvenL2(calls, store) && call in calls && WroteL2(call, KeyOf(call.request), data)
    requires L2Cache.IsStored(store, maxSize, answering, KeyOf(call.request), data, after)
    ensures ProvenL2(calls, after)
    ensures KeyOf(call.request) in after && after[KeyOf(call.request)] == data
  {
    forall key | key in after
      ensures IsProvenL2(calls, key, after[key])
    {
      if key == KeyOf(call.request) {
        assert WroteL2(call, key, after[key]);
      } else {
        assert IsProvenL2(calls, key, store[key]);
      }
    }
  }

  ghost predicate HoldsL1(hash: Hash, request: ChatCompletionRequest, response: ChatCompletionResponse) {
    KeyOf(request) in hash && hash[KeyOf(request)] == Encoded(response)
  }

  /** An exact hit decodes to the response of the call that wrote it. */
  lemma L1HitIsServed(calls: set<ProviderCall>, hash: Hash, request: ChatCompletionRequest)
    returns (call: ProviderCall)
    requires ProvenL1(calls, hash) && KeyOf(request) in hash
    ensures call in calls && KeyOf(call.request) == KeyOf(request) && HoldsL1(hash, request, call.response)
    ensures CacheTypes.DecodeResponse(hash[KeyOf(request)]) == Some(CacheResponse(call.response))
    ensures ChatResponse(CacheResponse(call.response)) == call.response
  {
    assert IsProvenL1(calls, KeyOf(request), hash[KeyOf(request)]);
    call :| call in calls && WroteL1(call, KeyOf(request), hash[KeyOf(request)]);
    CachedResponseRoundTrip(call.response);
    CacheTypes.ResponseRoundTrip(CacheResponse(call.response));
  }

  /** A semantic hit decodes to the response of a call for the same model. */
  lemma L2HitIsServed(calls: set<ProviderCall>, store: L2Cache.Store, sqrt: real -> real, threshold: real,
                      vector: seq<real>, model: string, hit: L2Cache.SearchResult)
    returns (call: ProviderCall)
    requires ProvenL2(calls, store) && model != ""
    requires Vectors.IsSqrt(sqrt) && L2Cache.IsHit(sqrt, threshold, store, vector, model, hit)
    ensures call in calls && call.request.model == model
    ensures CacheTypes.DecodeResponse(hit.response) == Some(CacheResponse(call.response))
    ensures hit.response == Encoded(call.response)
    ensures ChatResponse(CacheResponse(call.response)) == call.response
  {
    assert IsProvenL2(calls, hit.key, store[hit.key]);
    call :| call in calls && WroteL2(call, hit.key, store[hit.key]);
    CachedResponseRoundTrip(call.response);
    CacheTypes.ResponseRoundTrip(CacheResponse(call.response));
  }

  /** Everything that calls wrote can be read, as long as it is there. */
  lemma AllReadable(calls: set<ProviderCall>, store: L2Cache.Store)
    requires ProvenL2(calls, store)
    ensures L2Cache.ReadableKeys(store) == store.Keys
  {
    assert forall key :: key in store ==> IsProvenL2(calls, key, store[key]);
  }

  // ---------- The handler ----------

  /** A panic answers with an internal error; its response was received but is not delivered. */
  datatype Reply =
    | Invalid
    | FromL1(response: ChatCompletionResponse)
    | FromL2(response: ChatCompletionResponse)
    | FromProvider(response: ChatCompletionResponse)
    | Failed(error: Upstream.UpstreamError)
    | Panicked(response: ChatCompletionResponse)

  /** A call on record for the same key returned this response. */
  ghost predicate IsKeyAnswer(calls: set<ProviderCall>, request: ChatCompletionRequest,
                              response: ChatCompletionResponse) {
    exists call :: call in calls && KeyOf(call.request) == KeyOf(request) && response == call.response
  }

  /** The hash holds this response for the request, and an earlier call for the same key returned it. */
  ghost predicate IsL1Answer(calls: set<ProviderCall>, hash: Hash, request: ChatCompletionRequest,
                             response: ChatCompletionResponse) {
    HoldsL1(hash, request, response) && IsKeyAnswer(calls, request, response)
  }

  /** The response that the hash holds for a request is unique. */
  lemma HeldResponseIsUnique(hash: Hash, request: ChatCompletionRequest, a: ChatCompletionResponse,
                             b: ChatCompletionResponse)
    requires HoldsL1(hash, request, a) && HoldsL1(hash, request, b)
    ensures a == b
  {
    CachedResponseRoundTrip(a);
    CachedResponseRoundTrip(b);
  }

  /** A call on record for the same model returned this response. */
  ghost predicate IsL2Answer(calls: set<ProviderCall>, request: ChatCompletionRequest,
                             response: ChatCompletionResponse) {
    exists call :: call in calls && call.request.model == request.model && response == call.response
  }

  /** Nothing is found exactly when nothing eligible is stored; otherwise a most similar entry's response is. */
  ghost predicate IsSearched(sqrt: real -> real, threshold: real, store: L2Cache.Store, vector: seq<real>,
                             model: string, found: Option<ChatCompletionResponse>)
    requires Vectors.IsSqrt(sqrt)
  {
    exists best ::
      && L2Cache.IsBestMatch(sqrt, threshold, store, vector, model, best)
      && (found.None? <==> best.None?)
      && (found.Some? ==> best.value.response == Encoded(found.value))
  }

  /** The calls on record and what the two caches hold. */
  datatype Caches = Caches(calls: set<ProviderCall>, hash: Hash, store: L2Cache.Store)

  /** Everything that requests read and write. */
  datatype Snapshot = Snapshot(caches: Caches, breakers: Registry.Breakers)

  /** What stays the same for all requests. */
  datatype Setup = Setup(hasL1: bool, asksWorker: bool, hasL2: bool, sqrt: real -> real, threshold: real, maxHash: int,
                         maxEntries: int, providers: set<string>, routes: map<string, seq<Routing.Route>>)

  /** What the embedding worker would answer when asked: whether it is up, and what it makes of the messages. */
  datatype Worker = Worker(healthy: bool, embed: seq<ChatMessage> -> Option<seq<real>>)

  /**
   * What a request meets with: the worker when the caches are looked up and again when they are filled, the entries
   * that answer when they are read to make room, the time of the store, and what the registry meets with.
   */
  datatype World = World(atLookup: Worker, atStore: Worker, answering: set<CacheTypes.CacheKey>, now: int,
                         registry: Registry.World)

  /** The vector that the worker gives for the messages, or none if it is down or fails. */
  ghost function VectorFrom(worker: Worker, messages: seq<ChatMessage>): seq<real> {
    if worker.healthy && worker.embed(messages).Some? then worker.embed(messages).value else []
  }

  /** The vector that the request is looked up with. */
  ghost function LookupVector(setup: Setup, world: World, request: ChatCompletionRequest): seq<real> {
    if setup.asksWorker then VectorFrom(world.atLookup, request.messages) else []
  }

  /** The vector that its response is stored with: the one it was looked up with, or else one asked for again. */
  ghost function StoredVector(setup: Setup, world: World, request: ChatCompletionRequest): seq<real> {
    var vector := LookupVector(setup, world, request);
    if setup.asksWorker && vector == [] then VectorFrom(world.atStore, request.messages) else vector
  }

  /** A reply from a cache: a call's response, from the semantic cache a most similar entry's. */
  ghost predicate IsHit(setup: Setup, held: Caches, request: ChatCompletionRequest, vector: seq<real>, reply: Reply)
    requires Vectors.IsSqrt(setup.sqrt)
  {
    match reply
    case FromL1(response) => IsL1Answer(held.calls, held.hash, request, response)
    case FromL2(response) =>
      && setup.hasL2 && vector != [] && IsL2Answer(held.calls, request, response)
      && IsSearched(setup.sqrt, setup.threshold, held.store, vector, request.model, Some(response))
    case _ => false
  }

  /** If the semantic cache was searched, nothing in it qualified. */
  ghost predicate IsMiss(setup: Setup, held: Caches, request: ChatCompletionRequest, vector: seq<real>)
    requires Vectors.IsSqrt(setup.sqrt)
  {
    setup.hasL2 && vector != [] ==>
      IsSearched(setup.sqrt, setup.threshold, held.store, vector, request.model, None)
  }

  /** Storing panics: the semantic cache is full and none of its entries answers. */
  ghost predicate Panics(setup: Setup, world: World, before: L2Cache.Store, stored: seq<real>) {
    setup.hasL2 && stored != [] && L2Cache.IsFull(before, setup.maxEntries) && before.Keys * world.answering == {}
  }

  /** The response is in the semantic cache under its request, if that is in use and there is a vector for it. */
  ghost predicate IsHeldL2(setup: Setup, world: World, before: L2Cache.Store, request: ChatCompletionRequest,
                           response: ChatCompletionResponse, stored: seq<real>, after: L2Cache.Store) {
    if setup.hasL2 && stored != [] && !Panics(setup, world, before, stored) then
      L2Cache.IsStored(before, setup.maxEntries, world.answering, KeyOf(request),
                       L2Cache.Entry(L2Cache.VectorEntry(stored, Encoded(response), request.model, world.now)), after)
    else after == before
  }

  /**
   * One call joined those on record and the caches in use hold it, the semantic one if there was a vector for it.
   * A panic, which takes a full semantic cache, left that one as it was.
   */
  ghost predicate IsKept(setup: Setup, world: World, before: Caches, request: ChatCompletionRequest,
                         response: ChatCompletionResponse, panicked: bool, after: Caches) {
    var stored := StoredVector(setup, world, request);
    && after.calls == before.calls + {ProviderCall(request, response)}
    && (if setup.hasL1 then
          L1Cache.IsWritten(before.hash, setup.maxHash, KeyOf(request), Encoded(response), after.hash)
        else after.hash == before.hash)
    && (panicked <==> Panics(setup, world, before.store, stored))
    && IsHeldL2(setup, world, before.store, request, response, stored, after.store)
  }

  ghost predicate Carries(reply: Reply, answer: Upstream.Result) {
    match answer
    case Ok(response) => (reply.FromProvider? || reply.Panicked?) && reply.response == HandlerResponse(response)
    case Fail(error) => reply == Failed(error)
  }

  /** The routes tried begin with one of the model that the request asks for. */
  ghost predicate StartsWithModel(routes: map<string, seq<Routing.Route>>, model: string, queue: seq<Routing.Route>) {
    Routing.FiledByModel(routes) && Trim(model) != "" ==> queue != [] && queue[0].modelName == Trim(model)
  }

  /** The registry served the request, and the reply carries its answer. */
  ghost predicate IsProviderReply(setup: Setup, world: Registry.World, before: Registry.Breakers,
                                  request: ChatCompletionRequest, queue: seq<Routing.Route>,
                                  trace: seq<Registry.Attempt>, reply: Reply, after: Registry.Breakers) {
    && StartsWithModel(setup.routes, request.model, queue) && Registry.IsReal(world, trace)
    && exists answer ::
         && Registry.Served(setup.providers, before, ProviderRequest(request), queue, trace, answer, after)
         && Carries(reply, answer)
  }

  lemma CarriedIsReply(setup: Setup, world: Registry.World, before: Registry.Breakers, request: ChatCompletionRequest,
                       queue: seq<Routing.Route>, trace: seq<Registry.Attempt>, answer: Upstream.Result, reply: Reply,
                       after: Registry.Breakers)
    requires StartsWithModel(setup.routes, request.model, queue) && Registry.IsReal(world, trace)
    requires Registry.Served(setup.providers, before, ProviderRequest(request), queue, trace, answer, after)
    requires Carries(reply, answer)
    ensures IsProviderReply(setup, world, before, request, queue, trace, reply, after)
  {
  }

  /** The registry's answer was passed on: a failure left the caches alone, a success was kept. */
  ghost predicate IsForwarded(setup: Setup, world: World, before: Snapshot, request: ChatCompletionRequest,
                              queue: seq<Routing.Route>, trace: seq<Registry.Attempt>, reply: Reply, after: Snapshot) {
    && IsProviderReply(setup, world.registry, before.breakers, request, queue, trace, reply, after.breakers)
    && match reply
       case Failed(_) => after == before.(breakers := after.breakers)
       case FromProvider(response) => IsKept(setup, world, before.caches, request, response, false, after.caches)
       case Panicked(response) => IsKept(setup, world, before.caches, request, response, true, after.caches)
       case _ => false
  }

  /**
   * How a valid request is answered. The exact cache answers exactly when it holds the key. With a vector from the
   * worker, the semantic cache answers with a most similar entry, and the provider is asked only when
   * nothing stored for the model reaches the threshold. Hits change nothing, failures only breakers, and a
   * success is on record and held for the next time.
   */
  ghost predicate IsServed(setup: Setup, world: World, before: Snapshot, request: ChatCompletionRequest,
                           queue: seq<Routing.Route>, trace: seq<Registry.Attempt>, reply: Reply, after: Snapshot)
    requires Vectors.IsSqrt(setup.sqrt)
  {
    var vector := LookupVector(setup, world, request);
    && (reply.FromL1? <==> setup.hasL1 && KeyOf(request) in before.caches.hash)
    && if reply.FromL1? || reply.FromL2? then
         after == before && trace == [] && IsHit(setup, before.caches, request, vector, reply)
       else
         && IsMiss(setup, before.caches, request, vector)
         && IsForwarded(setup, world, before, request, queue, trace, reply, after)
  }

  /** A cache with a limit holds no more entries than that. */
  predicate WithinSize(size: nat, maxSize: int) {
    maxSize > 0 ==> size <= maxSize
  }

  /** What the caches hold is proven, and no more than they may hold. */
  ghost predicate IsSound(held: Caches, maxHash: int, maxStore: int) {
    && ProvenL1(held.calls, held.hash) && ProvenL2(held.calls, held.store)
    && WithinSize(|held.hash.Keys|, maxHash) && WithinSize(|held.store.Keys|, maxStore)
  }

  method AskRegistry(registry: Registry.Registry, request: Upstream.ChatCompletionRequest, world: Registry.World)
    returns (answer: Upstream.Result, ghost queue: seq<Routing.Route>, ghost trace: seq<Registry.Attempt>)
    requires registry.Valid() && Registry.IsWorld(world)
    modifies registry`circuits, registry.circuits.Values
    ensures registry.Valid() && fresh(registry.circuits.Values - old(registry.circuits.Values))
    ensures Registry.Served(registry.providers, old(registry.Breakers()), request, queue, trace, answer,
                            registry.Breakers())
    ensures Registry.IsReal(world, trace) && StartsWithModel(registry.modelRoutes, request.model, queue)
  {
    answer, queue, trace := registry.ChatCompletion(request, world);
  }

  /** A vector, or nothing when the worker fails; the worker's empty vectors count as failures. */
  method FetchSemanticVector(worker: Worker, messages: seq<ChatMessage>) returns (vector: Option<seq<real>>)
    ensures vector == if worker.embed(messages) == Some([]) then None else worker.embed(messages)
  {
    vector := worker.embed(messages);
    if vector.Some? && |vector.value| == 0 {
      vector := None;
    }
  }

  class ChatHandler {
    const cacheEnabled: bool
    const hasL1: bool
    const hasL2: bool
    const hasWorker: bool
    const routePolicies: map<string, string>
    const sqrt: real -> real
    const registry: Registry.Registry
    const l1: L1Cache.L1Cache
    const l2: L2Cache.L2Cache
    ghost var calls: set<ProviderCall>

    /** Holds between any two steps of any requests. */
    ghost predicate CachesValid()
      reads this, l1, l2
    {
      l1.Valid() && IsSound(Held(), l1.maxSize, l2.maxSize)
    }

    ghost predicate Valid()
      reads this, registry, l1, l2
    {
      Vectors.IsSqrt(sqrt) && registry.Valid() && CachesValid()
    }

    ghost function Held(): Caches
      reads this, l1, l2
    {
      Caches(calls, l1.hash, l2.store)
    }

    ghost function Current(): Snapshot
      reads this, l1, l2, registry, registry.circuits.Values
    {
      Snapshot(Held(), registry.Breakers())
    }

    ghost function TheSetup(): Setup
      reads this, registry, l1, l2
    {
      Setup(HasL1(), cacheEnabled && hasL2 && hasWorker, HasL2(), sqrt, l2.similarityThreshold, l1.maxSize, l2.maxSize,
            registry.providers, registry.modelRoutes)
    }

    /** The handler starts on caches that are still empty. */
    constructor (cacheEnabled: bool, hasL1: bool, hasL2: bool, hasWorker: bool, routePolicies: map<string, string>,
                 sqrt: real -> real, registry: Registry.Registry, l1: L1Cache.L1Cache, l2: L2Cache.L2Cache)
      requires Vectors.IsSqrt(sqrt) && registry.Valid() && l1.Valid()
      requires l1.hash == map[] && l2.store == map[]
      ensures Valid() && calls == {}
      ensures this.registry == registry && this.l1 == l1 && this.l2 == l2
      ensures this.cacheEnabled == cacheEnabled && this.hasL1 == hasL1 && this.hasL2 == hasL2
      ensures this.hasWorker == hasWorker && this.routePolicies == routePolicies && this.sqrt == sqrt
    {
      this.cacheEnabled, this.hasL1, this.hasL2, this.hasWorker := cacheEnabled, hasL1, hasL2, hasWorker;
      this.routePolicies, this.sqrt := routePolicies, sqrt;
      this.registry, this.l1, this.l2, calls := registry, l1, l2, {};
    }

    predicate HasL1()
      reads this
    {
      cacheEnabled && hasL1 && l1.enabled
    }

    predicate HasL2()
      reads this
    {
      cacheEnabled && hasL2 && hasWorker && l2.enabled
    }

    // ---------- The steps of requests ----------

    /** Cache entries run out of time: the hash as a whole, vector entries one by one. */
    method Expire(hashLapses: bool, lapsed: set<CacheTypes.CacheKey>)
      requires CachesValid()
      modifies l1, l2
      ensures CachesValid()
      ensures l1.hash == if hashLapses then map[] else old(l1.hash)
      ensures l2.store == old(l2.store) - lapsed
    {
      if hashLapses {
        l1.Lapse();
      }
      l2.Lapse(lapsed);
    }

    /** The exact-cache step. */
    method LookupL1(request: ChatCompletionRequest) returns (found: Option<ChatCompletionResponse>)
      requires CachesValid()
      ensures found.Some? ==> IsL1Answer(calls, l1.hash, request, found.value)
      ensures found.Some? <==> cacheEnabled && hasL1 && l1.enabled && KeyOf(request) in l1.hash
    {
      if cacheEnabled && hasL1 {
        var cached := l1.Get(KeyOf(request));
        if cached.Some? {
          ghost var call := L1HitIsServed(calls, l1.hash, request);
          var data := CacheTypes.DecodeResponse(cached.value);
          if data.Some? {
            var response := ToChatResponse(data.value);
            return Some(response);
          }
        }
      }
      return None;
    }

    /** The search of the semantic cache, with its hit decoded. */
    method SearchL2(request: ChatCompletionRequest, vector: seq<real>) returns (found: Option<ChatCompletionResponse>)
      requires Vectors.IsSqrt(sqrt) && CachesValid() && request.model != "" && l2.enabled
      ensures found.Some? ==> IsL2Answer(calls, request, found.value)
      ensures IsSearched(sqrt, l2.similarityThreshold, l2.store, vector, request.model, found)
    {
      var hit := l2.Search(sqrt, vector, request.model);
      if hit.None? {
        return None;
      }
      ghost var call := L2HitIsServed(calls, l2.store, sqrt, l2.similarityThreshold, vector, request.model, hit.value);
      var data := CacheTypes.DecodeResponse(hit.value.response);
      if data.Some? {
        found := Some(ChatResponse(data.value));
      } else {
        assert false;
      }
    }

    /** The semantic-cache step; the vector is kept for storing, whether or not the search hits. */
    method LookupL2(request: ChatCompletionRequest, worker: Worker)
      returns (found: Option<ChatCompletionResponse>, vector: seq<real>)
      requires Vectors.IsSqrt(sqrt) && CachesValid() && request.model != ""
      ensures found.Some? ==> IsL2Answer(calls, request, found.value)
      ensures vector == if cacheEnabled && hasL2 && hasWorker then VectorFrom(worker, request.messages) else []
      ensures found.Some? ==> HasL2() && vector != []
      ensures cacheEnabled && hasL2 && hasWorker && l2.enabled && vector != [] ==>
        IsSearched(sqrt, l2.similarityThreshold, l2.store, vector, request.model, found)
    {
      found, vector := None, [];
      if cacheEnabled && hasL2 && hasWorker {
        if worker.healthy {
          var fetched := FetchSemanticVector(worker, request.messages);
          if fetched.Some? && |fetched.value| > 0 {
            vector := fetched.value;
            if l2.enabled {
              found := SearchL2(request, vector);
            }
          }
        }
      }
    }

    /** The provider call itself, which touches nothing but the registry's breakers. */
    method CallRegistry(request: ChatCompletionRequest, world: Registry.World)
      returns (reply: Reply, ghost queue: seq<Routing.Route>, ghost trace: seq<Registry.Attempt>)
      requires registry.Valid() && Registry.IsWorld(world)
      modifies registry`circuits, registry.circuits.Values
      ensures registry.Valid() && fresh(registry.circuits.Values - old(registry.circuits.Values))
      ensures reply.FromProvider? || reply.Failed?
      ensures IsProviderReply(TheSetup(), world, old(registry.Breakers()), request, queue, trace, reply,
                              registry.Breakers())
    {
      var upstreamRequest := ToProviderRequest(request);
      var answer, routed, attempts := AskRegistry(registry, upstreamRequest, world);
      queue, trace := routed, attempts;
      reply := ConvertAnswer(answer);
      CarriedIsReply(TheSetup(), world, old(registry.Breakers()), request, queue, trace, answer, reply,
                     registry.Breakers());
    }

    method ConvertAnswer(answer: Upstream.Result) returns (reply: Reply)
      requires registry.Valid()
      ensures Carries(reply, answer) && !reply.Panicked?
      ensures registry.Valid() && registry.Breakers() == old(registry.Breakers())
    {
      match answer {
        case Ok(response) =>
          var converted := ToHandlerResponse(response);
          reply := FromProvider(converted);
        case Fail(error) =>
          reply := Failed(error);
      }
    }

    /** A successful call goes on record, which proves no less than before. */
    ghost method RecordCall(call: ProviderCall)
      requires CachesValid()
      modifies this`calls
      ensures CachesValid() && calls == old(calls) + {call}
    {
      MoreCallsProve(calls, calls + {call}, l1.hash, l2.store);
      calls := calls + {call};
    }

    /** What a call on record returned goes into the exact cache. */
    method StoreL1(request: ChatCompletionRequest, response: ChatCompletionResponse)
      requires CachesValid() && ProviderCall(request, response) in calls
      modifies l1
      ensures CachesValid()
      ensures if cacheEnabled && hasL1 && l1.enabled then
                L1Cache.IsWritten(old(l1.hash), l1.maxSize, KeyOf(request), Encoded(response), l1.hash)
              else l1.hash == old(l1.hash)
    {
      if cacheEnabled && hasL1 {
        var cacheResponse := ToCacheResponse(response);
        ghost var hash := l1.hash;
        l1.Set(KeyOf(request), CacheTypes.EncodeResponse(cacheResponse));
        if l1.enabled {
          L1WriteIsProven(calls, hash, ProviderCall(request, response), l1.hash);
        }
      }
    }

    /** The vector that the lookup fetched, or else one fetched now, if the worker is up to it. */
    method VectorFor(request: ChatCompletionRequest, vector: seq<real>, worker: Worker) returns (stored: seq<real>)
      ensures stored == if vector != [] then vector else VectorFrom(worker, request.messages)
    {
      stored := vector;
      if |stored| == 0 {
        if worker.healthy {
          var fetched := FetchSemanticVector(worker, request.messages);
          if fetched.Some? {
            stored := fetched.value;
          }
        }
      }
    }

    /**
     * What a call on record returned goes into the semantic cache, if there is a vector for it. It panics exactly
     * if the cache is full and none of its entries answers when they are read to make room.
     */
    method StoreL2(request: ChatCompletionRequest, response: ChatCompletionResponse, vector: seq<real>, world: World)
      returns (panicked: bool)
      requires CachesValid() && ProviderCall(request, response) in calls
      modifies l2
      ensures CachesValid()
      ensures
        var asks := cacheEnabled && hasL2 && hasWorker;
        var stored := if asks && vector == [] then VectorFrom(world.atStore, request.messages) else vector;
        && (panicked <==>
              && asks && l2.enabled && stored != [] && L2Cache.IsFull(old(l2.store), l2.maxSize)
              && old(l2.store).Keys * world.answering == {})
        && if asks && l2.enabled && stored != [] && !panicked then
             IsStoredFor(old(l2.store), request, response, stored, world, l2.store)
           else l2.store == old(l2.store)
    {
      panicked := false;
      if cacheEnabled && hasL2 && hasWorker {
        var usable := VectorFor(request, vector, world.atStore);
        if |usable| > 0 {
          panicked := StoreEntry(request, response, usable, world);
        }
      }
    }

    ghost predicate IsStoredFor(before: L2Cache.Store, request: ChatCompletionRequest, response: ChatCompletionResponse,
                                vector: seq<real>, world: World, after: L2Cache.Store) {
      L2Cache.IsStored(before, l2.maxSize, world.answering, KeyOf(request),
                       L2Cache.Entry(L2Cache.VectorEntry(vector, Encoded(response), request.model, world.now)), after)
    }

    method StoreEntry(request: ChatCompletionRequest, response: ChatCompletionResponse, vector: seq<real>, world: World)
      returns (panicked: bool)
      requires CachesValid() && ProviderCall(request, response) in calls
      modifies l2
      ensures CachesValid()
      ensures panicked <==>
        l2.enabled && L2Cache.IsFull(old(l2.store), l2.maxSize) && old(l2.store).Keys * world.answering == {}
      ensures if l2.enabled && !panicked then IsStoredFor(old(l2.store), request, response, vector, world, l2.store)
              else l2.store == old(l2.store)
    {
      var data := Encoded(response);
      ghost var store := l2.store;
      AllReadable(calls, store);
      var outcome := l2.Store(KeyOf(request), vector, data, request.model, world.now, world.answering);
      panicked := outcome.Panicked?;
      if outcome.Stored? {
        ghost var call := ProviderCall(request, response);
        ghost var entry := L2Cache.Entry(L2Cache.VectorEntry(vector, data, request.model, world.now));
        L2WriteIsProven(calls, store, l2.maxSize, world.answering, call, entry, l2.store);
        if 0 < l2.maxSize {
          L2Cache.StoreKeepsSize(store, l2.maxSize, world.answering, KeyOf(request), entry, l2.store);
        }
      }
    }

    // ---------- One request, its steps following each other ----------

    /** A success goes on record and into both caches. */
    method StoreResponse(request: ChatCompletionRequest, response: ChatCompletionResponse, vector: seq<real>,
                         world: World)
      returns (panicked: bool)
      requires CachesValid() && vector == LookupVector(TheSetup(), world, request)
      modifies this`calls, l1, l2
      ensures CachesValid()
      ensures IsKept(TheSetup(), world, old(Held()), request, response, panicked, Held())
    {
      RecordCall(ProviderCall(request, response));
      StoreL1(request, response);
      panicked := StoreL2(request, response, vector, world);
    }

    /** What the registry answered is passed on, a success once it is stored; the breakers are left alone. */
    method Deliver(answered: Reply, request: ChatCompletionRequest, vector: seq<real>, world: World)
      returns (reply: Reply)
      requires CachesValid() && (answered.FromProvider? || answered.Failed?)
      requires vector == LookupVector(TheSetup(), world, request)
      modifies this`calls, l1, l2
      ensures CachesValid()
      ensures answered.Failed? ==> reply == answered && Held() == old(Held())
      ensures answered.FromProvider? ==>
        && (reply == answered || reply == Panicked(answered.response))
        && IsKept(TheSetup(), world, old(Held()), request, answered.response, reply.Panicked?, Held())
      ensures registry.Breakers() == old(registry.Breakers())
    {
      reply := answered;
      if reply.FromProvider? {
        var panicked := StoreResponse(request, reply.response, vector, world);
        if panicked {
          reply := Panicked(reply.response);
        }
      }
    }

    /** The provider step: a success is stored and returned, a failure leaves the caches alone. */
    method ForwardToProvider(request: ChatCompletionRequest, vector: seq<real>, world: World)
      returns (reply: Reply, ghost queue: seq<Routing.Route>, ghost trace: seq<Registry.Attempt>)
      requires Valid() && Registry.IsWorld(world.registry)
      requires vector == LookupVector(TheSetup(), world, request)
      modifies this`calls, l1, l2, registry`circuits, registry.circuits.Values
      ensures Valid() && fresh(registry.circuits.Values - old(registry.circuits.Values))
      ensures TheSetup() == old(TheSetup())
      ensures IsForwarded(TheSetup(), world, old(Current()), request, queue, trace, reply, Current())
    {
      var answered;
      answered, queue, trace := CallRegistry(request, world.registry);
      reply := Deliver(answered, request, vector, world);
    }

    /** The exact cache first, then the semantic one. */
    method LookupCaches(request: ChatCompletionRequest, worker: Worker)
      returns (reply: Option<Reply>, vector: seq<real>)
      requires Valid() && request.model != ""
      ensures Valid() && Current() == old(Current())
      ensures reply.Some? && reply.value.FromL1? <==> HasL1() && KeyOf(request) in l1.hash
      ensures
        var asked := if TheSetup().asksWorker then VectorFrom(worker, request.messages) else [];
        && (reply.Some? ==> IsHit(TheSetup(), Held(), request, asked, reply.value))
        && (reply.None? ==> IsMiss(TheSetup(), Held(), request, asked) && vector == asked)
    {
      vector := [];
      var exact := LookupL1(request);
      if exact.Some? {
        return Some(FromL1(exact.value)), vector;
      }
      var similar, searched := LookupL2(request, worker);
      return if similar.Some? then Some(FromL2(similar.value)) else None, searched;
    }

    /** A valid request: the caches answer if they can, the provider otherwise. */
    method ServeRequest(request: ChatCompletionRequest, world: World)
      returns (reply: Reply, ghost queue: seq<Routing.Route>, ghost trace: seq<Registry.Attempt>)
      requires Valid() && Registry.IsWorld(world.registry) && request.model != ""
      modifies this`calls, l1, l2, registry`circuits, registry.circuits.Values
      ensures Valid() && fresh(registry.circuits.Values - old(registry.circuits.Values))
      ensures TheSetup() == old(TheSetup())
      ensures IsServed(TheSetup(), world, old(Current()), request, queue, trace, reply, Current())
    {
      var cached, embedding := LookupCaches(request, world.atLookup);
      reply, queue, trace := Invalid, [], [];
      if cached.Some? {
        reply := cached.value;
      } else {
        reply, queue, trace := ForwardToProvider(request, embedding, world);
      }
    }

    /** Rewriting and validation only look at the request. */
    method Accept(received: ChatCompletionRequest, stepType: string) returns (request: ChatCompletionRequest, ok: bool)
      requires Valid()
      ensures Valid() && Current() == old(Current())
      ensures request == Rewritten(routePolicies, received, stepType)
      ensures ok == IsValidRequest(request)
    {
      request := ApplyWorkflowRoutePolicy(routePolicies, received, stepType);
      ok := ValidateChatRequest(request);
    }

    method ChatCompletion(received: ChatCompletionRequest, stepType: string, world: World)
      returns (reply: Reply, ghost queue: seq<Routing.Route>, ghost trace: seq<Registry.Attempt>)
      requires Valid() && Registry.IsWorld(world.registry)
      modifies this`calls, l1, l2, registry`circuits, registry.circuits.Values
      ensures Valid() && fresh(registry.circuits.Values - old(registry.circuits.Values))
      ensures TheSetup() == old(TheSetup())
      ensures
        var request := Rewritten(routePolicies, received, stepType);
        if IsValidRequest(request) then
          IsServed(TheSetup(), world, old(Current()), request, queue, trace, reply, Current())
        else
          reply == Invalid && Current() == old(Current())
    {
      var request, ok := Accept(received, stepType);
      if !ok {
        return Invalid, [], [];
      }
      reply, queue, trace := ServeRequest(request, world);
    }
  }

  // ---------- Any interleaving of the steps of any requests ----------

  /** One step of some request, or of time. */
  datatype Step =
    | LookedUpL1(request: ChatCompletionRequest)
    | LookedUpL2(request: ChatCompletionRequest, worker: Worker)
    | Called(call: ProviderCall)
    | StoredL1(call: ProviderCall)
    | StoredL2(call: ProviderCall, vector: seq<real>, world: World)
    | Expired(hashLapses: bool, lapsed: set<CacheTypes.CacheKey>)

  function CallsOf(step: Step): set<ProviderCall> {
    if step.Called? then {step.call} else {}
  }

  /** The calls among the first `n` steps. */
  function CallsIn(steps: seq<Step>, n: nat): set<ProviderCall>
    requires n <= |steps|
  {
    if n == 0 then {} else CallsIn(steps, n - 1) + CallsOf(steps[n - 1])
  }

  /** Only what a call has returned is stored, at any time after the call; and a valid request names a model. */
  ghost predicate IsPossible(calls: set<ProviderCall>, step: Step) {
    && (step.StoredL1? || step.StoredL2? ==> step.call in calls)
    && (step.LookedUpL2? ==> step.request.model != "")
  }

  ghost predicate IsPossibleAt(calls: set<ProviderCall>, steps: seq<Step>, i: nat)
    requires i < |steps|
  {
    IsPossible(calls + CallsIn(steps, i), steps[i])
  }

  /** Only a lookup answers, and only with what a call on record returned for the same key, or the same model. */
  ghost predicate IsFound(calls: set<ProviderCall>, step: Step, answer: Option<ChatCompletionResponse>) {
    answer.Some? ==>
      match step
      case LookedUpL1(request) => IsKeyAnswer(calls, request, answer.value)
      case LookedUpL2(request, _) => IsL2Answer(calls, request, answer.value)
      case _ => false
  }

  /** What a step leaves behind, and what a lookup finds, decided by what the caches held before it. */
  ghost predicate IsStepOf(setup: Setup, before: Caches, step: Step, answer: Option<ChatCompletionResponse>,
                           after: Caches)
    requires Vectors.IsSqrt(setup.sqrt)
  {
    match step
    case LookedUpL1(request) =>
      && after == before && (answer.Some? <==> setup.hasL1 && KeyOf(request) in before.hash)
      && (answer.Some? ==> HoldsL1(before.hash, request, answer.value))
    case LookedUpL2(request, worker) =>
      var vector := if setup.asksWorker then VectorFrom(worker, request.messages) else [];
      && after == before
      && if setup.hasL2 && vector != [] then
           IsSearched(setup.sqrt, setup.threshold, before.store, vector, request.model, answer)
         else answer.None?
    case Called(call) =>
      answer.None? && after == before.(calls := before.calls + {call})
    case StoredL1(call) =>
      && answer.None? && after == before.(hash := after.hash)
      && if setup.hasL1 then
           L1Cache.IsWritten(before.hash, setup.maxHash, KeyOf(call.request), Encoded(call.response), after.hash)
         else after.hash == before.hash
    case StoredL2(call, vector, world) =>
      var asked := if setup.asksWorker then VectorFrom(world.atStore, call.request.messages) else [];
      && answer.None? && after == before.(store := after.store)
      && IsHeldL2(setup, world, before.store, call.request, call.response, if vector == [] then asked else vector,
                  after.store)
    case Expired(hashLapses, lapsed) =>
      && answer.None?
      && after == before.(hash := if hashLapses then map[] else before.hash, store := before.store - lapsed)
  }

  ghost predicate IsStepAt(setup: Setup, states: seq<Caches>, steps: seq<Step>,
                           answers: seq<Option<ChatCompletionResponse>>, i: nat)
    requires Vectors.IsSqrt(setup.sqrt) && i + 1 < |states| && i < |steps| && i < |answers|
  {
    IsStepOf(setup, states[i], steps[i], answers[i], states[i + 1]) && IsFound(states[i].calls, steps[i], answers[i])
  }

  /**
   * Each of the answers is given by its own step, from the state that the steps before it left behind; and what it
   * gives, if anything, is what one of the calls before it returned.
   */
  ghost predicate IsRun(setup: Setup, states: seq<Caches>, steps: seq<Step>,
                        answers: seq<Option<ChatCompletionResponse>>)
    requires Vectors.IsSqrt(setup.sqrt)
  {
    && |states| == |answers| + 1 && |answers| <= |steps|
    && forall i: nat :: i < |answers| ==> IsStepAt(setup, states, steps, answers, i)
  }

  lemma RunOneMore(setup: Setup, states: seq<Caches>, steps: seq<Step>, answers: seq<Option<ChatCompletionResponse>>,
                   answer: Option<ChatCompletionResponse>, state: Caches)
    requires Vectors.IsSqrt(setup.sqrt) && IsRun(setup, states, steps, answers) && |answers| < |steps|
    requires IsStepOf(setup, states[|answers|], steps[|answers|], answer, state)
    requires IsFound(states[|answers|].calls, steps[|answers|], answer)
    ensures IsRun(setup, states + [state], steps, answers + [answer])
  {
    forall i: nat | i <= |answers|
      ensures IsStepAt(setup, states + [state], steps, answers + [answer], i)
    {
      if i < |answers| {
        assert IsStepAt(setup, states, steps, answers, i);
      }
    }
  }

  /** In a run, exactly the calls among the steps so far have joined those on record. */
  lemma {:induction false} RunRecordsCalls(setup: Setup, states: seq<Caches>, steps: seq<Step>,
                                           answers: seq<Option<ChatCompletionResponse>>, n: nat)
    requires Vectors.IsSqrt(setup.sqrt) && IsRun(setup, states, steps, answers) && n <= |answers|
    ensures states[n].calls == states[0].calls + CallsIn(steps, n)
  {
    if n > 0 {
      RunRecordsCalls(setup, states, steps, answers, n - 1);
      assert IsStepAt(setup, states, steps, answers, n - 1);
    }
  }

  method TakeStep(handler: ChatHandler, step: Step) returns (answer: Option<ChatCompletionResponse>)
    requires Vectors.IsSqrt(handler.sqrt) && handler.CachesValid() && IsPossible(handler.calls, step)
    modifies handler`calls, handler.l1, handler.l2
    ensures handler.CachesValid()
    ensures handler.calls == old(handler.calls) + CallsOf(step) && IsFound(old(handler.calls), step, answer)
    ensures handler.TheSetup() == old(handler.TheSetup())
    ensures IsStepOf(handler.TheSetup(), old(handler.Held()), step, answer, handler.Held())
  {
    answer := None;
    match step {
      case LookedUpL1(request) =>
        answer := handler.LookupL1(request);
      case LookedUpL2(request, worker) =>
        var found, vector := handler.LookupL2(request, worker);
        answer := found;
      case Called(call) =>
        handler.RecordCall(call);
      case StoredL1(call) =>
        handler.StoreL1(call.request, call.response);
      case StoredL2(call, vector, world) =>
        var panicked := handler.StoreL2(call.request, call.response, vector, world);
      case Expired(hashLapses, lapsed) =>
        handler.Expire(hashLapses, lapsed);
    }
  }

  /**
   * Whatever the order of the steps of whatever requests, what the caches hold stays proven and within size, every
   * lookup that finds something finds what one of the calls before it returned, and every step is decided by what
   * the steps before it left in the caches.
   */
  method Interleave(handler: ChatHandler, steps: seq<Step>)
    returns (answers: seq<Option<ChatCompletionResponse>>, ghost states: seq<Caches>)
    requires Vectors.IsSqrt(handler.sqrt) && handler.CachesValid()
    requires forall i: nat :: i < |steps| ==> IsPossibleAt(handler.calls, steps, i)
    modifies handler`calls, handler.l1, handler.l2
    ensures handler.CachesValid()
    ensures handler.calls == old(handler.calls) + CallsIn(steps, |steps|)
    ensures |answers| == |steps| && IsRun(handler.TheSetup(), states, steps, answers)
    ensures states[0] == old(handler.Held()) && states[|steps|] == handler.Held()
  {
    ghost var calls, setup := handler.calls, handler.TheSetup();
    answers, states := [], [handler.Held()];
    for n := 0 to |steps|
      invariant handler.CachesValid() && handler.TheSetup() == setup
      invariant handler.calls == calls + CallsIn(steps, n)
      invariant |answers| == n && IsRun(setup, states, steps, answers)
      invariant states[0] == old(handler.Held()) && states[n] == handler.Held()
    {
      assert IsPossibleAt(calls, steps, n);
      var answer := TakeStep(handler, steps[n]);
      RunOneMore(setup, states, steps, answers, answer, handler.Held());
      answers, states := answers + [answer], states + [handler.Held()];
    }
  }

  // ---------- The same request again ----------

  lemma AnsweredIsHeld(setup: Setup, world: World, before: Snapshot, request: ChatCompletionRequest,
                       queue: seq<Routing.Route>, trace: seq<Registry.Attempt>, reply: Reply, after: Snapshot)
    requires Vectors.IsSqrt(setup.sqrt) && setup.hasL1
    requires reply.FromL1? || reply.FromProvider? || reply.Panicked?
    requires IsServed(setup, world, before, request, queue, trace, reply, after)
    ensures HoldsL1(after.caches.hash, request, reply.response)
  {
    if !reply.FromL1? {
      L1Cache.WrittenKeeps(before.caches.hash, setup.maxHash, KeyOf(request), Encoded(reply.response),
                           after.caches.hash);
    }
  }

  lemma HeldIsAnswered(setup: Setup, world: World, before: Snapshot, request: ChatCompletionRequest,
                       queue: seq<Routing.Route>, trace: seq<Registry.Attempt>, reply: Reply, after: Snapshot,
                       held: ChatCompletionResponse)
    requires Vectors.IsSqrt(setup.sqrt) && setup.hasL1 && HoldsL1(before.caches.hash, request, held)
    requires IsServed(setup, world, before, request, queue, trace, reply, after)
    ensures reply == FromL1(held)
  {
    HeldResponseIsUnique(before.caches.hash, request, reply.response, held);
  }

  /** As long as the exact cache still holds it, a response once received is what the same request gets next. */
  method AskAgain(handler: ChatHandler, request: ChatCompletionRequest, world: World, again: World)
    returns (first: Reply, second: Reply)
    requires handler.Valid() && handler.cacheEnabled && handler.hasL1 && handler.l1.enabled && request.model != ""
    requires Registry.IsWorld(world.registry) && Registry.IsWorld(again.registry)
    modifies handler`calls, handler.l1, handler.l2, handler.registry`circuits, handler.registry.circuits.Values
    ensures handler.Valid()
    ensures first.FromL1? || first.FromProvider? || first.Panicked? ==> second == FromL1(first.response)
  {
    ghost var setup, before := handler.TheSetup(), handler.Current();
    ghost var queue, trace, queue', trace';
    first, queue, trace := handler.ServeRequest(request, world);
    ghost var between := handler.Current();
    second, queue', trace' := handler.ServeRequest(request, again);
    if first.FromL1? || first.FromProvider? || first.Panicked? {
      AnsweredIsHeld(setup, world, before, request, queue, trace, first, between);
      HeldIsAnswered(setup, again, between, request, queue', trace', second, handler.Current(), first.response);
    }
  }
}
