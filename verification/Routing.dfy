/** What the provider registry promises about routes: keys, fallback chains and route queues. */
module Routing {
  import opened Text

  /** A route candidate: one provider serving one model. */
  datatype Route = Route(modelName: string, providerName: string, weight: int, fallback: string)

  ghost predicate NoRepeats<T>(s: seq<T>) {
    forall i, j :: 0 <= i < j < |s| ==> s[i] != s[j]
  }

  function DetectProvider(model: string): string {
    var lower := ToLower(model);
    if HasPrefix(lower, "claude") then "anthropic"
    else if HasPrefix(lower, "abab") then "minimax"
    else "openai"
  }

  /** Names that begin with claude or abab, in any case, suggest Anthropic and MiniMax; all others OpenAI. */
  lemma NameSuggestsProvider(model: string)
    ensures DetectProvider(model) in {"anthropic", "minimax", "openai"}
    ensures DetectProvider(model) == "anthropic" <==> |model| >= 6 && ToLower(model[..6]) == "claude"
    ensures DetectProvider(model) == "minimax" <==> |model| >= 4 && ToLower(model[..4]) == "abab"
  {
    var lower := ToLower(model);
    if |model| >= 6 {
      assert lower[..6] == ToLower(model[..6]);
    }
    if |model| >= 4 {
      assert lower[..4] == ToLower(model[..4]);
      assert lower[..4] == "abab" ==> lower[0] == 'a';
    }
    assert HasPrefix(lower, "claude") ==> lower[0] == 'c';
  }

  // ---------- Circuit keys ----------

  function CircuitKeyOf(providerName: string, modelName: string): string {
    providerName + ":" + modelName
  }

  function CircuitKey(route: Route): string {
    CircuitKeyOf(route.providerName, route.modelName)
  }

  lemma CollidesWhenExtended(p: string, q: string)
    requires p + ":" <= q
    ensures exists m :: CircuitKeyOf(p, m) == CircuitKeyOf(q, "") && p != q
  {
    var m := q[|p| + 1..] + ":";
    assert q == (p + ":") + q[|p| + 1..];
    assert CircuitKeyOf(p, m) == CircuitKeyOf(q, "");
  }

  lemma ShorterExtends(p: string, m: string, q: string, n: string)
    requires CircuitKeyOf(p, m) == CircuitKeyOf(q, n) && |p| < |q|
    ensures p + ":" <= q
  {
    var key := CircuitKeyOf(p, m);
    assert q == key[..|q|] && p + ":" == key[..|p| + 1];
  }

  lemma SameKeySplits(p: string, m: string, q: string, n: string)
    requires CircuitKeyOf(p, m) == CircuitKeyOf(q, n)
    requires !(p + ":" <= q) && !(q + ":" <= p)
    ensures p == q && m == n
  {
    var key := CircuitKeyOf(p, m);
    assert p == key[..|p|] && q == key[..|q|];
    if |p| < |q| {
      ShorterExtends(p, m, q, n);
    } else if |q| < |p| {
      ShorterExtends(q, n, p, m);
    } else {
      assert m == key[|p| + 1..] && n == key[|q| + 1..];
    }
  }

  /**
   * Two providers can never share a breaker by accident exactly when neither name is the other one continued
   * past a colon; then equal keys mean equal provider and model.
   */
  lemma CircuitKeyInjectiveIff(p: string, q: string)
    ensures
      (forall m, n :: CircuitKeyOf(p, m) == CircuitKeyOf(q, n) ==> p == q && m == n) <==>
      !(p + ":" <= q) && !(q + ":" <= p)
  {
    if p + ":" <= q {
      CollidesWhenExtended(p, q);
    } else if q + ":" <= p {
      CollidesWhenExtended(q, p);
    } else {
      forall m, n | CircuitKeyOf(p, m) == CircuitKeyOf(q, n)
        ensures p == q && m == n
      {
        SameKeySplits(p, m, q, n);
      }
    }
  }

  lemma ColonFreeProvidersShareNoKey(a: Route, b: Route)
    requires ':' !in a.providerName && ':' !in b.providerName
    requires CircuitKey(a) == CircuitKey(b)
    ensures a.providerName == b.providerName && a.modelName == b.modelName
  {
    var p, q := a.providerName, b.providerName;
    assert (p + ":")[|p|] == ':' && (q + ":")[|q|] == ':';
    SameKeySplits(p, a.modelName, q, b.modelName);
  }

  // ---------- Fallback chains ----------

  /** The model that requests for `model` fall back to, or "" when there is none. */
  function NextModel(fallbacks: map<string, string>, model: string): string {
    Trim(if model in fallbacks then fallbacks[model] else "")
  }

  /** The model after `n` fallback links, or "" once the links run out. */
  function NthModel(fallbacks: map<string, string>, start: string, n: nat): string {
    if n == 0 then start
    else
      var model := NthModel(fallbacks, start, n - 1);
      if model == "" then "" else NextModel(fallbacks, model)
  }

  ghost predicate Reachable(fallbacks: map<string, string>, start: string, model: string) {
    model != "" && exists n: nat :: NthModel(fallbacks, start, n) == model
  }

  /** The chain lists, link by link and without repeats, exactly the models reachable from its start. */
  ghost predicate IsFallbackChain(fallbacks: map<string, string>, start: string, chain: seq<string>) {
    && chain != [] && chain[0] == start
    && NoRepeats(chain)
    && (forall i :: 0 < i < |chain| ==> chain[i] == NextModel(fallbacks, chain[i - 1]))
    && (forall model :: model in chain <==> Reachable(fallbacks, start, model))
  }

  /** Following links from the start never leaves a list that every link stays inside. */
  lemma {:induction false} ClosedUnderFallback(fallbacks: map<string, string>, start: string, chain: seq<string>,
                                               n: nat)
    requires chain != [] && start in chain
    requires forall model :: model in chain ==>
      NextModel(fallbacks, model) == "" || NextModel(fallbacks, model) in chain
    ensures NthModel(fallbacks, start, n) == "" || NthModel(fallbacks, start, n) in chain
  {
    if n > 0 {
      ClosedUnderFallback(fallbacks, start, chain, n - 1);
    }
  }

  /** A list of models, each the fallback of the one before it. */
  ghost predicate IsLinked(fallbacks: map<string, string>, start: string, chain: seq<string>) {
    && chain != [] && chain[0] == start
    && NoRepeats(chain)
    && (forall i :: 0 <= i < |chain| ==> chain[i] != "")
    && (forall i :: 0 < i < |chain| ==> chain[i] == NextModel(fallbacks, chain[i - 1]))
  }

  lemma LinkOneMore(fallbacks: map<string, string>, start: string, chain: seq<string>, next: string)
    requires IsLinked(fallbacks, start, chain)
    requires next == NextModel(fallbacks, chain[|chain| - 1]) && next != "" && next !in chain
    ensures IsLinked(fallbacks, start, chain + [next])
  {
  }

  lemma {:induction false} ChainLinksAreNth(fallbacks: map<string, string>, start: string, chain: seq<string>, i: nat)
    requires IsLinked(fallbacks, start, chain) && i < |chain|
    ensures NthModel(fallbacks, start, i) == chain[i]
  {
    if i > 0 {
      ChainLinksAreNth(fallbacks, start, chain, i - 1);
    }
  }

  /** A linked list whose last link ends or loops back is the fallback chain. */
  lemma LinkedListIsChain(fallbacks: map<string, string>, start: string, chain: seq<string>)
    requires IsLinked(fallbacks, start, chain)
    requires
      var after := NextModel(fallbacks, chain[|chain| - 1]);
      after == "" || after in chain
    ensures IsFallbackChain(fallbacks, start, chain)
  {
    forall model | model in chain
      ensures NextModel(fallbacks, model) == "" || NextModel(fallbacks, model) in chain
      ensures Reachable(fallbacks, start, model)
    {
      var i :| 0 <= i < |chain| && chain[i] == model;
      ChainLinksAreNth(fallbacks, start, chain, i);
      if i + 1 < |chain| {
        assert chain[i + 1] == NextModel(fallbacks, model);
      }
    }
    forall model | Reachable(fallbacks, start, model)
      ensures model in chain
    {
      var n: nat :| NthModel(fallbacks, start, n) == model;
      ClosedUnderFallback(fallbacks, start, chain, n);
    }
  }

  ghost predicate FallsBackTo(fallbacks: map<string, string>, model: string, next: string) {
    model in fallbacks && next == Trim(fallbacks[model]) && next != ""
  }

  lemma FallbackIsInChain(fallbacks: map<string, string>, start: string, chain: seq<string>, model: string,
                          next: string)
    requires IsFallbackChain(fallbacks, start, chain) && model in chain && FallsBackTo(fallbacks, model, next)
    ensures next in chain
  {
    assert Reachable(fallbacks, start, model);
    var n: nat :| NthModel(fallbacks, start, n) == model;
    assert NthModel(fallbacks, start, n + 1) == NextModel(fallbacks, model);
  }

  /** A chain goes on exactly as the fallbacks say, trimmed, until there is none or it is in the chain already. */
  lemma ChainFollowsFallbacks(fallbacks: map<string, string>, start: string, chain: seq<string>)
    requires IsFallbackChain(fallbacks, start, chain) && start != ""
    ensures chain[0] == start
    ensures forall i :: 0 <= i < |chain| - 1 ==> FallsBackTo(fallbacks, chain[i], chain[i + 1])
    ensures
      var last := chain[|chain| - 1];
      last in fallbacks && Trim(fallbacks[last]) != "" ==> Trim(fallbacks[last]) in chain
  {
    TrimIsEmptyIff("");
    forall i | 0 <= i < |chain| - 1
      ensures FallsBackTo(fallbacks, chain[i], chain[i + 1])
    {
      assert chain[i + 1] in chain && chain[i + 1] == NextModel(fallbacks, chain[i]);
    }
    var last := chain[|chain| - 1];
    assert last in chain && Reachable(fallbacks, start, last);
    if last in fallbacks && Trim(fallbacks[last]) != "" {
      var n: nat :| NthModel(fallbacks, start, n) == last;
      assert NthModel(fallbacks, start, n + 1) == NextModel(fallbacks, last);
    }
  }

  /** The chain a request's model resolves to; a blank but non-empty name stands for itself. */
  ghost predicate ResolvesTo(fallbacks: map<string, string>, model: string, chain: seq<string>) {
    if Trim(model) != "" then IsFallbackChain(fallbacks, Trim(model), chain)
    else chain == if model == "" then [] else [model]
  }

  // ---------- Route queues ----------

  /** The configured routes of a model, or the one route its name suggests. */
  function RoutesFor(routes: map<string, seq<Route>>, model: string): seq<Route> {
    if model in routes && |routes[model]| > 0 then routes[model]
    else [Route(model, DetectProvider(model), 1, "")]
  }

  ghost predicate DistinctKeys(queue: seq<Route>) {
    forall i, j :: 0 <= i < j < |queue| ==> CircuitKey(queue[i]) != CircuitKey(queue[j])
  }

  function KeysOf(queue: seq<Route>): set<string> {
    set route | route in queue :: CircuitKey(route)
  }

  function KeysOfModels(routes: map<string, seq<Route>>, models: seq<string>): set<string> {
    set m, route | m in models && route in RoutesFor(routes, m) :: CircuitKey(route)
  }

  ghost predicate HasPrefixWithKeys(queue: seq<Route>, keys: set<string>) {
    exists n :: 0 <= n <= |queue| && KeysOf(queue[..n]) == keys
  }

  /**
   * A queue for a chain of models: no circuit key comes twice, every entry is a route of some model of the
   * chain, and the models come in chain order: each part of the chain has its keys in a prefix of the queue.
   */
  ghost predicate IsRouteQueue(routes: map<string, seq<Route>>, chain: seq<string>, queue: seq<Route>) {
    && DistinctKeys(queue)
    && (forall route :: route in queue ==> exists m :: m in chain && route in RoutesFor(routes, m))
    && (forall m :: 0 <= m <= |chain| ==> HasPrefixWithKeys(queue, KeysOfModels(routes, chain[..m])))
  }

  /** Appends the routes whose keys are not in the queue yet. */
  function EnqueueAll(queue: seq<Route>, routes: seq<Route>): seq<Route> {
    if routes == [] then queue
    else
      var last := routes[|routes| - 1];
      var before := EnqueueAll(queue, routes[..|routes| - 1]);
      if CircuitKey(last) in KeysOf(before) then before else before + [last]
  }

  lemma KeysOfOneMore(queue: seq<Route>, route: Route)
    ensures KeysOf(queue + [route]) == KeysOf(queue) + {CircuitKey(route)}
  {
  }

  lemma {:induction false} EnqueueAllExtends(queue: seq<Route>, routes: seq<Route>)
    requires DistinctKeys(queue)
    ensures
      var after := EnqueueAll(queue, routes);
      && queue <= after
      && DistinctKeys(after)
      && KeysOf(after) == KeysOf(queue) + KeysOf(routes)
      && forall route :: route in after ==> route in queue || route in routes
  {
    if routes != [] {
      var last, init := routes[|routes| - 1], routes[..|routes| - 1];
      EnqueueAllExtends(queue, init);
      assert routes == init + [last];
      KeysOfOneMore(init, last);
      KeysOfOneMore(EnqueueAll(queue, init), last);
    }
  }

  lemma EnqueueNext(queue: seq<Route>, routes: seq<Route>, k: nat)
    requires k < |routes|
    ensures
      var before := EnqueueAll(queue, routes[..k]);
      && KeysOf(before + [routes[k]]) == KeysOf(before) + {CircuitKey(routes[k])}
      && EnqueueAll(queue, routes[..k + 1]) ==
         if CircuitKey(routes[k]) in KeysOf(before) then before else before + [routes[k]]
  {
    assert routes[..k + 1][..k] == routes[..k];
    KeysOfOneMore(EnqueueAll(queue, routes[..k]), routes[k]);
  }

  lemma PrefixKeysSurvive(queue: seq<Route>, after: seq<Route>, keys: set<string>)
    requires queue <= after && HasPrefixWithKeys(queue, keys)
    ensures HasPrefixWithKeys(after, keys)
  {
    var n :| 0 <= n <= |queue| && KeysOf(queue[..n]) == keys;
    assert after[..n] == queue[..n];
  }

  lemma KeysOfOneMoreModel(routes: map<string, seq<Route>>, models: seq<string>, m: string)
    ensures KeysOfModels(routes, models + [m]) == KeysOfModels(routes, models) + KeysOf(RoutesFor(routes, m))
  {
  }

  lemma PrefixHasAllKeys(routes: map<string, seq<Route>>, chain: seq<string>, queue: seq<Route>)
    requires IsRouteQueue(routes, chain, queue)
    ensures KeysOf(queue) == KeysOfModels(routes, chain)
  {
    assert chain[..|chain|] == chain;
    var n :| 0 <= n <= |queue| && KeysOf(queue[..n]) == KeysOfModels(routes, chain);
    assert queue == queue[..n] + queue[n..];
  }

  /** Enqueueing the routes of the next model, in any order, extends a route queue to one model more. */
  lemma EnqueueModel(routes: map<string, seq<Route>>, models: seq<string>, m: string, queue: seq<Route>,
                     ordered: seq<Route>)
    requires IsRouteQueue(routes, models, queue)
    requires forall route :: route in ordered <==> route in RoutesFor(routes, m)
    ensures IsRouteQueue(routes, models + [m], EnqueueAll(queue, ordered))
  {
    var after, longer := EnqueueAll(queue, ordered), models + [m];
    EnqueueAllExtends(queue, ordered);
    forall k | 0 <= k <= |longer|
      ensures HasPrefixWithKeys(after, KeysOfModels(routes, longer[..k]))
    {
      if k <= |models| {
        assert longer[..k] == models[..k];
        PrefixKeysSurvive(queue, after, KeysOfModels(routes, models[..k]));
      } else {
        PrefixHasAllKeys(routes, models, queue);
        KeysOfOneMoreModel(routes, models, m);
        assert KeysOf(ordered) == KeysOf(RoutesFor(routes, m));
        assert longer[..k] == longer && after[..|after|] == after;
      }
    }
    forall route | route in after
      ensures exists n :: n in longer && route in RoutesFor(routes, n)
    {
      if route in queue {
        var n :| n in models && route in RoutesFor(routes, n);
        assert n in longer;
      } else {
        assert m in longer;
      }
    }
  }

  lemma EmptyRouteQueue(routes: map<string, seq<Route>>, chain: seq<string>)
    ensures IsRouteQueue(routes, chain[..0], [])
  {
  }

  lemma QueueEmptyIffChainEmpty(routes: map<string, seq<Route>>, chain: seq<string>, queue: seq<Route>)
    requires IsRouteQueue(routes, chain, queue)
    ensures queue == [] <==> chain == []
  {
    PrefixHasAllKeys(routes, chain, queue);
    assert queue != [] ==> queue[0] in queue && CircuitKey(queue[0]) in KeysOf(queue);
    if chain != [] {
      var route := RoutesFor(routes, chain[0])[0];
      assert CircuitKey(route) in KeysOf(queue);
    }
  }

  /** Every configured route names the model it is filed under, as the configuration loader arranges. */
  ghost predicate FiledByModel(routes: map<string, seq<Route>>) {
    forall model, route :: model in routes && route in routes[model] ==> route.modelName == model
  }

  /** No provider of the chain's routes is another one continued past a colon. */
  ghost predicate NoProviderContinued(routes: map<string, seq<Route>>, chain: seq<string>) {
    forall m, n, route, other ::
      m in chain && n in chain && route in RoutesFor(routes, m) && other in RoutesFor(routes, n) ==>
        !(route.providerName + ":" <= other.providerName)
  }

  /** Unless one provider's name continues another's past a colon, de-duplication drops only true repeats. */
  lemma QueueKeepsEveryRoute(routes: map<string, seq<Route>>, chain: seq<string>, queue: seq<Route>, m: string,
                             route: Route)
    requires IsRouteQueue(routes, chain, queue) && NoProviderContinued(routes, chain)
    requires m in chain && route in RoutesFor(routes, m)
    ensures exists kept ::
      kept in queue && kept.modelName == route.modelName && kept.providerName == route.providerName
  {
    PrefixHasAllKeys(routes, chain, queue);
    assert CircuitKey(route) in KeysOf(queue);
    var kept :| kept in queue && CircuitKey(kept) == CircuitKey(route);
    var n :| n in chain && kept in RoutesFor(routes, n);
    SameKeySplits(kept.providerName, kept.modelName, route.providerName, route.modelName);
  }

  /** Enqueueing appends some of the routes and leaves the queue in front of them as it was. */
  lemma {:induction false} EnqueueAllAppends(queue: seq<Route>, routes: seq<Route>)
    ensures
      var after := EnqueueAll(queue, routes);
      queue <= after && forall k :: |queue| <= k < |after| ==> after[k] in routes
  {
    if routes != [] {
      EnqueueAllAppends(queue, routes[..|routes| - 1]);
    }
  }

  lemma QueuedModelIsInChain(routes: map<string, seq<Route>>, chain: seq<string>, queue: seq<Route>, i: nat)
    requires IsRouteQueue(routes, chain, queue) && FiledByModel(routes) && i < |queue|
    ensures queue[i].modelName in chain
  {
    assert queue[i] in queue;
  }

  lemma RouteIsQueued(routes: map<string, seq<Route>>, chain: seq<string>, queue: seq<Route>, m: string, route: Route)
    requires IsRouteQueue(routes, chain, queue) && m in chain && route in RoutesFor(routes, m)
    ensures exists q :: q in queue && q.providerName + ":" + q.modelName == route.providerName + ":" + route.modelName
  {
    assert chain[..|chain|] == chain;
    var k :| 0 <= k <= |queue| && KeysOf(queue[..k]) == KeysOfModels(routes, chain);
    assert CircuitKey(route) in KeysOf(queue[..k]);
    var q :| q in queue[..k] && CircuitKey(q) == CircuitKey(route);
    assert q in queue;
  }

  /** The queue takes the models in chain order: its routes never return to an earlier model. */
  ghost predicate InChainOrder(chain: seq<string>, queue: seq<Route>) {
    && (forall k :: 0 <= k < |queue| ==> queue[k].modelName in chain)
    && (forall i, j, a, b ::
          0 <= i < j < |queue| && 0 <= a < |chain| && 0 <= b < |chain| ==>
            (queue[i].modelName == chain[a] && queue[j].modelName == chain[b] ==> a <= b))
  }

  /** Appending routes of a model that is new to the chain keeps the queue in chain order. */
  lemma ChainOrderOneMore(chain: seq<string>, queue: seq<Route>, m: string, longer: seq<Route>)
    requires InChainOrder(chain, queue) && NoRepeats(chain + [m]) && queue <= longer
    requires forall k :: |queue| <= k < |longer| ==> longer[k].modelName == m
    ensures InChainOrder(chain + [m], longer)
  {
    var all := chain + [m];
    assert all[|chain|] == m;
    forall i, j, a, b | 0 <= i < j < |longer| && 0 <= a < |all| && 0 <= b < |all|
                        && longer[i].modelName == all[a] && longer[j].modelName == all[b]
      ensures a <= b
    {
      if j < |queue| {
        assert longer[i] == queue[i] && longer[j] == queue[j];
        var c :| 0 <= c < |chain| && chain[c] == queue[j].modelName;
        assert all[c] == all[b];
        var d :| 0 <= d < |chain| && chain[d] == queue[i].modelName;
        assert all[d] == all[a];
      } else {
        assert all[b] == all[|chain|];
      }
    }
    forall k | 0 <= k < |longer|
      ensures longer[k].modelName in all
    {
      if k < |queue| {
        assert longer[k] == queue[k];
      }
    }
  }

  // ---------- Configuration ----------

  datatype ModelConfig = ModelConfig(name: string, provider: string, weight: int, fallback: string, isActive: bool)

  predicate IsRouted(model: ModelConfig) {
    Trim(model.name) != "" && model.isActive
  }

  function Candidate(model: ModelConfig): Route {
    var providerName := ToLower(Trim(model.provider));
    Route(model.name,
          if providerName == "" then DetectProvider(model.name) else providerName,
          if model.weight <= 0 then 1 else model.weight,
          Trim(model.fallback))
  }

  /** The candidates of the routed models, in configuration order. */
  function Candidates(models: seq<ModelConfig>): seq<Route> {
    if models == [] then []
    else
      var last := models[|models| - 1];
      Candidates(models[..|models| - 1]) + if IsRouted(last) then [Candidate(last)] else []
  }

  lemma CandidatesOneMore(models: seq<ModelConfig>, i: nat)
    requires i < |models|
    ensures Candidates(models[..i + 1]) ==
            if IsRouted(models[i]) then Candidates(models[..i]) + [Candidate(models[i])] else Candidates(models[..i])
  {
    assert models[..i + 1][..i] == models[..i];
  }

  function Named(candidates: seq<Route>, name: string): seq<Route> {
    if candidates == [] then []
    else
      var last := candidates[|candidates| - 1];
      Named(candidates[..|candidates| - 1], name) + if last.modelName == name then [last] else []
  }

  /** The first fallback that any candidate of the model names, or "". */
  function FirstFallback(candidates: seq<Route>, name: string): string {
    if candidates == [] then ""
    else
      var earlier := FirstFallback(candidates[..|candidates| - 1], name);
      var last := candidates[|candidates| - 1];
      if earlier != "" then earlier
      else if last.modelName == name then last.fallback
      else ""
  }

  /** Routes and fallbacks as the configuration gives them. */
  ghost predicate IsConfigured(candidates: seq<Route>, routes: map<string, seq<Route>>,
                               fallbacks: map<string, string>) {
    && (forall name :: name in routes <==> Named(candidates, name) != [])
    && (forall name :: name in routes ==> routes[name] == Named(candidates, name))
    && (forall name :: name in fallbacks <==> FirstFallback(candidates, name) != "")
    && (forall name :: name in fallbacks ==> fallbacks[name] == FirstFallback(candidates, name))
  }

  /** Adding a candidate files it under its model and lets it name the fallback if none is named yet. */
  lemma ConfigureOneMore(candidates: seq<Route>, routes: map<string, seq<Route>>, fallbacks: map<string, string>,
                         candidate: Route)
    requires IsConfigured(candidates, routes, fallbacks)
    ensures
      var name := candidate.modelName;
      var listed := if name in routes then routes[name] else [];
      IsConfigured(candidates + [candidate], routes[name := listed + [candidate]],
                   if candidate.fallback != "" && name !in fallbacks then fallbacks[name := candidate.fallback]
                   else fallbacks)
  {
    assert (candidates + [candidate])[..|candidates|] == candidates;
  }

  lemma {:induction false} NamedAreFiled(candidates: seq<Route>, name: string, route: Route)
    requires route in Named(candidates, name)
    ensures route in candidates && route.modelName == name
  {
    if route !in Named(candidates[..|candidates| - 1], name) {
      assert candidates[|candidates| - 1] == route;
    } else {
      NamedAreFiled(candidates[..|candidates| - 1], name, route);
    }
  }

  lemma {:induction false} CandidatesHaveWeight(models: seq<ModelConfig>, route: Route)
    requires route in Candidates(models)
    ensures route.weight > 0
  {
    if route in Candidates(models[..|models| - 1]) {
      CandidatesHaveWeight(models[..|models| - 1], route);
    }
  }

  /** Configured routes are filed under their own model and carry a positive weight. */
  lemma ConfiguredRoutesAreFiled(models: seq<ModelConfig>, routes: map<string, seq<Route>>,
                                 fallbacks: map<string, string>)
    requires IsConfigured(Candidates(models), routes, fallbacks)
    ensures FiledByModel(routes)
    ensures forall name, route :: name in routes && route in routes[name] ==> route.weight > 0
  {
    forall name, route | name in routes && route in routes[name]
      ensures route.modelName == name && route.weight > 0
    {
      NamedAreFiled(Candidates(models), name, route);
      CandidatesHaveWeight(models, route);
    }
  }

  /** The active models of this name, in configuration order. */
  function ActiveNamed(models: seq<ModelConfig>, name: string): seq<ModelConfig> {
    if models == [] then []
    else
      var last := models[|models| - 1];
      ActiveNamed(models[..|models| - 1], name) + if last.isActive && last.name == name then [last] else []
  }

  /** What a configured model becomes: defaults for a missing provider and weight, and a trimmed fallback. */
  ghost predicate IsRouteOf(model: ModelConfig, route: Route) {
    && route.modelName == model.name
    && (Trim(model.provider) != "" ==> route.providerName == ToLower(Trim(model.provider)))
    && (Trim(model.provider) == "" ==> route.providerName == DetectProvider(model.name))
    && (model.weight >= 1 ==> route.weight == model.weight) && (model.weight < 1 ==> route.weight == 1)
    && route.fallback == Trim(model.fallback)
  }

  ghost predicate AreRoutesOf(configs: seq<ModelConfig>, routes: seq<Route>) {
    |routes| == |configs| && forall k :: 0 <= k < |configs| ==> IsRouteOf(configs[k], routes[k])
  }

  lemma NamedOneMore(candidates: seq<Route>, candidate: Route, name: string)
    ensures Named(candidates + [candidate], name) ==
            Named(candidates, name) + if candidate.modelName == name then [candidate] else []
  {
    assert (candidates + [candidate])[..|candidates|] == candidates;
  }

  lemma RouteOneMore(configs: seq<ModelConfig>, routes: seq<Route>, model: ModelConfig)
    requires AreRoutesOf(configs, routes)
    ensures AreRoutesOf(configs + [model], routes + [Candidate(model)])
  {
    assert IsRouteOf(model, Candidate(model));
  }

  lemma {:induction false} NamedAreActive(models: seq<ModelConfig>, name: string)
    requires Trim(name) != ""
    ensures AreRoutesOf(ActiveNamed(models, name), Named(Candidates(models), name))
  {
    if models != [] {
      var init, last := models[..|models| - 1], models[|models| - 1];
      NamedAreActive(init, name);
      if IsRouted(last) {
        NamedOneMore(Candidates(init), Candidate(last), name);
        if last.name == name {
          RouteOneMore(ActiveNamed(init, name), Named(Candidates(init), name), last);
        }
      } else {
        assert Candidates(models) == Candidates(init);
      }
    }
  }

  /** Each model has one route for every active configuration entry of its name, in that order. */
  lemma RoutesAreConfigured(models: seq<ModelConfig>, routes: map<string, seq<Route>>, fallbacks: map<string, string>,
                            name: string)
    requires IsConfigured(Candidates(models), routes, fallbacks) && Trim(name) != ""
    ensures name in routes <==> ActiveNamed(models, name) != []
    ensures name in routes ==> AreRoutesOf(ActiveNamed(models, name), routes[name])
  {
    NamedAreActive(models, name);
  }

  lemma FallbackOneMore(candidates: seq<Route>, candidate: Route, name: string)
    ensures FirstFallback(candidates + [candidate], name) ==
            if FirstFallback(candidates, name) != "" || candidate.modelName != name then FirstFallback(candidates, name)
            else candidate.fallback
  {
    assert (candidates + [candidate])[..|candidates|] == candidates;
  }

  lemma {:induction false} FirstFallbackIsFirst(models: seq<ModelConfig>, name: string) returns (k: nat)
    requires Trim(name) != ""
    ensures k <= |ActiveNamed(models, name)|
    ensures forall j :: 0 <= j < k ==> Trim(ActiveNamed(models, name)[j].fallback) == ""
    ensures FirstFallback(Candidates(models), name) ==
            if k < |ActiveNamed(models, name)| then Trim(ActiveNamed(models, name)[k].fallback) else ""
    ensures k < |ActiveNamed(models, name)| ==> Trim(ActiveNamed(models, name)[k].fallback) != ""
  {
    k := 0;
    if models != [] {
      var init, last := models[..|models| - 1], models[|models| - 1];
      k := FirstFallbackIsFirst(init, name);
      if IsRouted(last) {
        FallbackOneMore(Candidates(init), Candidate(last), name);
      } else {
        assert Candidates(models) == Candidates(init);
      }
      if k == |ActiveNamed(init, name)| && last.isActive && last.name == name && Trim(last.fallback) == "" {
        k := k + 1;
      }
    }
  }

  /** A model falls back to what the first of its active entries says that says anything. */
  lemma FallbackIsConfigured(models: seq<ModelConfig>, routes: map<string, seq<Route>>,
                             fallbacks: map<string, string>, name: string) returns (k: nat)
    requires IsConfigured(Candidates(models), routes, fallbacks) && Trim(name) != ""
    ensures k <= |ActiveNamed(models, name)|
    ensures forall j :: 0 <= j < k ==> Trim(ActiveNamed(models, name)[j].fallback) == ""
    ensures name in fallbacks <==> k < |ActiveNamed(models, name)|
    ensures name in fallbacks ==> fallbacks[name] == Trim(ActiveNamed(models, name)[k].fallback) != ""
  {
    k := FirstFallbackIsFirst(models, name);
  }
}
