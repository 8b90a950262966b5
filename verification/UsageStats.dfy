/** The usage aggregator: counters and running means kept request by request, equal to the batch over the history. */
module UsageStats {
  import opened Listings

  datatype RequestMetric = RequestMetric(
    endpoint: string, model: string, statusCode: int, latency: int, cacheHit: bool, totalTokens: int)

  /** A metric and the time at which it was recorded. */
  datatype Event = Event(metric: RequestMetric, at: string)

  datatype Usage = Usage(
    requests: int, errors: int, totalTokens: int, avgLatencyMs: real, lastStatus: int, lastUpdatedAt: string)

  datatype UsageSnapshot = UsageSnapshot(
    totalRequests: int, totalTokens: int, totalCost: real, cacheHitRate: real, models: map<string, Usage>)

  const NANOSECONDS_PER_MILLISECOND := 1_000_000

  /** Whole milliseconds of a duration in nanoseconds, truncated toward zero. */
  function Milliseconds(duration: int): (ms: int)
    ensures duration >= 0 ==> ms * 1_000_000 <= duration < (ms + 1) * 1_000_000
    ensures duration <= 0 ==> (ms - 1) * 1_000_000 < duration <= ms * 1_000_000
  {
    if duration >= 0 then duration / NANOSECONDS_PER_MILLISECOND else -(-duration / NANOSECONDS_PER_MILLISECOND)
  }

  function ModelOf(metric: RequestMetric): string {
    if metric.model == "" then "unknown" else metric.model
  }

  function PositiveTokens(metric: RequestMetric): int {
    if metric.totalTokens > 0 then metric.totalTokens else 0
  }

  // ---------- The batch ----------

  /** The events of one model, in order. */
  function OfModel(history: seq<Event>, model: string): seq<Event> {
    if history == [] then []
    else
      var last := history[|history| - 1];
      var before := OfModel(history[..|history| - 1], model);
      if ModelOf(last.metric) == model then before + [last] else before
  }

  function Errors(events: seq<Event>): int {
    if events == [] then 0
    else Errors(events[..|events| - 1]) + if events[|events| - 1].metric.statusCode >= 400 then 1 else 0
  }

  function Tokens(events: seq<Event>): int {
    if events == [] then 0
    else Tokens(events[..|events| - 1]) + PositiveTokens(events[|events| - 1].metric)
  }

  function CacheHits(events: seq<Event>): int {
    if events == [] then 0
    else CacheHits(events[..|events| - 1]) + if events[|events| - 1].metric.cacheHit then 1 else 0
  }

  /** The latencies of the events added up, in milliseconds. */
  function Latency(events: seq<Event>): int {
    if events == [] then 0
    else Latency(events[..|events| - 1]) + Milliseconds(events[|events| - 1].metric.latency)
  }

  /** What a model's usage must be after these events of it: sums, the exact mean, and the latest status and time. */
  function UsageOf(events: seq<Event>): Usage
    requires events != []
  {
    var last := events[|events| - 1];
    Usage(|events|, Errors(events), Tokens(events), Latency(events) as real / |events| as real,
          last.metric.statusCode, last.at)
  }

  type Usages = map<string, Usage>

  ghost predicate UsageAgrees(usages: Usages, history: seq<Event>, model: string) {
    var events := OfModel(history, model);
    if events == [] then model !in usages else model in usages && usages[model] == UsageOf(events)
  }

  /** The models on record are those of the history, each with the usage of its own events. */
  ghost predicate UsagesAgree(usages: Usages, history: seq<Event>) {
    forall model :: UsageAgrees(usages, history, model)
  }

  // ---------- One event ----------

  const UNUSED := Usage(0, 0, 0, 0.0, 0, "")

  /** The mean of n values, from the mean of all but the last and the last. */
  function MovedMean(mean: real, n: int, x: real): real
    requires n > 1
  {
    (mean * (n - 1) as real + x) / n as real
  }

  /** One more event counted into a model's usage; the mean is moved rather than computed again. */
  function AddEvent(usage: Usage, event: Event): Usage
    requires usage.requests >= 0
  {
    var n, ms := usage.requests + 1, Milliseconds(event.metric.latency) as real;
    Usage(n, if event.metric.statusCode >= 400 then usage.errors + 1 else usage.errors,
          usage.totalTokens + PositiveTokens(event.metric),
          if n == 1 then ms else MovedMean(usage.avgLatencyMs, n, ms),
          event.metric.statusCode, event.at)
  }

  lemma MovedMeanIsExact(sum: int, n: int, x: int)
    requires n > 0
    ensures MovedMean(sum as real / n as real, n + 1, x as real) == (sum + x) as real / (n + 1) as real
  {
  }

  lemma OneMore(events: seq<Event>, event: Event)
    ensures Errors(events + [event]) == Errors(events) + if event.metric.statusCode >= 400 then 1 else 0
    ensures Tokens(events + [event]) == Tokens(events) + PositiveTokens(event.metric)
    ensures CacheHits(events + [event]) == CacheHits(events) + if event.metric.cacheHit then 1 else 0
    ensures Latency(events + [event]) == Latency(events) + Milliseconds(event.metric.latency)
  {
    assert (events + [event])[..|events|] == events;
  }

  /** A single value is its own mean. */
  lemma MeanOfOne(x: int)
    ensures x as real / 1 as real == x as real
  {
  }

  lemma AddEventIsExact(events: seq<Event>, event: Event)
    ensures AddEvent(if events == [] then UNUSED else UsageOf(events), event) == UsageOf(events + [event])
  {
    OneMore(events, event);
    if events == [] {
      MeanOfOne(Latency(events + [event]));
    } else {
      MovedMeanIsExact(Latency(events), |events|, Milliseconds(event.metric.latency));
    }
  }

  /** The usages after one more event, whose model may be new. */
  function AddToUsages(usages: Usages, event: Event): Usages
    requires forall model :: model in usages ==> usages[model].requests >= 0
  {
    var model := ModelOf(event.metric);
    usages[model := AddEvent(if model in usages then usages[model] else UNUSED, event)]
  }

  lemma AddToUsagesKeepsAgreement(usages: Usages, history: seq<Event>, event: Event)
    requires UsagesAgree(usages, history)
    ensures forall model :: model in usages ==> usages[model].requests >= 0
    ensures UsagesAgree(AddToUsages(usages, event), history + [event])
  {
    forall model | model in usages
      ensures usages[model].requests >= 0
    {
      assert UsageAgrees(usages, history, model);
    }
    var after := AddToUsages(usages, event);
    assert (history + [event])[..|history|] == history;
    forall model
      ensures UsageAgrees(after, history + [event], model)
    {
      assert UsageAgrees(usages, history, model);
      if model == ModelOf(event.metric) {
        AddEventIsExact(OfModel(history, model), event);
        assert OfModel(history + [event], model) == OfModel(history, model) + [event];
      } else {
        assert OfModel(history + [event], model) == OfModel(history, model);
      }
    }
  }

  ghost predicate UsageGrew(was: Usage, metric: RequestMetric, now: string, grown: Usage) {
    && grown.requests == was.requests + 1
    && grown.errors == was.errors + (if metric.statusCode < 400 then 0 else 1)
    && grown.totalTokens == was.totalTokens + (if 0 < metric.totalTokens then metric.totalTokens else 0)
    && grown.avgLatencyMs * (grown.requests as real) ==
       was.avgLatencyMs * (was.requests as real) + Milliseconds(metric.latency) as real
    && grown.lastStatus == metric.statusCode && grown.lastUpdatedAt == now
  }

  /**
   * What one metric adds: a request to its own model, or to "unknown", with its error, its tokens unless negative,
   * and its latency in the mean; the entries of the other models stay as they were.
   */
  ghost predicate UsagesGrew(before: Usages, metric: RequestMetric, now: string, after: Usages) {
    var model := if |metric.model| == 0 then "unknown" else metric.model;
    && model in after
    && (forall other :: other != model ==> (other in after <==> other in before))
    && (forall other :: other in before && other != model ==> after[other] == before[other])
    && UsageGrew(if model in before then before[model] else Usage(0, 0, 0, 0.0, 0, ""), metric, now, after[model])
  }

  lemma AddEventGrows(usage: Usage, metric: RequestMetric, now: string)
    requires usage.requests >= 0
    ensures UsageGrew(usage, metric, now, AddEvent(usage, Event(metric, now)))
  {
  }

  lemma AddToUsagesGrows(usages: Usages, metric: RequestMetric, now: string)
    requires forall model :: model in usages ==> usages[model].requests >= 0
    ensures UsagesGrew(usages, metric, now, AddToUsages(usages, Event(metric, now)))
  {
    var model := ModelOf(metric);
    AddEventGrows(if model in usages then usages[model] else UNUSED, metric, now);
  }

  // ---------- The aggregator ----------

  class ModelUsage {
    var requests: int
    var errors: int
    var totalTokens: int
    var avgLatencyMs: real
    var lastStatus: int
    var lastUpdatedAt: string

    function Value(): Usage
      reads this
    {
      Usage(requests, errors, totalTokens, avgLatencyMs, lastStatus, lastUpdatedAt)
    }

    constructor ()
      ensures Value() == UNUSED
    {
      requests, errors, totalTokens, avgLatencyMs, lastStatus, lastUpdatedAt := 0, 0, 0, 0.0, 0, "";
    }

    method Record(metric: RequestMetric, now: string)
      requires requests >= 0
      modifies this
      ensures Value() == AddEvent(old(Value()), Event(metric, now))
    {
      requests := requests + 1;
      if metric.statusCode >= 400 {
        errors := errors + 1;
      }
      if metric.totalTokens > 0 {
        totalTokens := totalTokens + metric.totalTokens;
      }
      var latencyMs := Milliseconds(metric.latency) as real;
      if requests == 1 {
        avgLatencyMs := latencyMs;
      } else {
        avgLatencyMs := MovedMean(avgLatencyMs, requests, latencyMs);
      }
      lastStatus, lastUpdatedAt := metric.statusCode, now;
    }
  }

  class UsageStats {
    var totalRequests: int
    var totalTokens: int
    var cacheHits: int
    var models: map<string, ModelUsage>
    ghost var history: seq<Event>

    /** No two models share an entry. */
    ghost predicate Separate()
      reads this`models
    {
      forall a, b :: a in models && b in models && a != b ==> models[a] != models[b]
    }

    ghost function Values(): Usages
      reads this`models, models.Values
    {
      map model | model in models :: models[model].Value()
    }

    /** After any run of calls the counters and the entries are the batch over the whole history. */
    ghost predicate Valid()
      reads this, models.Values
    {
      && Separate()
      && totalRequests == |history| && totalTokens == Tokens(history) && cacheHits == CacheHits(history)
      && UsagesAgree(Values(), history)
    }

    constructor ()
      ensures Valid() && history == []
    {
      totalRequests, totalTokens, cacheHits, models, history := 0, 0, 0, map[], [];
    }

    method Record(metric: RequestMetric, now: string)
      requires Valid()
      modifies this, models.Values
      ensures Valid() && history == old(history) + [Event(metric, now)]
      ensures totalRequests == old(totalRequests) + 1
      ensures totalTokens == old(totalTokens) + if metric.totalTokens > 0 then metric.totalTokens else 0
      ensures cacheHits == old(cacheHits) + if metric.cacheHit then 1 else 0
      ensures UsagesGrew(old(Values()), metric, now, Values())
      ensures fresh(models.Values - old(models.Values))
    {
      AddToUsagesKeepsAgreement(Values(), history, Event(metric, now));
      AddToUsagesGrows(Values(), metric, now);
      OneMore(history, Event(metric, now));
      RecordTotals(metric, now);
      RecordModel(metric, now);
    }

    method RecordTotals(metric: RequestMetric, ghost now: string)
      modifies this`totalRequests, this`totalTokens, this`cacheHits, this`history
      requires totalRequests == |history| && totalTokens == Tokens(history) && cacheHits == CacheHits(history)
      ensures totalRequests == |history| && totalTokens == Tokens(history) && cacheHits == CacheHits(history)
      ensures history == old(history) + [Event(metric, now)] && Values() == old(Values())
    {
      totalRequests := totalRequests + 1;
      if metric.totalTokens > 0 {
        totalTokens := totalTokens + metric.totalTokens;
      }
      if metric.cacheHit {
        cacheHits := cacheHits + 1;
      }
      OneMore(history, Event(metric, now));
      history := history + [Event(metric, now)];
      assert Values() == old(Values());
    }

    method RecordModel(metric: RequestMetric, now: string)
      requires Separate() && forall model :: model in Values() ==> Values()[model].requests >= 0
      modifies this`models, models.Values
      ensures Separate() && Values() == AddToUsages(old(Values()), Event(metric, now))
      ensures fresh(models.Values - old(models.Values))
    {
      var model := if metric.model == "" then "unknown" else metric.model;
      EnsureModel(model);
      assert models[model].Value() == Values()[model];
      RecordEntry(model, metric, now);
    }

    method RecordEntry(model: string, metric: RequestMetric, now: string)
      requires Separate() && model in models && models[model].requests >= 0
      modifies models[model]
      ensures Values() == old(Values())[model := AddEvent(old(Values())[model], Event(metric, now))]
    {
      models[model].Record(metric, now);
      assert forall other :: other in models && other != model ==> models[other].Value() == old(models[other].Value());
    }

    method EnsureModel(model: string)
      requires Separate()
      modifies this`models
      ensures Separate() && model in models
      ensures Values() == if model in old(models) then old(Values()) else old(Values())[model := UNUSED]
      ensures fresh(models.Values - old(models.Values))
    {
      if model !in models {
        var entry := new ModelUsage();
        models := models[model := entry];
        assert Values() == old(Values())[model := UNUSED];
      }
    }

    /** A snapshot holds copies of the entries, not the entries. */
    method Snapshot() returns (snapshot: UsageSnapshot)
      requires Valid()
      ensures snapshot.totalRequests == |history| && snapshot.totalTokens == Tokens(history)
      ensures snapshot.totalCost == 0.0
      ensures snapshot.cacheHitRate == if history == [] then 0.0 else CacheHits(history) as real / |history| as real
      ensures snapshot.models == Values() && UsagesAgree(snapshot.models, history)
    {
      var copies: map<string, Usage> := map[];
      var names := models.Keys;
      while names != {}
        invariant names <= models.Keys
        invariant copies == map model | model in models && model !in names :: models[model].Value()
        decreases names
      {
        var model :| model in names;
        copies := copies[model := models[model].Value()];
        names := names - {model};
      }
      var cacheHitRate := 0.0;
      if totalRequests > 0 {
        cacheHitRate := cacheHits as real / totalRequests as real;
      }
      return UsageSnapshot(totalRequests, totalTokens, 0.0, cacheHitRate, copies);
    }
  }

  // ---------- Conservation ----------

  /** The requests and the tokens of the named models, added up. */
  ghost function SumOfModels(usages: Usages, names: set<string>): (int, int)
    requires names <= usages.Keys
  {
    if names == {} then (0, 0)
    else
      var name := AnyOf(names);
      var rest := SumOfModels(usages, names - {name});
      (usages[name].requests + rest.0, usages[name].totalTokens + rest.1)
  }

  /** The events whose model is named. */
  function OfModels(history: seq<Event>, names: set<string>): seq<Event> {
    if history == [] then []
    else
      var last := history[|history| - 1];
      var before := OfModels(history[..|history| - 1], names);
      if ModelOf(last.metric) in names then before + [last] else before
  }

  lemma {:induction false} TakeOutModel(history: seq<Event>, names: set<string>, name: string)
    requires name in names
    ensures |OfModels(history, names)| == |OfModel(history, name)| + |OfModels(history, names - {name})|
    ensures Tokens(OfModels(history, names)) ==
            Tokens(OfModel(history, name)) + Tokens(OfModels(history, names - {name}))
  {
    if history != [] {
      var init, last := history[..|history| - 1], history[|history| - 1];
      TakeOutModel(init, names, name);
      OneMore(OfModels(init, names), last);
      OneMore(OfModel(init, name), last);
      OneMore(OfModels(init, names - {name}), last);
    }
  }

  lemma {:induction false} OfAllModels(history: seq<Event>, names: set<string>)
    requires forall event :: event in history ==> ModelOf(event.metric) in names
    ensures OfModels(history, names) == history
  {
    if history != [] {
      OfAllModels(history[..|history| - 1], names);
      assert history[|history| - 1] in history;
    }
  }

  lemma {:induction false} OfNoModels(history: seq<Event>)
    ensures OfModels(history, {}) == []
  {
    if history != [] {
      OfNoModels(history[..|history| - 1]);
    }
  }

  lemma {:induction false} SumOfModelsIsTheirs(usages: Usages, names: set<string>, history: seq<Event>)
    requires UsagesAgree(usages, history) && names <= usages.Keys
    ensures SumOfModels(usages, names) == (|OfModels(history, names)|, Tokens(OfModels(history, names)))
    decreases |names|
  {
    if names == {} {
      OfNoModels(history);
    } else {
      var name := AnyOf(names);
      assert UsageAgrees(usages, history, name);
      SumOfModelsIsTheirs(usages, names - {name}, history);
      TakeOutModel(history, names, name);
    }
  }

  lemma {:induction false} ModelIsOnRecord(history: seq<Event>, event: Event)
    requires event in history
    ensures OfModel(history, ModelOf(event.metric)) != []
  {
    if event != history[|history| - 1] {
      ModelIsOnRecord(history[..|history| - 1], event);
    }
  }

  /** The models of a snapshot add up exactly to its totals. */
  lemma ModelsAddUpToTotals(usages: Usages, history: seq<Event>)
    requires UsagesAgree(usages, history)
    ensures SumOfModels(usages, usages.Keys) == (|history|, Tokens(history))
  {
    forall event | event in history
      ensures ModelOf(event.metric) in usages
    {
      ModelIsOnRecord(history, event);
      assert UsageAgrees(usages, history, ModelOf(event.metric));
    }
    OfAllModels(history, usages.Keys);
    SumOfModelsIsTheirs(usages, usages.Keys, history);
  }
}
