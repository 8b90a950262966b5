/** The rate-limiting middleware: a bucket per limited model in front of one global bucket. */
module TwoTier {
  import opened TokenBucket

  /**
   * The atomic steps of requests, in the order in which the buckets' locks serialise them. A request of an
   * unlimited model just arrives; one of a limited model is checked; those that pass finish at the global bucket.
   */
  datatype Event =
    | Arrived(model: string)
    | Checked(model: string, call: Call)
    | Finished(model: string, call: Call)

  /** The calls that a model's bucket sees. */
  function ModelCalls(events: seq<Event>, model: string): seq<Call> {
    if events == [] then []
    else
      var last := events[|events| - 1];
      ModelCalls(events[..|events| - 1], model) + if last.Checked? && last.model == model then [last.call] else []
  }

  /** The calls that the global bucket sees. */
  function GlobalCalls(events: seq<Event>): seq<Call> {
    if events == [] then []
    else
      var last := events[|events| - 1];
      GlobalCalls(events[..|events| - 1]) + if last.Finished? then [last.call] else []
  }

  /** The requests of a model that reached the handler. */
  function Forwarded(events: seq<Event>, model: string): nat {
    if events == [] then 0
    else
      var last := events[|events| - 1];
      Forwarded(events[..|events| - 1], model) +
      if last.Finished? && last.model == model && last.call.ok then 1 else 0
  }

  function AllForwarded(events: seq<Event>): nat {
    if events == [] then 0
    else
      var last := events[|events| - 1];
      AllForwarded(events[..|events| - 1]) + if last.Finished? && last.call.ok then 1 else 0
  }

  /** The requests of a model that only the global bucket refused. */
  function RefusedGlobally(events: seq<Event>, model: string): nat {
    if events == [] then 0
    else
      var last := events[|events| - 1];
      RefusedGlobally(events[..|events| - 1], model) +
      if last.Finished? && last.model == model && !last.call.ok then 1 else 0
  }

  /** The requests that passed the first tier and have not been through the second yet. */
  function InFlight(events: seq<Event>): multiset<string> {
    if events == [] then multiset{}
    else
      var before := InFlight(events[..|events| - 1]);
      match events[|events| - 1]
      case Arrived(model) => before + multiset{model}
      case Checked(model, call) => if call.ok then before + multiset{model} else before
      case Finished(model, _) => before - multiset{model}
  }

  /** Limited models are checked, others just arrive, and only requests in flight finish. */
  ghost predicate WellFormed(limited: set<string>, events: seq<Event>) {
    forall i :: 0 <= i < |events| ==>
      match events[i]
      case Arrived(model) => model !in limited
      case Checked(model, _) => model in limited
      case Finished(model, _) => model in InFlight(events[..i])
  }

  lemma WellFormedOneMore(limited: set<string>, events: seq<Event>, event: Event)
    requires WellFormed(limited, events)
    requires match event
             case Arrived(model) => model !in limited
             case Checked(model, _) => model in limited
             case Finished(model, _) => model in InFlight(events)
    ensures WellFormed(limited, events + [event])
    ensures (events + [event])[..|events|] == events
  {
    var longer := events + [event];
    assert longer[..|events|] == events;
    forall i | 0 <= i < |longer| && longer[i].Finished?
      ensures longer[i].model in InFlight(longer[..i])
    {
      assert i < |events| ==> longer[..i] == events[..i];
    }
  }

  /** The steps of one request handled without interruption. */
  function StepsOf(limited: bool, model: string, checkedAt: int, passed: bool, finishedAt: int, forwarded: bool)
    : seq<Event>
  {
    var first := if limited then Checked(model, Call(checkedAt, passed)) else Arrived(model);
    if passed then [first, Finished(model, Call(finishedAt, forwarded))] else [first]
  }

  lemma PassedIsInFlight(before: seq<Event>, step: Event, model: string)
    requires step == Arrived(model) || (step.Checked? && step.model == model && step.call.ok)
    ensures model in InFlight(before + [step])
  {
    assert (before + [step])[..|before|] == before;
  }

  lemma FirstTierIsLocal(before: seq<Event>, step: Event)
    requires !step.Finished?
    ensures GlobalCalls(before + [step]) == GlobalCalls(before)
  {
    assert (before + [step])[..|before|] == before;
  }

  lemma OneThenTheOther(before: seq<Event>, step: Event, finished: Event)
    ensures before + [step, finished] == before + [step] + [finished]
  {
  }

  class RateLimit {
    const globalLimiter: RateLimiter
    const modelLimiters: map<string, RateLimiter>
    ghost var events: seq<Event>

    /** Every bucket is its own object, and each has seen exactly its share of the steps. */
    ghost predicate Valid()
      reads this, globalLimiter, modelLimiters.Values
    {
      && (forall m, n :: m in modelLimiters && n in modelLimiters && m != n ==> modelLimiters[m] != modelLimiters[n])
      && (forall m :: m in modelLimiters ==> modelLimiters[m] != globalLimiter)
      && globalLimiter.Valid() && globalLimiter.log == GlobalCalls(events)
      && (forall m :: m in modelLimiters ==>
            modelLimiters[m].Valid() && modelLimiters[m].log == ModelCalls(events, m))
      && WellFormed(modelLimiters.Keys, events)
    }

    /** Each bucket reads the clock when it is made: `now` for the global one, `clock(m)` for that of model `m`. */
    constructor (globalQps: int, burst: int, limits: map<string, int>, now: int, clock: string -> int)
      ensures Valid() && events == []
      ensures fresh(globalLimiter) && fresh(modelLimiters.Values)
      ensures globalLimiter.TheLimit() == Limit(globalQps as real, burst as real, now)
      ensures forall m :: m in modelLimiters <==> m in limits && limits[m] > 0
      ensures forall m :: m in modelLimiters ==>
        modelLimiters[m].TheLimit() == Limit(limits[m] as real, limits[m] as real, clock(m))
    {
      var global := new RateLimiter(globalQps, burst, now);
      var limiters: map<string, RateLimiter> := map[];
      var models := limits.Keys;
      while models != {}
        invariant global.Valid() && global.log == []
        invariant fresh(global) && fresh(limiters.Values)
        invariant models <= limits.Keys
        invariant forall m :: m in limiters <==> m in limits.Keys - models && limits[m] > 0
        invariant forall m :: m in limiters ==>
          && limiters[m].TheLimit() == Limit(limits[m] as real, limits[m] as real, clock(m))
          && limiters[m].Valid() && limiters[m].log == [] && limiters[m] != global
        invariant forall m, n :: m in limiters && n in limiters && m != n ==> limiters[m] != limiters[n]
        decreases models
      {
        var model :| model in models;
        models := models - {model};
        if limits[model] <= 0 {
          continue;
        }
        var limiter := new RateLimiter(limits[model], limits[model], clock(model));
        assert forall m :: m in limiters ==> limiters[m] in limiters.Values;
        limiters := limiters[model := limiter];
      }
      globalLimiter, modelLimiters, events := global, limiters, [];
    }

    /** The first tier: only the model's own bucket is touched. */
    method CheckModel(model: string, now: int) returns (passed: bool)
      requires Valid()
      modifies this`events, if model in modelLimiters then {modelLimiters[model]} else {}
      ensures Valid()
      ensures model !in modelLimiters ==> passed && events == old(events) + [Arrived(model)]
      ensures model in modelLimiters ==>
        && events == old(events) + [Checked(model, Call(now, passed))]
        && (passed <==> Conforms(modelLimiters[model].TheLimit(), ModelCalls(old(events), model), now))
    {
      passed := true;
      ghost var event := Arrived(model);
      if model in modelLimiters {
        passed := modelLimiters[model].Allow(now);
        event := Checked(model, Call(now, passed));
      }
      WellFormedOneMore(modelLimiters.Keys, events, event);
      events := events + [event];
    }

    /** The second tier, for a request in flight: only the global bucket is touched. */
    method CheckGlobal(model: string, now: int) returns (passed: bool)
      requires Valid() && model in InFlight(events)
      modifies this`events, globalLimiter
      ensures Valid()
      ensures events == old(events) + [Finished(model, Call(now, passed))]
      ensures passed <==> Conforms(globalLimiter.TheLimit(), GlobalCalls(old(events)), now)
    {
      passed := globalLimiter.Allow(now);
      WellFormedOneMore(modelLimiters.Keys, events, Finished(model, Call(now, passed)));
      events := events + [Finished(model, Call(now, passed))];
    }

    /** One request with nothing in between, its tiers reading these times; a blank model counts as "default". */
    method Handle(requested: string, checkedAt: int, finishedAt: int) returns (forwarded: bool, ghost passed: bool)
      requires Valid()
      modifies this`events, globalLimiter, modelLimiters.Values
      ensures Valid()
      ensures
        var model := if requested == "" then "default" else requested;
        && events == old(events) + StepsOf(model in modelLimiters, model, checkedAt, passed, finishedAt, forwarded)
        && (passed <==> model in modelLimiters ==>
              Conforms(modelLimiters[model].TheLimit(), ModelCalls(old(events), model), checkedAt))
        && (forwarded <==> passed && Conforms(globalLimiter.TheLimit(), GlobalCalls(old(events)), finishedAt))
    {
      var model := if requested == "" then "default" else requested;
      ghost var before := events;
      var first := CheckModel(model, checkedAt);
      passed := first;
      if !first {
        return false, passed;
      }
      ghost var step := if model in modelLimiters then Checked(model, Call(checkedAt, true)) else Arrived(model);
      PassedIsInFlight(before, step, model);
      FirstTierIsLocal(before, step);
      forwarded := CheckGlobal(model, finishedAt);
      ghost var finished := Finished(model, Call(finishedAt, forwarded));
      OneThenTheOther(before, step, finished);
    }
  }

  // ---------- Runs ----------

  /** A request of one model leaves other models' buckets alone, and the global one too if its own refuses it. */
  lemma RequestTouchesOwnBuckets(before: seq<Event>, limited: bool, model: string, checkedAt: int, passed: bool,
                                 finishedAt: int, forwarded: bool, other: string)
    requires other != model
    ensures
      var after := before + StepsOf(limited, model, checkedAt, passed, finishedAt, forwarded);
      && ModelCalls(after, other) == ModelCalls(before, other)
      && (!passed ==> GlobalCalls(after) == GlobalCalls(before))
  {
    var steps := StepsOf(limited, model, checkedAt, passed, finishedAt, forwarded);
    var after := before + steps;
    if passed {
      assert after[..|after| - 1] == before + [steps[0]];
      assert (before + [steps[0]])[..|before|] == before;
    } else {
      assert after[..|after| - 1] == before;
    }
  }

  lemma InFlightOneMore(limited: set<string>, events: seq<Event>, model: string)
    requires WellFormed(limited, events) && events != []
    ensures WellFormed(limited, events[..|events| - 1])
    ensures
      var last, before := events[|events| - 1], InFlight(events[..|events| - 1]);
      InFlight(events)[model] ==
      if last.model != model then before[model]
      else if last.Finished? then before[model] - 1
      else if last.Arrived? || last.call.ok then before[model] + 1
      else before[model]
  {
    var init := events[..|events| - 1];
    assert forall i :: 0 <= i < |init| ==> init[..i] == events[..i];
  }

  /** Model grants are the forwarded and the globally refused requests, and those still between the tiers. */
  lemma {:induction false} GrantsAreAccountedFor(limited: set<string>, events: seq<Event>, model: string)
    requires WellFormed(limited, events) && model in limited
    ensures Admitted(ModelCalls(events, model), 0) ==
            Forwarded(events, model) + RefusedGlobally(events, model) + InFlight(events)[model]
  {
    if events != [] {
      var init, last := events[..|events| - 1], events[|events| - 1];
      InFlightOneMore(limited, events, model);
      GrantsAreAccountedFor(limited, init, model);
      if last.Checked? && last.model == model {
        AdmittedOneMore(ModelCalls(init, model), last.call, 0);
      } else {
        assert ModelCalls(events, model) == ModelCalls(init, model);
      }
    }
  }

  /** The global bucket's grants are exactly the requests forwarded. */
  lemma {:induction false} GlobalGrantsAreForwarded(events: seq<Event>)
    ensures Admitted(GlobalCalls(events), 0) == AllForwarded(events)
  {
    if events != [] {
      var init, last := events[..|events| - 1], events[|events| - 1];
      GlobalGrantsAreForwarded(init);
      if last.Finished? {
        AdmittedOneMore(GlobalCalls(init), last.call, 0);
      } else {
        assert GlobalCalls(events) == GlobalCalls(init);
      }
    }
  }

  lemma {:induction false} CallsGrow(events: seq<Event>, model: string, a: nat, b: nat)
    requires a <= b <= |events|
    ensures ModelCalls(events[..a], model) <= ModelCalls(events[..b], model)
    ensures GlobalCalls(events[..a]) <= GlobalCalls(events[..b])
  {
    if a < b {
      CallsGrow(events, model, a, b - 1);
      assert events[..b][..b - 1] == events[..b - 1];
    }
  }

  /** The requests of the model forwarded during the steps from `a` up to `b`. */
  function ForwardedBetween(events: seq<Event>, model: string, a: nat, b: nat): int
    requires a <= b <= |events|
  {
    Forwarded(events[..b], model) - Forwarded(events[..a], model)
  }

  /** The grants that a longer prefix of a bucket's calls has over a shorter one. */
  lemma GrantedBetween(limit: Limit, calls: seq<Call>, before: seq<Call>, after: seq<Call>)
    requires Exact(limit, calls) && ClockForward(calls) && before <= after <= calls
    requires limit.qps >= 0.0 && limit.burst >= 0.0
    ensures (Admitted(after, 0) - Admitted(before, 0)) as real <=
            if |before| == |after| then 0.0
            else limit.burst + Earned(limit.qps, calls[|before|].at, calls[|after| - 1].at)
  {
    var i, j := |before|, |after|;
    assert before == after[..i] && after == calls[..j];
    AdmittedSplit(after, 0, i);
    if i < j {
      WindowBound(limit, calls, i, j - 1);
    }
  }

  lemma PrefixWellFormed(limited: set<string>, events: seq<Event>, a: nat)
    requires WellFormed(limited, events) && a <= |events|
    ensures WellFormed(limited, events[..a])
  {
    assert forall i :: 0 <= i < a ==> events[..a][..i] == events[..i];
  }

  lemma {:induction false} RefusedGrows(events: seq<Event>, model: string, a: nat, b: nat)
    requires a <= b <= |events|
    ensures RefusedGlobally(events[..a], model) <= RefusedGlobally(events[..b], model)
    ensures AllForwarded(events[..a]) <= AllForwarded(events[..b])
  {
    if a < b {
      RefusedGrows(events, model, a, b - 1);
      assert events[..b][..b - 1] == events[..b - 1];
    }
  }

  /**
   * Whatever the interleaving, the requests of a limited model forwarded between two moments stay within those
   * already between the tiers at the first moment, plus the model's burst, plus what its rate earns over the
   * checks in between.
   */
  lemma ForwardedWithinModelLimit(limited: set<string>, events: seq<Event>, limit: Limit, model: string, a: nat, b: nat)
    requires WellFormed(limited, events) && model in limited
    requires Exact(limit, ModelCalls(events, model)) && ClockForward(ModelCalls(events, model))
    requires limit.qps >= 0.0 && limit.burst >= 0.0 && a <= b <= |events|
    ensures
      var calls, i, j := ModelCalls(events, model), |ModelCalls(events[..a], model)|, |ModelCalls(events[..b], model)|;
      && i <= j <= |calls|
      && ForwardedBetween(events, model, a, b) as real <=
         InFlight(events[..a])[model] as real +
         if i == j then 0.0 else limit.burst + Earned(limit.qps, calls[i].at, calls[j - 1].at)
  {
    CallsGrow(events, model, a, b);
    CallsGrow(events, model, b, |events|);
    assert events[..|events|] == events;
    PrefixWellFormed(limited, events, a);
    PrefixWellFormed(limited, events, b);
    GrantsAreAccountedFor(limited, events[..a], model);
    GrantsAreAccountedFor(limited, events[..b], model);
    RefusedGrows(events, model, a, b);
    GrantedBetween(limit, ModelCalls(events, model), ModelCalls(events[..a], model), ModelCalls(events[..b], model));
  }

  /** All forwarded requests together obey the global limit over every window. */
  lemma ForwardedWithinGlobalLimit(events: seq<Event>, limit: Limit, a: nat, b: nat)
    requires Exact(limit, GlobalCalls(events)) && ClockForward(GlobalCalls(events))
    requires limit.qps >= 0.0 && limit.burst >= 0.0 && a <= b <= |events|
    ensures
      var calls, i, j := GlobalCalls(events), |GlobalCalls(events[..a])|, |GlobalCalls(events[..b])|;
      && i <= j <= |calls|
      && (AllForwarded(events[..b]) - AllForwarded(events[..a])) as real <=
         if i == j then 0.0 else limit.burst + Earned(limit.qps, calls[i].at, calls[j - 1].at)
  {
    CallsGrow(events, "", a, b);
    CallsGrow(events, "", b, |events|);
    assert events[..|events|] == events;
    GlobalGrantsAreForwarded(events[..a]);
    GlobalGrantsAreForwarded(events[..b]);
    GrantedBetween(limit, GlobalCalls(events), GlobalCalls(events[..a]), GlobalCalls(events[..b]));
  }
}
