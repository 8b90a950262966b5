/** Workflow traces: their normal form, and the batch tallies that a session's summary must agree with. */
module Traces {
  import opened Listings
  import opened Text

  datatype Trace = Trace(
    traceID: string, timestamp: string, endpoint: string, sessionID: string, stepID: string, stepType: string,
    tool: string, requestedModel: string, upstreamModel: string, upstreamProvider: string, statusCode: int,
    latencyMs: int, cacheHit: bool, promptTokens: int, completionTokens: int, totalTokens: int, estimatedCost: real,
    errorCode: string)

  function NonNegative(n: int): int {
    if n < 0 then 0 else n
  }

  function OrElse(s: string, otherwise: string): string {
    if s == "" then otherwise else s
  }

  function PricedCost(promptPer1k: real, completionPer1k: real, promptTokens: int, completionTokens: int,
                      totalTokens: int): real {
    var prompt := promptTokens as real / 1000.0 * promptPer1k;
    var completion := completionTokens as real / 1000.0 * completionPer1k;
    if prompt == 0.0 && completion == 0.0 && totalTokens > 0 then totalTokens as real * 0.000002
    else prompt + completion
  }

  function EstimateCost(model: string, promptTokens: int, completionTokens: int, totalTokens: int): real {
    var name := ToLower(Trim(model));
    if HasPrefix(name, "gpt-4") then PricedCost(0.03, 0.06, promptTokens, completionTokens, totalTokens)
    else if HasPrefix(name, "gpt-3.5") then PricedCost(0.0015, 0.002, promptTokens, completionTokens, totalTokens)
    else if HasPrefix(name, "claude") then PricedCost(0.008, 0.024, promptTokens, completionTokens, totalTokens)
    else if totalTokens <= 0 then 0.0
    else totalTokens as real * 0.000002
  }

  /** The normal form of a trace; a trace without identity or time gets the ones supplied. */
  function NormalizeTrace(trace: Trace, newID: string, now: string): Trace {
    var upstreamModel := Trim(trace.upstreamModel);
    var prompt, completion := NonNegative(trace.promptTokens), NonNegative(trace.completionTokens);
    var total := if NonNegative(trace.totalTokens) == 0 then prompt + completion else trace.totalTokens;
    Trace(
      if Trim(trace.traceID) == "" then newID else trace.traceID,
      if Trim(trace.timestamp) == "" then now else trace.timestamp,
      OrElse(Trim(trace.endpoint), "unknown"),
      Trim(trace.sessionID), Trim(trace.stepID), ToLower(Trim(trace.stepType)), Trim(trace.tool),
      Trim(trace.requestedModel), upstreamModel, Trim(trace.upstreamProvider),
      if trace.statusCode == 0 then 200 else trace.statusCode,
      NonNegative(trace.latencyMs), trace.cacheHit, prompt, completion, total,
      if trace.estimatedCost <= 0.0 then EstimateCost(upstreamModel, prompt, completion, total)
      else trace.estimatedCost,
      Trim(trace.errorCode))
  }

  lemma TrimmedStays(s: string)
    requires IsTrimmed(s)
    ensures Trim(s) == s
  {
  }

  /** Recording a recorded trace again leaves it as it is, whatever identity and time are on offer. */
  lemma NormalizeTraceIdempotent(trace: Trace, newID: string, now: string, laterID: string, later: string)
    requires Trim(newID) != "" && Trim(now) != ""
    ensures
      var normal := NormalizeTrace(trace, newID, now);
      NormalizeTrace(normal, laterID, later) == normal
  {
    TrimIdempotent(trace.endpoint);
    assert Trim("unknown") == "unknown" by { TrimmedStays("unknown"); }
    TrimIdempotent(trace.sessionID);
    TrimIdempotent(trace.stepID);
    LowerTrimIdempotent(trace.stepType);
    TrimIdempotent(trace.tool);
    TrimIdempotent(trace.requestedModel);
    TrimIdempotent(trace.upstreamModel);
    TrimIdempotent(trace.upstreamProvider);
    TrimIdempotent(trace.errorCode);
  }

  /** A trace's price in billionths of a dollar: by its model's token prices, or two thousand for every token. */
  function Nanodollars(model: string, prompt: nat, completion: nat, total: nat): nat {
    var name := ToLower(Trim(model));
    if prompt == 0 && completion == 0 then 2000 * total
    else if |name| >= 5 && name[..5] == "gpt-4" then 30_000 * prompt + 60_000 * completion
    else if |name| >= 7 && name[..7] == "gpt-3.5" then 1_500 * prompt + 2_000 * completion
    else if |name| >= 6 && name[..6] == "claude" then 8_000 * prompt + 24_000 * completion
    else 2000 * total
  }

  lemma EstimateIsPrice(model: string, prompt: nat, completion: nat, total: nat)
    ensures EstimateCost(model, prompt, completion, total) * 1000000000.0 ==
            Nanodollars(model, prompt, completion, total) as real
  {
    var name := ToLower(Trim(model));
    assert HasPrefix(name, "gpt-4") <==> |name| >= 5 && name[..5] == "gpt-4";
    assert HasPrefix(name, "gpt-3.5") <==> |name| >= 7 && name[..7] == "gpt-3.5";
    assert HasPrefix(name, "claude") <==> |name| >= 6 && name[..6] == "claude";
  }

  /** Negative numbers count as nothing. */
  ghost function Floored(n: int): nat {
    if 0 <= n then n else 0
  }

  /** A trace without a total has what it prompted and completed. */
  ghost function TokensOf(trace: Trace): nat {
    if 0 < trace.totalTokens then trace.totalTokens
    else Floored(trace.promptTokens) + Floored(trace.completionTokens)
  }

  /** A trace without a cost is charged its price. */
  ghost function CostOf(trace: Trace): real {
    if 0.0 < trace.estimatedCost then trace.estimatedCost
    else
      var prompt, completion := Floored(trace.promptTokens), Floored(trace.completionTokens);
      Nanodollars(trace.upstreamModel, prompt, completion, TokensOf(trace)) as real / 1000000000.0
  }

  /** What a trace is logged as: its own values, trimmed, with what is missing or negative filled in. */
  ghost predicate IsNormalFormOf(trace: Trace, newID: string, now: string, normal: Trace) {
    && (Trim(trace.traceID) != "" ==> normal.traceID == trace.traceID)
    && (Trim(trace.traceID) == "" ==> normal.traceID == newID)
    && (Trim(trace.timestamp) != "" ==> normal.timestamp == trace.timestamp)
    && (Trim(trace.timestamp) == "" ==> normal.timestamp == now)
    && normal.endpoint == (if Trim(trace.endpoint) == "" then "unknown" else Trim(trace.endpoint))
    && normal.sessionID == Trim(trace.sessionID) && normal.stepID == Trim(trace.stepID)
    && normal.stepType == ToLower(Trim(trace.stepType)) && normal.tool == Trim(trace.tool)
    && normal.requestedModel == Trim(trace.requestedModel) && normal.upstreamModel == Trim(trace.upstreamModel)
    && normal.upstreamProvider == Trim(trace.upstreamProvider) && normal.errorCode == Trim(trace.errorCode)
    && (trace.statusCode != 0 ==> normal.statusCode == trace.statusCode)
    && (trace.statusCode == 0 ==> normal.statusCode == 200)
    && normal.cacheHit == trace.cacheHit
    && normal.latencyMs == Floored(trace.latencyMs) && normal.promptTokens == Floored(trace.promptTokens)
    && normal.completionTokens == Floored(trace.completionTokens) && normal.totalTokens == TokensOf(trace)
    && normal.estimatedCost == CostOf(trace)
  }

  lemma NormalFormIs(trace: Trace, newID: string, now: string)
    ensures IsNormalFormOf(trace, newID, now, NormalizeTrace(trace, newID, now))
  {
    TrimIdempotent(trace.upstreamModel);
    EstimateIsPrice(Trim(trace.upstreamModel), Floored(trace.promptTokens), Floored(trace.completionTokens),
                    TokensOf(trace));
  }

  // ---------- Tallies ----------

  /** What the traces of a selection add up to. */
  datatype Tally = Tally(requests: int, errors: int, tokens: int, cost: real, latency: int, cacheHits: int)

  const ZERO := Tally(0, 0, 0, 0.0, 0, 0)

  function Add(a: Tally, b: Tally): Tally {
    Tally(a.requests + b.requests, a.errors + b.errors, a.tokens + b.tokens, a.cost + b.cost, a.latency + b.latency,
          a.cacheHits + b.cacheHits)
  }

  function TallyOf(trace: Trace): Tally {
    Tally(1, if trace.statusCode >= 400 then 1 else 0, NonNegative(trace.totalTokens), trace.estimatedCost,
          trace.latencyMs, if trace.cacheHit then 1 else 0)
  }

  /** A summary groups a session's traces by phase, and those that name a tool by tool. */
  datatype Kind = Phase | Tool

  function GroupName(kind: Kind, trace: Trace): string {
    match kind
    case Phase => OrElse(Trim(trace.stepType), "default")
    case Tool => Trim(trace.tool)
  }

  datatype Selection =
    | OfSession(session: string)
    | OfGroup(kind: Kind, session: string, name: string)
    | OfGroups(kind: Kind, session: string, names: set<string>)
    | OfAnyGroup(kind: Kind, session: string)

  predicate Selects(selection: Selection, trace: Trace) {
    && trace.sessionID == selection.session
    && match selection
       case OfSession(_) => true
       case OfGroup(kind, _, name) => GroupName(kind, trace) == name
       case OfGroups(kind, _, names) => GroupName(kind, trace) in names
       case OfAnyGroup(kind, _) => GroupName(kind, trace) != ""
  }

  function TallyUp(traces: seq<Trace>, selection: Selection): Tally {
    if traces == [] then ZERO
    else
      var last := traces[|traces| - 1];
      var before := TallyUp(traces[..|traces| - 1], selection);
      if Selects(selection, last) then Add(before, TallyOf(last)) else before
  }

  lemma TallyOneMore(traces: seq<Trace>, trace: Trace, selection: Selection)
    ensures TallyUp(traces + [trace], selection) ==
            if Selects(selection, trace) then Add(TallyUp(traces, selection), TallyOf(trace))
            else TallyUp(traces, selection)
  {
    assert (traces + [trace])[..|traces|] == traces;
  }

  lemma AddAssociates(a: Tally, b: Tally, c: Tally)
    ensures Add(Add(a, b), c) == Add(a, Add(b, c))
  {
  }

  lemma LastOfConcat(a: seq<Trace>, b: seq<Trace>)
    requires b != []
    ensures b == b[..|b| - 1] + [b[|b| - 1]]
    ensures a + b == (a + b[..|b| - 1]) + [b[|b| - 1]]
  {
  }

  lemma {:induction false} TallySplit(a: seq<Trace>, b: seq<Trace>, selection: Selection)
    ensures TallyUp(a + b, selection) == Add(TallyUp(a, selection), TallyUp(b, selection))
  {
    if b == [] {
      assert a + b == a;
    } else {
      var init, last := b[..|b| - 1], b[|b| - 1];
      TallySplit(a, init, selection);
      LastOfConcat(a, b);
      TallyOneMore(a + init, last, selection);
      TallyOneMore(init, last, selection);
      AddAssociates(TallyUp(a, selection), TallyUp(init, selection), TallyOf(last));
    }
  }

  lemma TallyTakesOut(traces: seq<Trace>, i: nat, selection: Selection)
    requires i < |traces|
    ensures
      var rest := TallyUp(traces[..i] + traces[i + 1..], selection);
      TallyUp(traces, selection) == if Selects(selection, traces[i]) then Add(rest, TallyOf(traces[i])) else rest
  {
    var before, after := traces[..i], traces[i + 1..];
    assert traces == (before + [traces[i]]) + after;
    TallySplit(before, after, selection);
    TallySplit(before + [traces[i]], after, selection);
    TallyOneMore(before, traces[i], selection);
  }

  lemma TakeOutSame(a: seq<Trace>, b: seq<Trace>) returns (i: nat)
    requires a != [] && multiset(a) == multiset(b)
    ensures i < |b| && b[i] == a[|a| - 1]
    ensures multiset(a[..|a| - 1]) == multiset(b[..i] + b[i + 1..])
  {
    var last := a[|a| - 1];
    assert a == a[..|a| - 1] + [last];
    assert last in multiset(b);
    i :| 0 <= i < |b| && b[i] == last;
    assert b == b[..i] + [last] + b[i + 1..];
    assert multiset(b[..i] + b[i + 1..]) == multiset(b) - multiset{last};
    assert multiset(a[..|a| - 1]) == multiset(a) - multiset{last};
  }

  /** Tallies do not depend on the order of the traces. */
  lemma {:induction false} TallyOfPermutation(a: seq<Trace>, b: seq<Trace>, selection: Selection)
    requires multiset(a) == multiset(b)
    ensures TallyUp(a, selection) == TallyUp(b, selection)
  {
    if a == [] {
      assert |b| == |multiset(b)|;
    } else {
      var i := TakeOutSame(a, b);
      TallyOfPermutation(a[..|a| - 1], b[..i] + b[i + 1..], selection);
      TallyTakesOut(b, i, selection);
    }
  }

  // ---------- Conservation ----------

  /** The tallies of the named groups, added up in any order. */
  ghost function SumOfGroups(kind: Kind, names: set<string>, traces: seq<Trace>, session: string): Tally {
    if names == {} then ZERO
    else
      var name := AnyOf(names);
      Add(TallyUp(traces, OfGroup(kind, session, name)), SumOfGroups(kind, names - {name}, traces, session))
  }

  lemma {:induction false} SameSelection(traces: seq<Trace>, a: Selection, b: Selection)
    requires forall trace :: trace in traces ==> (Selects(a, trace) <==> Selects(b, trace))
    ensures TallyUp(traces, a) == TallyUp(traces, b)
  {
    if traces != [] {
      SameSelection(traces[..|traces| - 1], a, b);
      assert traces[|traces| - 1] in traces;
    }
  }

  /** A set of groups tallies as one of them and the others. */
  lemma {:induction false} TakeOutGroup(kind: Kind, names: set<string>, traces: seq<Trace>, session: string,
                                        name: string)
    requires name in names
    ensures TallyUp(traces, OfGroups(kind, session, names)) ==
            Add(TallyUp(traces, OfGroup(kind, session, name)), TallyUp(traces, OfGroups(kind, session, names - {name})))
  {
    if traces != [] {
      TakeOutGroup(kind, names, traces[..|traces| - 1], session, name);
    }
  }

  lemma {:induction false} NoGroupsNoTally(kind: Kind, traces: seq<Trace>, session: string)
    ensures TallyUp(traces, OfGroups(kind, session, {})) == ZERO
  {
    if traces != [] {
      NoGroupsNoTally(kind, traces[..|traces| - 1], session);
    }
  }

  lemma {:induction false} SumIsTallyOfGroups(kind: Kind, names: set<string>, traces: seq<Trace>, session: string)
    ensures SumOfGroups(kind, names, traces, session) == TallyUp(traces, OfGroups(kind, session, names))
    decreases |names|
  {
    if names == {} {
      NoGroupsNoTally(kind, traces, session);
    } else {
      var name := AnyOf(names);
      SumIsTallyOfGroups(kind, names - {name}, traces, session);
      TakeOutGroup(kind, names, traces, session, name);
    }
  }

  /** Groups that catch every grouped trace of the session partition them: their tallies add up exactly. */
  lemma GroupsAddUp(kind: Kind, names: set<string>, traces: seq<Trace>, session: string)
    requires "" !in names
    requires forall trace :: trace in traces && Selects(OfAnyGroup(kind, session), trace) ==>
      GroupName(kind, trace) in names
    ensures SumOfGroups(kind, names, traces, session) == TallyUp(traces, OfAnyGroup(kind, session))
  {
    SumIsTallyOfGroups(kind, names, traces, session);
    SameSelection(traces, OfGroups(kind, session, names), OfAnyGroup(kind, session));
  }

  /** Every trace has a phase, so the phases of a session add up to the session. */
  lemma EveryTraceHasPhase(traces: seq<Trace>, session: string)
    ensures TallyUp(traces, OfAnyGroup(Phase, session)) == TallyUp(traces, OfSession(session))
  {
  }

  /** A selection counts its traces; one that counts none tallies to nothing. */
  lemma {:induction false} TallyCounts(traces: seq<Trace>, selection: Selection)
    ensures TallyUp(traces, selection).requests >= 0
    ensures TallyUp(traces, selection).requests == 0 ==> TallyUp(traces, selection) == ZERO
    ensures forall trace :: trace in traces && Selects(selection, trace) ==> TallyUp(traces, selection).requests > 0
  {
    if traces != [] {
      var init, last := traces[..|traces| - 1], traces[|traces| - 1];
      assert traces == init + [last];
      TallyCounts(init, selection);
    }
  }
}
