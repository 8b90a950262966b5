/** The workflow tracer: a replay log and in-memory session summaries, each behind its own lock. */
module WorkflowTracer {
  import opened Options
  import opened Sessions
  import opened Text
  import opened Traces

  /** A table that summaries hold by reference. */
  class GroupTable {
    var entries: map<string, GroupSummary>

    constructor ()
      ensures entries == map[]
    {
      entries := map[];
    }
  }

  datatype WorkflowSummary = WorkflowSummary(
    sessionID: string, requests: int, errors: int, totalTokens: int, estimatedCost: real, avgLatencyMs: real,
    cacheHitRate: real, byStepType: GroupTable, byTool: GroupTable, lastUpdatedAt: string)

  /** A group's entry with one more trace and its latency counter's new average. */
  function Counted(group: GroupSummary, trace: Trace, latency: int, requests: int): GroupSummary {
    GroupSummary(group.requests + 1,
                 if trace.statusCode >= 400 then group.errors + 1 else group.errors,
                 Ratio(latency, requests),
                 if trace.totalTokens > 0 then group.totalTokens + trace.totalTokens else group.totalTokens,
                 group.estimatedCost + trace.estimatedCost)
  }

  /** The step that the in-place updates of one group take together. */
  lemma CountedIsAddedToGroup(groups: Groups, name: string, trace: Trace)
    ensures
      var latency := groups.latency[name := Count(groups.latency, name) + trace.latencyMs];
      var requests := groups.requests[name := Count(groups.requests, name) + 1];
      var entry := Counted(GroupFor(groups.summaries, name), trace, latency[name], requests[name]);
      AddToGroup(groups, name, trace) == Groups(groups.summaries[name := entry], latency, requests)
  {
  }

  class SummaryState {
    var summary: WorkflowSummary
    var totalLatency: int
    var cacheHits: int
    var phaseLatency: map<string, int>
    var phaseRequests: map<string, int>
    var toolLatency: map<string, int>
    var toolRequests: map<string, int>

    ghost predicate Valid()
      reads this
    {
      summary.byStepType != summary.byTool
    }

    ghost function Tables(): set<GroupTable>
      reads this
    {
      {summary.byStepType, summary.byTool}
    }

    ghost function View(): Session
      reads this, Tables()
    {
      Session(summary.sessionID, summary.requests, summary.errors, summary.totalTokens, summary.estimatedCost,
              summary.avgLatencyMs, summary.cacheHitRate, totalLatency, cacheHits,
              Groups(summary.byStepType.entries, phaseLatency, phaseRequests),
              Groups(summary.byTool.entries, toolLatency, toolRequests),
              summary.lastUpdatedAt)
    }

    constructor (sessionID: string)
      ensures Valid() && View() == EmptySession(sessionID)
      ensures fresh(Tables())
    {
      var phases := new GroupTable();
      var tools := new GroupTable();
      summary := WorkflowSummary(sessionID, 0, 0, 0, 0.0, 0.0, 0.0, phases, tools, "");
      totalLatency, cacheHits := 0, 0;
      phaseLatency, phaseRequests, toolLatency, toolRequests := map[], map[], map[], map[];
    }

    method UpdateTotals(trace: Trace)
      requires Valid()
      modifies this
      ensures Valid() && Tables() == old(Tables())
      ensures View() == AddToTotals(old(View()), trace)
    {
      var requests := summary.requests + 1;
      var errors := if trace.statusCode >= 400 then summary.errors + 1 else summary.errors;
      var tokens := if trace.totalTokens > 0 then summary.totalTokens + trace.totalTokens else summary.totalTokens;
      totalLatency := totalLatency + trace.latencyMs;
      if trace.cacheHit {
        cacheHits := cacheHits + 1;
      }
      summary := summary.(requests := requests, errors := errors, totalTokens := tokens,
                          estimatedCost := summary.estimatedCost + trace.estimatedCost,
                          avgLatencyMs := Ratio(totalLatency, requests), cacheHitRate := Ratio(cacheHits, requests),
                          lastUpdatedAt := trace.timestamp);
    }

    method UpdatePhase(trace: Trace)
      requires Valid()
      modifies this, summary.byStepType
      ensures Valid() && Tables() == old(Tables())
      ensures View() == old(View()).(phases := AddToGroup(old(View()).phases, GroupName(Phase, trace), trace))
    {
      var phase := Trim(trace.stepType);
      if phase == "" {
        phase := "default";
      }
      CountedIsAddedToGroup(View().phases, phase, trace);
      phaseLatency := phaseLatency[phase := Count(phaseLatency, phase) + trace.latencyMs];
      phaseRequests := phaseRequests[phase := Count(phaseRequests, phase) + 1];
      var before := GroupFor(summary.byStepType.entries, phase);
      var entry := Counted(before, trace, phaseLatency[phase], phaseRequests[phase]);
      summary.byStepType.entries := summary.byStepType.entries[phase := entry];
    }

    method UpdateTool(trace: Trace)
      requires Valid()
      modifies this, summary.byTool
      ensures Valid() && Tables() == old(Tables())
      ensures
        var tool := GroupName(Tool, trace);
        View() == if tool == "" then old(View()) else old(View()).(tools := AddToGroup(old(View()).tools, tool, trace))
    {
      var tool := Trim(trace.tool);
      if tool != "" {
        CountedIsAddedToGroup(View().tools, tool, trace);
        toolLatency := toolLatency[tool := Count(toolLatency, tool) + trace.latencyMs];
        toolRequests := toolRequests[tool := Count(toolRequests, tool) + 1];
        var entry := Counted(GroupFor(summary.byTool.entries, tool), trace, toolLatency[tool], toolRequests[tool]);
        summary.byTool.entries := summary.byTool.entries[tool := entry];
      }
    }

    /** Counts a trace of the session into its totals, its phase and its tool. */
    method Update(trace: Trace)
      requires Valid()
      modifies this, Tables()
      ensures Valid() && Tables() == old(Tables())
      ensures View() == AddToSession(old(View()), trace)
    {
      UpdateTotals(trace);
      UpdatePhase(trace);
      UpdateTool(trace);
    }
  }

  method CloneTable(table: GroupTable) returns (clone: GroupTable)
    ensures fresh(clone) && clone.entries == table.entries
  {
    clone := new GroupTable();
    var names := table.entries.Keys;
    while names != {}
      modifies clone
      invariant names <= table.entries.Keys
      invariant clone.entries == map name | name in table.entries && name !in names :: table.entries[name]
      decreases names
    {
      var name :| name in names;
      clone.entries := clone.entries[name := table.entries[name]];
      names := names - {name};
    }
  }

  /** A summary handed out: its own tables, holding what the tracer's held. */
  method CloneWorkflowSummary(original: WorkflowSummary) returns (clone: WorkflowSummary)
    ensures fresh(clone.byStepType) && fresh(clone.byTool) && clone.byStepType != clone.byTool
    ensures clone.byStepType.entries == original.byStepType.entries && clone.byTool.entries == original.byTool.entries
    ensures clone == original.(byStepType := clone.byStepType, byTool := clone.byTool)
  {
    var phases := CloneTable(original.byStepType);
    var tools := CloneTable(original.byTool);
    return original.(byStepType := phases, byTool := tools);
  }

  /** The trace was logged as often as it was applied or is still pending, and only in its normal form. */
  ghost predicate IsAccounted(log: seq<Trace>, applied: seq<Trace>, pending: multiset<Trace>, trace: Trace) {
    && multiset(log)[trace] == multiset(applied)[trace] + pending[trace]
    && (trace in log ==> IsNormal(trace))
  }

  /** The log holds exactly what was applied and what is still pending, each trace in its normal form. */
  ghost predicate IsLogged(log: seq<Trace>, applied: seq<Trace>, pending: multiset<Trace>) {
    forall trace :: IsAccounted(log, applied, pending, trace)
  }

  lemma AllIsApplied(log: seq<Trace>, applied: seq<Trace>)
    requires IsLogged(log, applied, multiset{})
    ensures multiset(log) == multiset(applied)
    ensures forall trace :: trace in log ==> IsNormal(trace)
  {
    forall trace
      ensures multiset(log)[trace] == multiset(applied)[trace] && (trace in log ==> IsNormal(trace))
    {
      assert IsAccounted(log, applied, multiset{}, trace);
    }
  }

  ghost predicate IsTracked(steps: Steps, log: seq<Trace>, applied: seq<Trace>) {
    log == LogOf(steps) && applied == AppliedOf(steps)
  }

  lemma PutAndTaken(pending: multiset<Trace>, trace: Trace)
    ensures pending + multiset{trace} - multiset{trace} == pending
  {
  }

  lemma AppendingKeepsLogged(log: seq<Trace>, applied: seq<Trace>, pending: multiset<Trace>, trace: Trace)
    requires IsLogged(log, applied, pending) && IsNormal(trace)
    ensures IsLogged(log + [trace], applied, pending + multiset{trace})
  {
    forall other
      ensures IsAccounted(log + [trace], applied, pending + multiset{trace}, other)
    {
      assert IsAccounted(log, applied, pending, other);
    }
  }

  lemma ApplyingKeepsLogged(log: seq<Trace>, applied: seq<Trace>, pending: multiset<Trace>, trace: Trace)
    requires IsLogged(log, applied, pending) && trace in pending
    ensures IsLogged(log, applied + [trace], pending - multiset{trace})
  {
    forall other
      ensures IsAccounted(log, applied + [trace], pending - multiset{trace}, other)
    {
      assert IsAccounted(log, applied, pending, other);
    }
  }

  lemma OneViewChanged(before: Views, after: Views, sessionID: string)
    requires after.Keys == before.Keys + {sessionID}
    requires forall s :: s in after && s != sessionID ==> after[s] == before[s]
    ensures after == before[sessionID := after[sessionID]]
  {
  }

  /** Finding or creating the session and then counting the trace into it is one step of the fold. */
  lemma CountedIsAdded(before: Views, ensured: Views, after: Views, trace: Trace)
    requires Trim(trace.sessionID) != "" && trace.sessionID in ensured
    requires ensured == if trace.sessionID in before then before
                        else before[trace.sessionID := EmptySession(trace.sessionID)]
    requires after == ensured[trace.sessionID := AddToSession(ensured[trace.sessionID], trace)]
    ensures after == AddTrace(before, trace)
  {
  }

  lemma RecordedIsNormal(trace: Trace, newID: string, now: string)
    requires Trim(newID) != "" && Trim(now) != ""
    ensures IsNormal(NormalizeTrace(trace, newID, now))
  {
    forall laterID, later
      ensures NormalizeTrace(NormalizeTrace(trace, newID, now), laterID, later) == NormalizeTrace(trace, newID, now)
    {
      NormalizeTraceIdempotent(trace, newID, now, laterID, later);
    }
  }

  /** The summary shows what the session's view holds. */
  ghost predicate IsCopy(summary: WorkflowSummary, view: Session)
    reads summary.byStepType, summary.byTool
  {
    && summary.sessionID == view.sessionID && summary.requests == view.requests && summary.errors == view.errors
    && summary.totalTokens == view.totalTokens && summary.estimatedCost == view.estimatedCost
    && summary.avgLatencyMs == view.avgLatencyMs && summary.cacheHitRate == view.cacheHitRate
    && summary.byStepType.entries == view.phases.summaries && summary.byTool.entries == view.tools.summaries
    && summary.lastUpdatedAt == view.lastUpdatedAt
  }

  class WorkflowTracer {
    var sessions: map<string, SummaryState>
    var log: seq<Trace>
    ghost var applied: seq<Trace>
    ghost var pending: multiset<Trace>
    ghost var steps: Steps

    /** The states of different sessions share neither themselves nor their tables. */
    ghost predicate Separate()
      reads this`sessions, sessions.Values
    {
      && (forall s :: s in sessions ==> sessions[s].Valid())
      && (forall s, t :: s in sessions && t in sessions && s != t ==>
            sessions[s] != sessions[t] && sessions[s].Tables() !! sessions[t].Tables())
    }

    /** The tables that the tracer itself updates. */
    ghost function Tables(): set<GroupTable>
      reads this`sessions, sessions.Values
    {
      set s, table | s in sessions && table in sessions[s].Tables() :: table
    }

    ghost function Views(): Views
      reads this`sessions, sessions.Values, Tables()
    {
      map s | s in sessions :: sessions[s].View()
    }

    /**
     * Between any atomic steps of any callers: the log holds what was applied and what is still pending, and
     * the summaries equal the batch over the applied traces.
     */
    ghost predicate Valid()
      reads this, sessions.Values, Tables()
    {
      && Separate()
      && IsLogged(log, applied, pending) && IsTracked(steps, log, applied)
      && ViewsAgree(Views(), applied)
    }

    constructor ()
      ensures Valid() && log == [] && applied == [] && pending == multiset{} && steps == NoSteps && sessions == map[]
    {
      sessions, log, applied, pending, steps := map[], [], [], multiset{}, NoSteps;
    }

    /** The first step of recording: the trace goes to the end of the log. */
    method AppendJSONL(trace: Trace)
      requires Valid() && IsNormal(trace)
      modifies this`log, this`pending, this`steps
      ensures Valid() && log == old(log) + [trace] && pending == old(pending) + multiset{trace}
      ensures applied == old(applied) && steps == Then(old(steps), Appended(trace))
      ensures Views() == old(Views()) && Tables() == old(Tables())
    {
      AppendingKeepsLogged(log, applied, pending, trace);
      WriteLine(trace);
    }

    /** The write itself, and the bookkeeping of what is now pending. */
    method WriteLine(trace: Trace)
      modifies this`log, this`pending, this`steps
      ensures log == old(log) + [trace] && pending == old(pending) + multiset{trace}
      ensures steps == Then(old(steps), Appended(trace))
      ensures Separate() == old(Separate()) && Views() == old(Views()) && Tables() == old(Tables())
    {
      log, pending, steps := log + [trace], pending + multiset{trace}, Then(steps, Appended(trace));
      assert Views() == old(Views());
    }

    /** The second step, some time later: the trace is counted into its session. */
    method UpdateSummary(trace: Trace)
      requires Valid() && trace in pending
      modifies this`sessions, this`applied, this`pending, this`steps, sessions.Values, Tables()
      ensures Valid() && log == old(log) && steps == Then(old(steps), Applied(trace))
      ensures applied == old(applied) + [trace] && pending == old(pending) - multiset{trace}
      ensures Views() == AddTrace(old(Views()), trace)
      ensures fresh(Tables() - old(Tables())) && fresh(sessions.Values - old(sessions.Values))
    {
      AddTraceKeepsViewsAgreeing(Views(), applied, trace);
      ApplyingKeepsLogged(log, applied, pending, trace);
      CountTrace(trace);
      MarkApplied(trace);
    }

    method CountTrace(trace: Trace)
      requires Separate()
      modifies this`sessions, sessions.Values, Tables()
      ensures Separate() && Views() == AddTrace(old(Views()), trace)
      ensures fresh(Tables() - old(Tables())) && fresh(sessions.Values - old(sessions.Values))
    {
      if Trim(trace.sessionID) != "" {
        ghost var before := Views();
        EnsureSession(trace.sessionID);
        ghost var ensured := Views();
        CountIntoSession(trace.sessionID, trace);
        CountedIsAdded(before, ensured, Views(), trace);
      }
    }

    /** Bookkeeping: the trace is no longer pending. */
    ghost method MarkApplied(trace: Trace)
      modifies this`applied, this`pending, this`steps
      ensures applied == old(applied) + [trace] && pending == old(pending) - multiset{trace}
      ensures steps == Then(old(steps), Applied(trace))
      ensures Separate() == old(Separate()) && Views() == old(Views()) && Tables() == old(Tables())
    {
      assert forall o: object :: o in sessions.Values || o in Tables() ==> o != this;
      applied, pending, steps := applied + [trace], pending - multiset{trace}, Then(steps, Applied(trace));
      assert Separate() == old(Separate());
      assert Tables() == old(Tables());
      assert Views() == old(Views());
    }

    method CountIntoSession(sessionID: string, trace: Trace)
      requires Separate() && sessionID in sessions
      modifies sessions[sessionID], sessions[sessionID].Tables()
      ensures Separate() && Tables() == old(Tables())
      ensures Views() == old(Views())[sessionID := AddToSession(old(Views())[sessionID], trace)]
    {
      ghost var before := Views();
      UpdateState(sessionID, trace);
      OneViewChanged(before, Views(), sessionID);
    }

    method UpdateState(sessionID: string, trace: Trace)
      requires Separate() && sessionID in sessions
      modifies sessions[sessionID], sessions[sessionID].Tables()
      ensures sessions[sessionID].View() == AddToSession(old(sessions[sessionID].View()), trace)
      ensures forall s :: s in sessions ==> sessions[s].Valid() && sessions[s].Tables() == old(sessions[s].Tables())
      ensures forall s :: s in sessions && s != sessionID ==> sessions[s].View() == old(sessions[s].View())
    {
      sessions[sessionID].Update(trace);
    }

    method EnsureSession(sessionID: string)
      requires Separate()
      modifies this`sessions
      ensures Separate() && sessionID in sessions
      ensures Views() ==
              if sessionID in old(sessions) then old(Views()) else old(Views())[sessionID := EmptySession(sessionID)]
      ensures fresh(Tables() - old(Tables())) && fresh(sessions.Values - old(sessions.Values))
    {
      if sessionID !in sessions {
        StartSession(sessionID);
      }
    }

    method StartSession(sessionID: string)
      requires Separate() && sessionID !in sessions
      modifies this`sessions
      ensures Separate() && sessionID in sessions
      ensures Views() == old(Views())[sessionID := EmptySession(sessionID)]
      ensures fresh(Tables() - old(Tables())) && fresh(sessions.Values - old(sessions.Values))
    {
      ghost var views, tables := Views(), Tables();
      var state := new SummaryState(sessionID);
      assert Views() == views && Tables() == tables;
      Register(sessionID, state);
    }

    method Register(sessionID: string, state: SummaryState)
      requires Separate() && sessionID !in sessions
      requires state.Valid() && state !in sessions.Values && state.Tables() !! Tables()
      modifies this`sessions
      ensures Separate() && sessions == old(sessions)[sessionID := state]
      ensures Tables() <= old(Tables()) + state.Tables()
      ensures Views() == old(Views())[sessionID := state.View()]
    {
      ghost var before, tables := Views(), Tables();
      sessions := sessions[sessionID := state];
      assert Views() == before[sessionID := state.View()] by { OneViewChanged(before, Views(), sessionID); }
      assert Tables() <= tables + state.Tables();
    }

    /** Records one trace, its two steps following each other. */
    method Record(trace: Trace, newID: string, now: string)
      requires Valid() && Trim(newID) != "" && Trim(now) != ""
      modifies this, sessions.Values, Tables()
      ensures Valid()
      ensures JustRecorded(old(log), old(applied), old(pending), old(steps), NormalizeTrace(trace, newID, now))
      ensures log == old(log) + [log[|old(log)|]] && IsNormalFormOf(trace, newID, now, log[|old(log)|])
      ensures Views() == AddTrace(old(Views()), NormalizeTrace(trace, newID, now)) && NoNewOverlap(old(steps), steps)
      ensures ViewsGrew(old(Views()), trace, now, Views())
      ensures fresh(Tables() - old(Tables())) && fresh(sessions.Values - old(sessions.Values))
    {
      RecordedIsNormal(trace, newID, now);
      NormalFormIs(trace, newID, now);
      AddTraceGrows(Views(), applied, trace, newID, now);
      RecordNormal(NormalizeTrace(trace, newID, now));
    }

    method RecordNormal(trace: Trace)
      requires Valid() && IsNormal(trace)
      modifies this, sessions.Values, Tables()
      ensures Valid() && JustRecorded(old(log), old(applied), old(pending), old(steps), trace)
      ensures Views() == AddTrace(old(Views()), trace) && NoNewOverlap(old(steps), steps)
      ensures fresh(Tables() - old(Tables())) && fresh(sessions.Values - old(sessions.Values))
    {
      PutAndTaken(pending, trace);
      ghost var tables, states := Tables(), sessions.Values;
      AppendJSONL(trace);
      assert Tables() == tables && sessions.Values == states;
      UpdateSummary(trace);
      RecordAddsNoOverlap(old(steps), trace);
    }

    /** The trace was logged and then applied, with nothing in between. */
    ghost predicate JustRecorded(log: seq<Trace>, applied: seq<Trace>, pending: multiset<Trace>, steps: Steps,
                               trace: Trace)
      reads this
    {
      && this.log == log + [trace] && this.applied == applied + [trace] && this.pending == pending
      && this.steps == Then(Then(steps, Appended(trace)), Applied(trace))
    }

    /** A summary handed out is the session's, in tables that the tracer will never touch. */
    method GetSummary(sessionID: string) returns (summary: Option<WorkflowSummary>)
      requires Valid()
      ensures summary.Some? <==> Trim(sessionID) in sessions
      ensures summary.Some? ==>
        && IsCopy(summary.value, Views()[Trim(sessionID)])
        && fresh(summary.value.byStepType) && fresh(summary.value.byTool)
        && summary.value.byStepType !in Tables() && summary.value.byTool !in Tables()
    {
      var s := Trim(sessionID);
      if s == "" {
        assert ViewAgrees(Views(), applied, s);
        return None;
      }
      if s !in sessions {
        return None;
      }
      var clone := CloneWorkflowSummary(sessions[s].summary);
      return Some(clone);
    }
  }

  // ---------- Records one after another ----------

  /** A trace as it is received, with the ID and the time that fill its gaps. */
  datatype Arrival = Arrival(trace: Trace, newID: string, now: string)

  predicate IsStamped(arrival: Arrival) {
    Trim(arrival.newID) != "" && Trim(arrival.now) != ""
  }

  function Normalized(arrival: Arrival): Trace {
    NormalizeTrace(arrival.trace, arrival.newID, arrival.now)
  }

  ghost predicate IsLoggedAt(log: seq<Trace>, i: nat, arrival: Arrival) {
    i < |log| && log[i] == Normalized(arrival)
  }

  /** The log is what it was, followed by the first `n` arrivals in their order. */
  ghost predicate IsLonger(before: seq<Trace>, arrivals: seq<Arrival>, n: nat, log: seq<Trace>)
    requires n <= |arrivals|
  {
    && |log| == |before| + n && log[..|before|] == before
    && forall i: nat :: i < n ==> IsLoggedAt(log, |before| + i, arrivals[i])
  }

  lemma LastIsLogged(log: seq<Trace>, arrival: Arrival)
    ensures IsLoggedAt(log + [Normalized(arrival)], |log|, arrival)
  {
  }

  lemma StaysLogged(log: seq<Trace>, i: nat, arrival: Arrival, trace: Trace)
    requires IsLoggedAt(log, i, arrival)
    ensures IsLoggedAt(log + [trace], i, arrival)
  {
  }

  lemma LongerByOne(before: seq<Trace>, arrivals: seq<Arrival>, n: nat, log: seq<Trace>)
    requires n < |arrivals| && IsLonger(before, arrivals, n, log)
    ensures IsLonger(before, arrivals, n + 1, log + [Normalized(arrivals[n])])
  {
    assert (log + [Normalized(arrivals[n])])[..|before|] == log[..|before|];
    LastIsLogged(log, arrivals[n]);
    forall i: nat | i < n
      ensures IsLoggedAt(log + [Normalized(arrivals[n])], |before| + i, arrivals[i])
    {
      StaysLogged(log, |before| + i, arrivals[i], Normalized(arrivals[n]));
    }
  }

  method RecordOne(tracer: WorkflowTracer, arrival: Arrival)
    requires tracer.Valid() && IsStamped(arrival)
    modifies tracer, tracer.sessions.Values, tracer.Tables()
    ensures tracer.Valid() && tracer.pending == old(tracer.pending) && NoNewOverlap(old(tracer.steps), tracer.steps)
    ensures tracer.log == old(tracer.log) + [Normalized(arrival)]
    ensures fresh(tracer.Tables() - old(tracer.Tables())) && fresh(tracer.sessions.Values - old(tracer.sessions.Values))
  {
    tracer.Record(arrival.trace, arrival.newID, arrival.now);
  }

  method RecordNext(tracer: WorkflowTracer, arrivals: seq<Arrival>, n: nat, ghost log: seq<Trace>, ghost steps: Steps)
    requires tracer.Valid() && n < |arrivals| && IsStamped(arrivals[n])
    requires IsLonger(log, arrivals, n, tracer.log) && NoNewOverlap(steps, tracer.steps)
    modifies tracer, tracer.sessions.Values, tracer.Tables()
    ensures tracer.Valid() && tracer.pending == old(tracer.pending)
    ensures IsLonger(log, arrivals, n + 1, tracer.log) && NoNewOverlap(steps, tracer.steps)
    ensures fresh(tracer.Tables() - old(tracer.Tables())) && fresh(tracer.sessions.Values - old(tracer.sessions.Values))
  {
    ghost var before := tracer.steps;
    LongerByOne(log, arrivals, n, tracer.log);
    RecordOne(tracer, arrivals[n]);
    NoNewOverlapChains(steps, before, tracer.steps);
  }

  /** Everything is logged in order of arrival, nothing stays pending, and no two records overlap. */
  method RecordAll(tracer: WorkflowTracer, arrivals: seq<Arrival>)
    requires tracer.Valid() && forall i :: 0 <= i < |arrivals| ==> IsStamped(arrivals[i])
    modifies tracer, tracer.sessions.Values, tracer.Tables()
    ensures tracer.Valid() && tracer.pending == old(tracer.pending) && NoNewOverlap(old(tracer.steps), tracer.steps)
    ensures IsLonger(old(tracer.log), arrivals, |arrivals|, tracer.log)
    ensures fresh(tracer.Tables() - old(tracer.Tables())) && fresh(tracer.sessions.Values - old(tracer.sessions.Values))
  {
    ghost var log, pending, steps := tracer.log, tracer.pending, tracer.steps;
    ghost var tables, states := tracer.Tables(), tracer.sessions.Values;
    for i := 0 to |arrivals|
      invariant tracer.Valid() && tracer.pending == pending
      invariant IsLonger(log, arrivals, i, tracer.log) && NoNewOverlap(steps, tracer.steps)
      invariant fresh(tracer.Tables() - tables) && fresh(tracer.sessions.Values - states)
    {
      RecordNext(tracer, arrivals, i, log, steps);
    }
  }

  /** Whatever is recorded later, a summary handed out keeps showing the session as it was. */
  method HandedOutSummaryStays(tracer: WorkflowTracer, sessionID: string, later: seq<Arrival>)
    returns (summary: Option<WorkflowSummary>)
    requires tracer.Valid() && forall i :: 0 <= i < |later| ==> IsStamped(later[i])
    modifies tracer, tracer.sessions.Values, tracer.Tables()
    ensures tracer.Valid()
    ensures summary.Some? <==> Trim(sessionID) in old(tracer.Views())
    ensures summary.Some? ==> IsCopy(summary.value, old(tracer.Views())[Trim(sessionID)])
  {
    ghost var before := tracer.Views();
    summary := tracer.GetSummary(sessionID);
    assert tracer.Views() == before;
    RecordAll(tracer, later);
  }

  // ---------- Replay ----------

  /**
   * Replay agrees with memory: once every trace in the log has been applied, in whatever order, recording the
   * log again in file order rebuilds every session, its last timestamp exactly if the latest trace of the session
   * is stamped alike in the file and in the order of application.
   */
  lemma ReplayAgreesWithMemory(tracer: WorkflowTracer, newID: string, now: string)
    requires tracer.Valid() && tracer.pending == multiset{}
    ensures
      var live, replayed := tracer.Views(), AddAll(Rerecorded(tracer.log, newID, now));
      && replayed.Keys == live.Keys
      && (forall s :: s in live ==> replayed[s] == live[s].(lastUpdatedAt := replayed[s].lastUpdatedAt))
      && (forall s :: s in live ==>
            (replayed[s] == live[s] <==> LatestStamp(tracer.log, s) == LatestStamp(tracer.applied, s)))
  {
    var again := Rerecorded(tracer.log, newID, now);
    AddAllAgrees(again);
    AllIsApplied(tracer.log, tracer.applied);
    ReplayRebuildsViews(tracer.log, tracer.applied, newID, now, tracer.Views(), AddAll(again));
  }

  /** Sessions whose records never overlapped are replayed exactly, whatever other sessions did. */
  lemma ReplayIsExactWithoutOverlap(tracer: WorkflowTracer, session: string, newID: string, now: string)
    requires tracer.Valid() && tracer.pending == multiset{} && OneAtATime(tracer.steps, session, None)
    ensures
      var live, replayed := tracer.Views(), AddAll(Rerecorded(tracer.log, newID, now));
      if session in live then session in replayed && replayed[session] == live[session] else session !in replayed
  {
    ReplayAgreesWithMemory(tracer, newID, now);
    OneAtATimeSameStamp(tracer.steps, session, None);
  }

  lemma WithoutOverlapFromTheStart(tracer: WorkflowTracer, newID: string, now: string)
    requires tracer.Valid() && tracer.pending == multiset{} && NoNewOverlap(NoSteps, tracer.steps)
    ensures AddAll(Rerecorded(tracer.log, newID, now)) == tracer.Views()
  {
    var live, replayed := tracer.Views(), AddAll(Rerecorded(tracer.log, newID, now));
    forall s
      ensures if s in live then s in replayed && replayed[s] == live[s] else s !in replayed
    {
      assert OneAtATime(NoSteps, s, None);
      ReplayIsExactWithoutOverlap(tracer, s, newID, now);
    }
  }

  /** What a new tracer records one after another, replaying its log rebuilds exactly, every session of it. */
  method ReplayedInTurn(arrivals: seq<Arrival>, newID: string, now: string) returns (tracer: WorkflowTracer)
    requires forall i :: 0 <= i < |arrivals| ==> IsStamped(arrivals[i])
    ensures fresh(tracer) && tracer.Valid() && IsLonger([], arrivals, |arrivals|, tracer.log)
    ensures AddAll(Rerecorded(tracer.log, newID, now)) == tracer.Views()
  {
    tracer := new WorkflowTracer();
    RecordAll(tracer, arrivals);
    WithoutOverlapFromTheStart(tracer, newID, now);
  }

  lemma InTurn(a: Trace, b: Trace)
    ensures [] + [a] + [b] == [a, b]
  {
  }

  /** Two overlapping records of one session: appended in one order, applied in the other. */
  method RecordOverlapping(first: Trace, second: Trace, newID: string, now: string) returns (tracer: WorkflowTracer)
    requires Trim(newID) != "" && Trim(now) != ""
    ensures fresh(tracer) && tracer.Valid() && tracer.pending == multiset{}
    ensures
      var a, b := NormalizeTrace(first, newID, now), NormalizeTrace(second, newID, now);
      tracer.log == [a, b] && tracer.applied == [b, a]
  {
    var a, b := NormalizeTrace(first, newID, now), NormalizeTrace(second, newID, now);
    RecordedIsNormal(first, newID, now);
    RecordedIsNormal(second, newID, now);
    InTurn(a, b);
    InTurn(b, a);
    tracer := new WorkflowTracer();
    tracer.AppendJSONL(a);
    tracer.AppendJSONL(b);
    tracer.UpdateSummary(b);
    tracer.UpdateSummary(a);
  }

  /** After that run the session's last timestamp is the first trace's, while replaying the log gives the second's. */
  lemma OverlapReplaysLaterStamp(tracer: WorkflowTracer, a: Trace, b: Trace, newID: string, now: string)
    requires tracer.Valid() && tracer.pending == multiset{} && tracer.log == [a, b] && tracer.applied == [b, a]
    requires a.sessionID == b.sessionID && Trim(a.sessionID) != ""
    ensures
      var s, live, replayed := a.sessionID, tracer.Views(), AddAll(Rerecorded(tracer.log, newID, now));
      && s in live && s in replayed
      && live[s].lastUpdatedAt == a.timestamp && replayed[s].lastUpdatedAt == b.timestamp
      && (replayed[s] == live[s] <==> a.timestamp == b.timestamp)
  {
    var s := a.sessionID;
    ReplayAgreesWithMemory(tracer, newID, now);
    assert a in tracer.applied;
    assert ViewAgrees(tracer.Views(), tracer.applied, s);
    AddAllAgrees(tracer.log);
    AllIsApplied(tracer.log, tracer.applied);
    RerecordedIsLog(tracer.log, newID, now);
    assert ViewAgrees(AddAll(tracer.log), tracer.log, s);
  }
}
