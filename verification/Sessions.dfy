/** A session's summary as a value: one update step, and its agreement with the batch tallies. */
module Sessions {
  import opened Listings
  import opened Options
  import opened Text
  import opened Traces

  /** The view of one phase or one tool. */
  datatype GroupSummary = GroupSummary(
    requests: int, errors: int, avgLatencyMs: real, totalTokens: int, estimatedCost: real)

  const EMPTY_GROUP := GroupSummary(0, 0, 0.0, 0, 0.0)

  /** The groups of one kind, with the counters that mirror them. */
  datatype Groups = Groups(summaries: map<string, GroupSummary>, latency: map<string, int>, requests: map<string, int>)

  datatype Session = Session(
    sessionID: string, requests: int, errors: int, totalTokens: int, estimatedCost: real, avgLatencyMs: real,
    cacheHitRate: real, totalLatency: int, cacheHits: int, phases: Groups, tools: Groups, lastUpdatedAt: string)

  function Count(counters: map<string, int>, name: string): int {
    if name in counters then counters[name] else 0
  }

  function GroupFor(summaries: map<string, GroupSummary>, name: string): GroupSummary {
    if name in summaries then summaries[name] else EMPTY_GROUP
  }

  function Ratio(n: int, d: int): real {
    if d == 0 then 0.0 else n as real / d as real
  }

  /** One trace counted into its group. */
  function AddToGroup(groups: Groups, name: string, trace: Trace): Groups {
    var before, tally := GroupFor(groups.summaries, name), TallyOf(trace);
    var latency, requests := Count(groups.latency, name) + trace.latencyMs, Count(groups.requests, name) + 1;
    Groups(
      groups.summaries[name := GroupSummary(before.requests + 1, before.errors + tally.errors, Ratio(latency, requests),
                                            before.totalTokens + tally.tokens, before.estimatedCost + tally.cost)],
      groups.latency[name := latency],
      groups.requests[name := requests])
  }

  /** One trace counted into the session's totals. */
  function AddToTotals(session: Session, trace: Trace): Session {
    var tally := TallyOf(trace);
    var requests, latency := session.requests + 1, session.totalLatency + trace.latencyMs;
    var hits := session.cacheHits + tally.cacheHits;
    Session(
      session.sessionID, requests, session.errors + tally.errors, session.totalTokens + tally.tokens,
      session.estimatedCost + tally.cost, Ratio(latency, requests), Ratio(hits, requests), latency, hits,
      session.phases, session.tools, trace.timestamp)
  }

  /** One trace counted into the session: its totals, its phase, and its tool if it names one. */
  function AddToSession(session: Session, trace: Trace): Session {
    var tool := GroupName(Tool, trace);
    AddToTotals(session, trace).(
      phases := AddToGroup(session.phases, GroupName(Phase, trace), trace),
      tools := if tool == "" then session.tools else AddToGroup(session.tools, tool, trace))
  }

  const NO_GROUPS := Groups(map[], map[], map[])

  function EmptySession(sessionID: string): Session {
    Session(sessionID, 0, 0, 0, 0.0, 0.0, 0.0, 0, 0, NO_GROUPS, NO_GROUPS, "")
  }

  // ---------- Agreement with the batch ----------

  /** The summary of a group whose traces tally to this. */
  function SummaryOf(tally: Tally): GroupSummary {
    GroupSummary(tally.requests, tally.errors, Ratio(tally.latency, tally.requests), tally.tokens, tally.cost)
  }

  /** A group is there if and only if some trace falls into it, and then holds what its traces tally to. */
  ghost predicate GroupAgrees(kind: Kind, groups: Groups, traces: seq<Trace>, session: string, name: string) {
    var tally := TallyUp(traces, OfGroup(kind, session, name));
    if name == "" || tally.requests == 0 then
      name !in groups.summaries && name !in groups.latency && name !in groups.requests
    else
      && name in groups.summaries && groups.summaries[name] == SummaryOf(tally)
      && name in groups.latency && groups.latency[name] == tally.latency
      && name in groups.requests && groups.requests[name] == tally.requests
  }

  ghost predicate GroupsAgree(kind: Kind, groups: Groups, traces: seq<Trace>, session: string) {
    forall name :: GroupAgrees(kind, groups, traces, session, name)
  }

  /** The timestamp of the session's latest trace. */
  function LatestStamp(traces: seq<Trace>, session: string): string {
    if traces == [] then ""
    else
      var last := traces[|traces| - 1];
      if last.sessionID == session then last.timestamp else LatestStamp(traces[..|traces| - 1], session)
  }

  ghost predicate SessionAgrees(summary: Session, traces: seq<Trace>, session: string) {
    var tally := TallyUp(traces, OfSession(session));
    && summary.sessionID == session
    && summary.requests == tally.requests && summary.errors == tally.errors && summary.totalTokens == tally.tokens
    && summary.estimatedCost == tally.cost && summary.totalLatency == tally.latency
    && summary.cacheHits == tally.cacheHits
    && summary.avgLatencyMs == Ratio(tally.latency, tally.requests)
    && summary.cacheHitRate == Ratio(tally.cacheHits, tally.requests)
    && GroupsAgree(Phase, summary.phases, traces, session)
    && GroupsAgree(Tool, summary.tools, traces, session)
    && summary.lastUpdatedAt == LatestStamp(traces, session)
  }

  lemma {:induction false} NoTracesNoTally(traces: seq<Trace>, selection: Selection)
    requires forall trace :: trace in traces ==> trace.sessionID != selection.session
    ensures TallyUp(traces, selection) == ZERO
  {
    if traces != [] {
      assert traces[|traces| - 1] in traces;
      NoTracesNoTally(traces[..|traces| - 1], selection);
    }
  }

  lemma {:induction false} NoStamp(traces: seq<Trace>, session: string)
    requires forall trace :: trace in traces ==> trace.sessionID != session
    ensures LatestStamp(traces, session) == ""
  {
    if traces != [] {
      assert traces[|traces| - 1] in traces;
      NoStamp(traces[..|traces| - 1], session);
    }
  }

  lemma EmptySessionAgrees(traces: seq<Trace>, session: string)
    requires forall trace :: trace in traces ==> trace.sessionID != session
    ensures SessionAgrees(EmptySession(session), traces, session)
  {
    NoTracesNoTally(traces, OfSession(session));
    NoStamp(traces, session);
    forall kind, name
      ensures GroupAgrees(kind, NO_GROUPS, traces, session, name)
    {
      NoTracesNoTally(traces, OfGroup(kind, session, name));
    }
  }

  /** The group that a trace joins, whether it is new or not. */
  lemma JoinedGroupAgrees(kind: Kind, groups: Groups, traces: seq<Trace>, session: string, trace: Trace)
    requires Selects(OfAnyGroup(kind, session), trace)
    requires GroupAgrees(kind, groups, traces, session, GroupName(kind, trace))
    ensures
      var name := GroupName(kind, trace);
      GroupAgrees(kind, AddToGroup(groups, name, trace), traces + [trace], session, name)
  {
    var selection := OfGroup(kind, session, GroupName(kind, trace));
    TallyOneMore(traces, trace, selection);
    TallyCounts(traces, selection);
  }

  /** A trace outside the group leaves what the group must hold unchanged. */
  lemma OtherGroupAgrees(kind: Kind, groups: Groups, traces: seq<Trace>, session: string, trace: Trace, name: string)
    requires trace.sessionID != session || GroupName(kind, trace) != name
    requires GroupAgrees(kind, groups, traces, session, name)
    ensures GroupAgrees(kind, groups, traces + [trace], session, name)
  {
  }

  lemma JoinKeepsGroups(kind: Kind, groups: Groups, traces: seq<Trace>, session: string, trace: Trace)
    requires GroupsAgree(kind, groups, traces, session) && Selects(OfAnyGroup(kind, session), trace)
    ensures GroupsAgree(kind, AddToGroup(groups, GroupName(kind, trace), trace), traces + [trace], session)
  {
    var joined := GroupName(kind, trace);
    var after := AddToGroup(groups, joined, trace);
    forall name
      ensures GroupAgrees(kind, after, traces + [trace], session, name)
    {
      assert GroupAgrees(kind, groups, traces, session, name);
      if name == joined {
        JoinedGroupAgrees(kind, groups, traces, session, trace);
      } else {
        assert GroupAgrees(kind, after, traces, session, name);
        OtherGroupAgrees(kind, after, traces, session, trace, name);
      }
    }
  }

  lemma OthersKeepGroups(kind: Kind, groups: Groups, traces: seq<Trace>, session: string, trace: Trace)
    requires GroupsAgree(kind, groups, traces, session) && !Selects(OfAnyGroup(kind, session), trace)
    ensures GroupsAgree(kind, groups, traces + [trace], session)
  {
    forall name
      ensures GroupAgrees(kind, groups, traces + [trace], session, name)
    {
      assert GroupAgrees(kind, groups, traces, session, name);
      if name != "" {
        OtherGroupAgrees(kind, groups, traces, session, trace, name);
      }
    }
  }

  /** Counting one more trace of the session keeps the summary equal to the batch. */
  lemma AddKeepsAgreement(summary: Session, traces: seq<Trace>, session: string, trace: Trace)
    requires SessionAgrees(summary, traces, session) && trace.sessionID == session
    ensures SessionAgrees(AddToSession(summary, trace), traces + [trace], session)
  {
    TallyOneMore(traces, trace, OfSession(session));
    JoinKeepsGroups(Phase, summary.phases, traces, session, trace);
    if GroupName(Tool, trace) == "" {
      OthersKeepGroups(Tool, summary.tools, traces, session, trace);
    } else {
      JoinKeepsGroups(Tool, summary.tools, traces, session, trace);
    }
    assert (traces + [trace])[..|traces|] == traces;
  }

  /** Traces of other sessions do not concern the summary. */
  lemma OtherSessionKeepsAgreement(summary: Session, traces: seq<Trace>, session: string, trace: Trace)
    requires SessionAgrees(summary, traces, session) && trace.sessionID != session
    ensures SessionAgrees(summary, traces + [trace], session)
  {
    TallyOneMore(traces, trace, OfSession(session));
    OthersKeepGroups(Phase, summary.phases, traces, session, trace);
    OthersKeepGroups(Tool, summary.tools, traces, session, trace);
    assert (traces + [trace])[..|traces|] == traces;
  }

  // ---------- All sessions together ----------

  type Views = map<string, Session>

  /** Some trace belongs to this session, and the session has a name. */
  ghost predicate IsRecorded(traces: seq<Trace>, session: string) {
    Trim(session) != "" && exists trace :: trace in traces && trace.sessionID == session
  }

  /** One trace counted into its session, if it names one. */
  function AddTrace(views: Views, trace: Trace): Views {
    var s := trace.sessionID;
    if Trim(s) == "" then views
    else views[s := AddToSession(if s in views then views[s] else EmptySession(s), trace)]
  }

  // ---------- What one received trace adds ----------

  /** What a received trace is worth: one request, failed or not, with its tokens, cost, latency and cache hit. */
  ghost function WorthOf(trace: Trace): Tally {
    Tally(1, if trace.statusCode < 400 then 0 else 1, TokensOf(trace), CostOf(trace), Floored(trace.latencyMs),
          if trace.cacheHit then 1 else 0)
  }

  lemma NormalIsWorth(trace: Trace, newID: string, now: string)
    ensures TallyOf(NormalizeTrace(trace, newID, now)) == WorthOf(trace)
  {
    NormalFormIs(trace, newID, now);
  }

  /** One group's entry grew by this much, its average being that of its counters; the other groups stayed. */
  ghost predicate GroupGrew(before: Groups, name: string, worth: Tally, after: Groups) {
    && name in after.summaries && name in after.latency && name in after.requests
    && (forall other :: other != name ==>
          && (other in after.summaries <==> other in before.summaries)
          && (other in before.summaries ==> after.summaries[other] == before.summaries[other]))
    && var was := if name in before.summaries then before.summaries[name] else GroupSummary(0, 0, 0.0, 0, 0.0);
    var now := after.summaries[name];
    && now.requests == was.requests + 1 && now.errors == was.errors + worth.errors
    && now.totalTokens == was.totalTokens + worth.tokens && now.estimatedCost == was.estimatedCost + worth.cost
    && after.latency[name] == (if name in before.latency then before.latency[name] else 0) + worth.latency
    && after.requests[name] == (if name in before.requests then before.requests[name] else 0) + 1
    && now.avgLatencyMs * (after.requests[name] as real) == after.latency[name] as real
  }

  ghost predicate TotalsGrew(before: Session, worth: Tally, stamp: string, after: Session) {
    && after.sessionID == before.sessionID && after.requests == before.requests + 1
    && after.errors == before.errors + worth.errors && after.totalTokens == before.totalTokens + worth.tokens
    && after.estimatedCost == before.estimatedCost + worth.cost
    && after.totalLatency == before.totalLatency + worth.latency
    && after.cacheHits == before.cacheHits + worth.cacheHits
    && after.avgLatencyMs * (after.requests as real) == after.totalLatency as real
    && after.cacheHitRate * (after.requests as real) == after.cacheHits as real
    && after.lastUpdatedAt == stamp
  }

  /** A session's summary grew by this much: its totals, its phase, and its tool if one is named. */
  ghost predicate SessionGrew(before: Session, worth: Tally, phase: string, tool: string, stamp: string,
                              after: Session) {
    && TotalsGrew(before, worth, stamp, after) && GroupGrew(before.phases, phase, worth, after.phases)
    && (if tool == "" then after.tools == before.tools else GroupGrew(before.tools, tool, worth, after.tools))
  }

  ghost function PhaseOf(trace: Trace): string {
    if Trim(trace.stepType) == "" then "default" else ToLower(Trim(trace.stepType))
  }

  ghost function StampOf(trace: Trace, now: string): string {
    if Trim(trace.timestamp) == "" then now else trace.timestamp
  }

  ghost function NewSession(s: string): Session {
    Session(s, 0, 0, 0, 0.0, 0.0, 0.0, 0, 0, Groups(map[], map[], map[]), Groups(map[], map[], map[]), "")
  }

  /** The received trace's own session grew by its worth, from nothing if it is new; every other stayed as it was. */
  ghost predicate ViewsGrew(before: Views, trace: Trace, now: string, after: Views) {
    var s := Trim(trace.sessionID);
    if s == "" then after == before
    else
      && s in after
      && (forall other :: other != s ==> (other in after <==> other in before))
      && (forall other :: other in before && other != s ==> after[other] == before[other])
      && SessionGrew(if s in before then before[s] else NewSession(s), WorthOf(trace), PhaseOf(trace), Trim(trace.tool),
                     StampOf(trace, now), after[s])
  }

  lemma RatioTimesCount(n: int, d: int)
    requires d > 0
    ensures Ratio(n, d) * (d as real) == n as real
  {
  }

  ghost predicate CountsRequests(groups: Groups) {
    forall name :: name in groups.requests ==> groups.requests[name] >= 0
  }

  lemma AddToGroupGrows(groups: Groups, name: string, trace: Trace)
    requires CountsRequests(groups)
    ensures GroupGrew(groups, name, TallyOf(trace), AddToGroup(groups, name, trace))
  {
    RatioTimesCount(Count(groups.latency, name) + trace.latencyMs, Count(groups.requests, name) + 1);
  }

  lemma AddToTotalsGrows(session: Session, trace: Trace)
    requires session.requests >= 0
    ensures TotalsGrew(session, TallyOf(trace), trace.timestamp, AddToTotals(session, trace))
  {
    RatioTimesCount(session.totalLatency + trace.latencyMs, session.requests + 1);
    RatioTimesCount(session.cacheHits + TallyOf(trace).cacheHits, session.requests + 1);
  }

  lemma AddToSessionGrows(session: Session, trace: Trace)
    requires session.requests >= 0 && CountsRequests(session.phases) && CountsRequests(session.tools)
    ensures SessionGrew(session, TallyOf(trace), GroupName(Phase, trace), GroupName(Tool, trace), trace.timestamp,
                        AddToSession(session, trace))
  {
    AddToTotalsGrows(session, trace);
    AddToGroupGrows(session.phases, GroupName(Phase, trace), trace);
    AddToGroupGrows(session.tools, GroupName(Tool, trace), trace);
  }

  /** The phase, tool and stamp that a received trace is counted under. */
  lemma NamesAre(trace: Trace, newID: string, now: string)
    ensures
      var normal := NormalizeTrace(trace, newID, now);
      && GroupName(Tool, normal) == Trim(trace.tool) && GroupName(Phase, normal) == PhaseOf(trace)
      && normal.timestamp == StampOf(trace, now) && normal.sessionID == Trim(trace.sessionID)
  {
    NormalFormIs(trace, newID, now);
    TrimIdempotent(trace.tool);
    LowerStaysTrimmed(trace.stepType);
  }

  ghost predicate ViewAgrees(views: Views, traces: seq<Trace>, s: string) {
    if IsRecorded(traces, s) then s in views && SessionAgrees(views[s], traces, s) else s !in views
  }

  /** The sessions on record are those of the traces, each summary equal to its batch. */
  ghost predicate ViewsAgree(views: Views, traces: seq<Trace>) {
    forall s :: ViewAgrees(views, traces, s)
  }

  lemma GroupsCountRequests(kind: Kind, groups: Groups, traces: seq<Trace>, session: string)
    requires GroupsAgree(kind, groups, traces, session)
    ensures CountsRequests(groups)
  {
    forall name | name in groups.requests
      ensures groups.requests[name] >= 0
    {
      assert GroupAgrees(kind, groups, traces, session, name);
      TallyCounts(traces, OfGroup(kind, session, name));
    }
  }

  /** Recording a trace adds exactly its worth to its own session, and to its phase and tool there. */
  lemma AddTraceGrows(views: Views, traces: seq<Trace>, received: Trace, newID: string, now: string)
    requires ViewsAgree(views, traces)
    ensures ViewsGrew(views, received, now, AddTrace(views, NormalizeTrace(received, newID, now)))
  {
    var normal, s := NormalizeTrace(received, newID, now), Trim(received.sessionID);
    NamesAre(received, newID, now);
    NormalIsWorth(received, newID, now);
    TrimIdempotent(received.sessionID);
    if s in views {
      assert ViewAgrees(views, traces, s);
      GroupsCountRequests(Phase, views[s].phases, traces, s);
      GroupsCountRequests(Tool, views[s].tools, traces, s);
      TallyCounts(traces, OfSession(s));
    }
    AddToSessionGrows(if s in views then views[s] else EmptySession(s), normal);
  }

  lemma RecordedOneMore(traces: seq<Trace>, trace: Trace, session: string)
    ensures IsRecorded(traces + [trace], session) <==>
            IsRecorded(traces, session) || (Trim(session) != "" && session == trace.sessionID)
  {
  }

  lemma AddTraceKeepsViewsAgreeing(views: Views, traces: seq<Trace>, trace: Trace)
    requires ViewsAgree(views, traces)
    ensures ViewsAgree(AddTrace(views, trace), traces + [trace])
  {
    var after := AddTrace(views, trace);
    forall s
      ensures ViewAgrees(after, traces + [trace], s)
    {
      assert ViewAgrees(views, traces, s);
      RecordedOneMore(traces, trace, s);
      if s in after {
        if s != trace.sessionID {
          OtherSessionKeepsAgreement(views[s], traces, s, trace);
        } else {
          if s !in views {
            EmptySessionAgrees(traces, s);
          }
          AddKeepsAgreement(if s in views then views[s] else EmptySession(s), traces, s, trace);
        }
      }
    }
  }

  /** All traces counted in order, starting from no session at all. */
  function AddAll(traces: seq<Trace>): Views {
    if traces == [] then map[] else AddTrace(AddAll(traces[..|traces| - 1]), traces[|traces| - 1])
  }

  lemma {:induction false} AddAllAgrees(traces: seq<Trace>)
    ensures ViewsAgree(AddAll(traces), traces)
  {
    if traces == [] {
      assert forall s :: ViewAgrees(map[], traces, s);
    } else {
      var init, last := traces[..|traces| - 1], traces[|traces| - 1];
      assert traces == init + [last];
      AddAllAgrees(init);
      AddTraceKeepsViewsAgreeing(AddAll(init), init, last);
    }
  }

  // ---------- Conservation, on the summary itself ----------

  /** What a group's entry and its latency counter hold, as a tally. */
  function EntryTally(groups: Groups, name: string): Tally
    requires name in groups.summaries && name in groups.latency
  {
    var g := groups.summaries[name];
    Tally(g.requests, g.errors, g.totalTokens, g.estimatedCost, groups.latency[name], 0)
  }

  ghost function SumOfEntries(groups: Groups, names: set<string>): Tally
    requires names <= groups.summaries.Keys && names <= groups.latency.Keys
  {
    if names == {} then ZERO
    else
      var name := AnyOf(names);
      Add(EntryTally(groups, name), SumOfEntries(groups, names - {name}))
  }

  lemma {:induction false} EntriesSumAsTallies(kind: Kind, groups: Groups, names: set<string>, traces: seq<Trace>,
                                               session: string)
    requires GroupsAgree(kind, groups, traces, session)
    requires names <= groups.summaries.Keys && names <= groups.latency.Keys
    ensures SumOfEntries(groups, names) == SumOfGroups(kind, names, traces, session).(cacheHits := 0)
    decreases |names|
  {
    if names != {} {
      var name := AnyOf(names);
      assert GroupAgrees(kind, groups, traces, session, name);
      EntriesSumAsTallies(kind, groups, names - {name}, traces, session);
    }
  }

  /** The groups on record catch every grouped trace, and their two counters cover the same names. */
  lemma GroupsOnRecordAddUp(kind: Kind, groups: Groups, traces: seq<Trace>, session: string)
    requires GroupsAgree(kind, groups, traces, session)
    ensures groups.summaries.Keys == groups.latency.Keys == groups.requests.Keys
    ensures SumOfEntries(groups, groups.summaries.Keys) == TallyUp(traces, OfAnyGroup(kind, session)).(cacheHits := 0)
    ensures forall name :: name in groups.summaries ==> groups.requests[name] == groups.summaries[name].requests
  {
    forall name
      ensures name in groups.summaries <==> name in groups.latency
      ensures name in groups.summaries <==> name in groups.requests
      ensures name in groups.summaries ==> name != "" && groups.requests[name] == groups.summaries[name].requests
    {
      assert GroupAgrees(kind, groups, traces, session, name);
    }
    forall trace | trace in traces && Selects(OfAnyGroup(kind, session), trace)
      ensures GroupName(kind, trace) in groups.summaries
    {
      var name := GroupName(kind, trace);
      assert GroupAgrees(kind, groups, traces, session, name);
      TallyCounts(traces, OfGroup(kind, session, name));
    }
    EntriesSumAsTallies(kind, groups, groups.summaries.Keys, traces, session);
    GroupsAddUp(kind, groups.summaries.Keys, traces, session);
  }

  lemma RatioMultipliesBack(n: int, d: int)
    requires d != 0
    ensures Ratio(n, d) * d as real == n as real
  {
  }

  /**
   * The phases of a session sum exactly to its totals, the tools to the traces that name one; the mirrored
   * counters match the summaries, and the averages multiply back to the latencies.
   */
  lemma SummaryIsConserved(summary: Session, traces: seq<Trace>, session: string)
    requires SessionAgrees(summary, traces, session)
    ensures summary.phases.summaries.Keys == summary.phases.latency.Keys == summary.phases.requests.Keys
    ensures summary.tools.summaries.Keys == summary.tools.latency.Keys == summary.tools.requests.Keys
    ensures SumOfEntries(summary.phases, summary.phases.summaries.Keys) ==
            Tally(summary.requests, summary.errors, summary.totalTokens, summary.estimatedCost, summary.totalLatency, 0)
    ensures SumOfEntries(summary.tools, summary.tools.summaries.Keys) ==
            TallyUp(traces, OfAnyGroup(Tool, session)).(cacheHits := 0)
    ensures forall name :: name in summary.phases.summaries ==>
      summary.phases.requests[name] == summary.phases.summaries[name].requests
    ensures forall name :: name in summary.tools.summaries ==>
      summary.tools.requests[name] == summary.tools.summaries[name].requests
    ensures summary.requests != 0 ==>
      summary.avgLatencyMs * summary.requests as real == summary.totalLatency as real
  {
    GroupsOnRecordAddUp(Phase, summary.phases, traces, session);
    EveryTraceHasPhase(traces, session);
    GroupsOnRecordAddUp(Tool, summary.tools, traces, session);
    if summary.requests != 0 {
      RatioMultipliesBack(summary.totalLatency, summary.requests);
    }
  }

  // ---------- Replay ----------

  lemma SameGroups(kind: Kind, a: seq<Trace>, b: seq<Trace>, session: string, x: Groups, y: Groups)
    requires multiset(a) == multiset(b)
    requires GroupsAgree(kind, x, a, session) && GroupsAgree(kind, y, b, session)
    ensures x == y
  {
    forall name
      ensures name in x.summaries <==> name in y.summaries
      ensures name in x.latency <==> name in y.latency
      ensures name in x.requests <==> name in y.requests
      ensures name in x.summaries ==> x.summaries[name] == y.summaries[name]
      ensures name in x.latency ==> x.latency[name] == y.latency[name]
      ensures name in x.requests ==> x.requests[name] == y.requests[name]
    {
      assert GroupAgrees(kind, x, a, session, name) && GroupAgrees(kind, y, b, session, name);
      TallyOfPermutation(a, b, OfGroup(kind, session, name));
    }
    assert x.summaries == y.summaries && x.latency == y.latency && x.requests == y.requests;
  }

  /** Two summaries that agree with the same traces in different orders differ in their last timestamp only. */
  lemma OrderDoesNotMatter(a: seq<Trace>, b: seq<Trace>, session: string, x: Session, y: Session)
    requires multiset(a) == multiset(b)
    requires SessionAgrees(x, a, session) && SessionAgrees(y, b, session)
    ensures x == y.(lastUpdatedAt := x.lastUpdatedAt)
  {
    TallyOfPermutation(a, b, OfSession(session));
    SameGroups(Phase, a, b, session, x.phases, y.phases);
    SameGroups(Tool, a, b, session, x.tools, y.tools);
  }

  /** A trace that recording leaves as it is, whatever identity and time are on offer. */
  ghost predicate IsNormal(trace: Trace) {
    forall newID, now :: NormalizeTrace(trace, newID, now) == trace
  }

  lemma NormalIsNonNegative(trace: Trace)
    requires IsNormal(trace)
    ensures trace.latencyMs >= 0 && trace.estimatedCost >= 0.0
  {
    assert NormalizeTrace(trace, "", "") == trace;
  }

  ghost predicate AtMost(a: Tally, b: Tally) {
    && a.requests <= b.requests && a.errors <= b.errors && a.tokens <= b.tokens && a.cost <= b.cost
    && a.latency <= b.latency && a.cacheHits <= b.cacheHits
  }

  lemma {:induction false} NarrowerTalliesLess(traces: seq<Trace>, narrow: Selection, wide: Selection)
    requires forall trace :: trace in traces ==> IsNormal(trace)
    requires forall trace :: trace in traces && Selects(narrow, trace) ==> Selects(wide, trace)
    ensures AtMost(TallyUp(traces, narrow), TallyUp(traces, wide))
  {
    if traces != [] {
      NarrowerTalliesLess(traces[..|traces| - 1], narrow, wide);
      assert traces[|traces| - 1] in traces;
      NormalIsNonNegative(traces[|traces| - 1]);
    }
  }

  /** The tools of a session never add up to more than its totals. */
  lemma ToolsStayWithinTotals(summary: Session, traces: seq<Trace>, session: string)
    requires SessionAgrees(summary, traces, session) && forall trace :: trace in traces ==> IsNormal(trace)
    ensures summary.tools.summaries.Keys == summary.tools.latency.Keys
    ensures AtMost(
      SumOfEntries(summary.tools, summary.tools.summaries.Keys),
      Tally(summary.requests, summary.errors, summary.totalTokens, summary.estimatedCost, summary.totalLatency, 0))
  {
    SummaryIsConserved(summary, traces, session);
    NarrowerTalliesLess(traces, OfAnyGroup(Tool, session), OfSession(session));
  }

  /** Every trace of a log, recorded again. */
  function Rerecorded(log: seq<Trace>, newID: string, now: string): seq<Trace> {
    seq(|log|, i requires 0 <= i < |log| => NormalizeTrace(log[i], newID, now))
  }

  lemma RerecordedIsLog(log: seq<Trace>, newID: string, now: string)
    requires forall trace :: trace in log ==> IsNormal(trace)
    ensures Rerecorded(log, newID, now) == log
  {
    forall i | 0 <= i < |log|
      ensures NormalizeTrace(log[i], newID, now) == log[i]
    {
      assert IsNormal(log[i]);
    }
  }

  lemma SameRecorded(a: seq<Trace>, b: seq<Trace>, session: string)
    requires multiset(a) == multiset(b)
    ensures IsRecorded(a, session) <==> IsRecorded(b, session)
  {
    forall trace
      ensures trace in a <==> trace in b
    {
      assert trace in a <==> trace in multiset(a);
      assert trace in b <==> trace in multiset(b);
    }
  }

  /**
   * Replay agrees with memory: if the log holds the same traces as were applied, in whatever order, then
   * recording the log again rebuilds the same sessions. A summary comes out the same in everything but its last
   * timestamp, and exactly the same if and only if the latest trace of the session is stamped alike in both orders.
   */
  lemma ReplayRebuildsViews(log: seq<Trace>, applied: seq<Trace>, newID: string, now: string, live: Views,
                            replayed: Views)
    requires multiset(log) == multiset(applied) && forall trace :: trace in log ==> IsNormal(trace)
    requires ViewsAgree(live, applied)
    requires ViewsAgree(replayed, Rerecorded(log, newID, now))
    ensures replayed.Keys == live.Keys
    ensures forall s :: s in live ==> replayed[s] == live[s].(lastUpdatedAt := replayed[s].lastUpdatedAt)
    ensures forall s :: s in live ==> (replayed[s] == live[s] <==> LatestStamp(log, s) == LatestStamp(applied, s))
  {
    RerecordedIsLog(log, newID, now);
    forall s
      ensures s in replayed <==> s in live
      ensures s in live ==> replayed[s] == live[s].(lastUpdatedAt := replayed[s].lastUpdatedAt)
      ensures s in live ==> (replayed[s] == live[s] <==> LatestStamp(log, s) == LatestStamp(applied, s))
    {
      assert ViewAgrees(live, applied, s) && ViewAgrees(replayed, log, s);
      SameRecorded(log, applied, s);
      if s in live {
        OrderDoesNotMatter(log, applied, s, replayed[s], live[s]);
      }
    }
  }

  // ---------- The two steps of recording ----------

  datatype Step = Appended(trace: Trace) | Applied(trace: Trace)

  /** The separately locked steps of all callers, each after the ones that happened before it. */
  datatype Steps = NoSteps | Then(earlier: Steps, step: Step)

  /** What the appends among the steps leave in the log. */
  function LogOf(steps: Steps): seq<Trace> {
    match steps
    case NoSteps => []
    case Then(earlier, Appended(trace)) => LogOf(earlier) + [trace]
    case Then(earlier, Applied(_)) => LogOf(earlier)
  }

  /** The traces applied, in the order of their application. */
  function AppliedOf(steps: Steps): seq<Trace> {
    match steps
    case NoSteps => []
    case Then(earlier, Appended(_)) => AppliedOf(earlier)
    case Then(earlier, Applied(trace)) => AppliedOf(earlier) + [trace]
  }

  /**
   * Records of the session do not overlap: each is applied before the next is appended, whatever the records of
   * other sessions do in between. `open` is the one that has been appended only.
   */
  predicate OneAtATime(steps: Steps, session: string, open: Option<Trace>) {
    match steps
    case NoSteps => open == None
    case Then(earlier, step) =>
      if step.trace.sessionID != session then OneAtATime(earlier, session, open)
      else if step.Appended? then open == Some(step.trace) && OneAtATime(earlier, session, None)
      else open == None && OneAtATime(earlier, session, Some(step.trace))
  }

  lemma LatestStampOneMore(traces: seq<Trace>, trace: Trace, session: string)
    ensures LatestStamp(traces + [trace], session) ==
            if trace.sessionID == session then trace.timestamp else LatestStamp(traces, session)
  {
    assert (traces + [trace])[..|traces|] == traces;
  }

  /** Without overlap the session's latest trace in the log is the one appended only, or else the latest applied. */
  lemma {:induction false} OneAtATimeSameStamp(steps: Steps, session: string, open: Option<Trace>)
    requires OneAtATime(steps, session, open)
    ensures LatestStamp(LogOf(steps), session) ==
            if open.Some? then open.value.timestamp else LatestStamp(AppliedOf(steps), session)
  {
    if steps.Then? {
      var trace := steps.step.trace;
      LatestStampOneMore(LogOf(steps.earlier), trace, session);
      LatestStampOneMore(AppliedOf(steps.earlier), trace, session);
      if trace.sessionID != session {
        OneAtATimeSameStamp(steps.earlier, session, open);
      } else {
        OneAtATimeSameStamp(steps.earlier, session, if steps.step.Appended? then None else Some(trace));
      }
    }
  }

  /** No session's records have come to overlap since then. */
  ghost predicate NoNewOverlap(before: Steps, now: Steps) {
    forall s :: OneAtATime(before, s, None) ==> OneAtATime(now, s, None)
  }

  lemma RecordAddsNoOverlap(steps: Steps, trace: Trace)
    ensures NoNewOverlap(steps, Then(Then(steps, Appended(trace)), Applied(trace)))
  {
  }

  lemma NoNewOverlapChains(a: Steps, b: Steps, c: Steps)
    requires NoNewOverlap(a, b) && NoNewOverlap(b, c)
    ensures NoNewOverlap(a, c)
  {
  }
}
