/** How often a dead upstream is tried over time while calls overlap. */
module Pacing {
  import opened Breaker
  import opened Overlaps

  /** The check at this position was admitted. */
  ghost predicate IsAdmitted(s: State, history: seq<Op>, j: nat)
    requires j < |history|
  {
    history[j].Allow? && !IsOpenAt(After(s, history[..j]), history[j].now)
  }

  /** The report at position `i` is of the call admitted at position `j`, which took at most `d`. */
  ghost predicate IsReportOf(s: State, history: seq<Op>, times: seq<int>, d: nat, i: nat, j: nat)
    requires |times| == |history| && i < |history| && history[i].Failure?
  {
    && j < i && IsAdmitted(s, history, j)
    && history[i].now == times[j] && times[i] - times[j] <= d
  }

  ghost predicate IsReport(s: State, history: seq<Op>, times: seq<int>, d: nat, i: nat)
    requires |times| == |history| && i < |history| && history[i].Failure?
  {
    exists j :: IsReportOf(s, history, times, d, i, j)
  }

  ghost predicate IsDated(s: State, history: seq<Op>, times: seq<int>, d: nat, i: nat)
    requires |times| == |history| && i < |history|
  {
    && (history[i].Allow? ==> history[i].now == times[i])
    && (history[i].Failure? ==> IsReport(s, history, times, d, i))
  }

  ghost predicate IsInOrder(times: seq<int>, i: nat, j: nat)
    requires i <= j < |times|
  {
    times[i] <= times[j]
  }

  /**
   * The operations happen at these times. A check reads the time at which it happens; a failure is reported with
   * the time at which its call was admitted, at most `d` ago.
   */
  ghost predicate IsTimed(s: State, history: seq<Op>, times: seq<int>, d: nat) {
    && |times| == |history|
    && (forall i: nat, j: nat :: i <= j < |times| ==> IsInOrder(times, i, j))
    && (forall i: nat :: i < |history| ==> IsDated(s, history, times, d, i))
  }

  /** How far apart two checks are, at least, that close the breaker after one another. */
  function Gap(timeout: int, d: nat): int {
    if 2 * d < timeout then timeout else timeout - d
  }

  /** How often the breaker was closed again. */
  function Resets(threshold: int, timeout: int, history: seq<Op>): nat
    decreases |history|
  {
    var from := LastReset(threshold, timeout, history);
    if from == 0 then 0 else 1 + Resets(threshold, timeout, history[..from - 1])
  }

  // ---------- Prefixes ----------

  lemma TimedPrefix(s: State, history: seq<Op>, times: seq<int>, d: nat, n: nat)
    requires IsTimed(s, history, times, d) && n <= |history|
    ensures IsTimed(s, history[..n], times[..n], d)
  {
    forall i: nat, j: nat | i <= j < n
      ensures IsInOrder(times[..n], i, j)
    {
      assert IsInOrder(times, i, j);
    }
    forall i: nat | i < n
      ensures IsDated(s, history[..n], times[..n], d, i)
    {
      assert IsDated(s, history, times, d, i);
      if history[i].Failure? {
        var j: nat :| IsReportOf(s, history, times, d, i, j);
        assert history[..n][..j] == history[..j];
        assert IsReportOf(s, history[..n], times[..n], d, i, j);
      }
    }
  }

  lemma {:induction false} SameReset(threshold: int, timeout: int, history: seq<Op>, n: nat)
    requires LastReset(threshold, timeout, history) <= n <= |history|
    ensures LastReset(threshold, timeout, history[..n]) == LastReset(threshold, timeout, history)
  {
    if n == |history| {
      assert history[..n] == history;
    } else {
      var init := history[..|history| - 1];
      SameReset(threshold, timeout, init, n);
      assert init[..n] == history[..n];
    }
  }

  /** The position of the latest failure of a part of the log. */
  lemma {:induction false} LatestFailure(history: seq<Op>, a: nat, b: nat) returns (q: nat)
    requires a <= b <= |history| && FailureTimes(history[a..b]) != []
    ensures a <= q < b && history[q] == Op.Failure(Last(FailureTimes(history[a..b])))
    ensures forall n :: q < n <= b ==> FailureTimes(history[a..n]) == FailureTimes(history[a..b])
  {
    var last := history[b - 1];
    assert history[a..b][..b - 1 - a] == history[a..b - 1] && history[a..b][b - 1 - a] == last;
    if last.Failure? {
      q := b - 1;
    } else {
      q := LatestFailure(history, a, b - 1);
    }
  }

  // ---------- Two checks that close the breaker ----------

  /** A check that finds a tripped streak and does not close the breaker is denied. */
  lemma NotClosedNotAdmitted(threshold: int, timeout: int, history: seq<Op>, j: nat)
    requires threshold > 0 && timeout > 0 && AllFail(history)
    requires LastReset(threshold, timeout, history) <= j < |history| && history[j].Allow?
    requires |FailureTimes(history[LastReset(threshold, timeout, history)..j])| >= threshold
    ensures !IsAdmitted(Fresh(threshold, timeout), history, j)
  {
    var from := LastReset(threshold, timeout, history);
    SameReset(threshold, timeout, history, j);
    NothingClearsAfter(threshold, timeout, history, j);
    assert history[..j][from..] == history[from..j];
    TrippedDenies(threshold, timeout, history[..j], history[j].now);
  }

  /**
   * The check that closed the breaker last comes a timeout after the latest report of the period before it. Until
   * that check, and after that report, nothing is admitted.
   */
  lemma ResetAfterLatest(threshold: int, timeout: int, history: seq<Op>) returns (q: nat)
    requires threshold > 0 && timeout > 0 && AllFail(history) && LastReset(threshold, timeout, history) > 0
    ensures
      var reset := LastReset(threshold, timeout, history) - 1;
      var from := LastReset(threshold, timeout, history[..reset]);
      && from <= q < reset && history[q].Failure? && history[reset].Allow?
      && history[reset].now - history[q].now >= timeout
      && forall j :: q < j < reset ==> !IsAdmitted(Fresh(threshold, timeout), history, j)
  {
    var reset := LastReset(threshold, timeout, history) - 1;
    var before := history[..reset];
    var from := LastReset(threshold, timeout, before);
    AClearingComesBefore(threshold, timeout, history);
    q := LatestFailure(history, from, reset);
    forall j | q < j < reset
      ensures !IsAdmitted(Fresh(threshold, timeout), history, j)
    {
      if history[j].Allow? {
        assert before[..j] == history[..j] && before[from..j] == history[from..j];
        NotClosedNotAdmitted(threshold, timeout, before, j);
      }
    }
  }

  lemma CallReported(s: State, history: seq<Op>, times: seq<int>, d: nat, i: nat) returns (j: nat)
    requires IsTimed(s, history, times, d) && i < |history| && history[i].Failure?
    ensures IsReportOf(s, history, times, d, i, j)
  {
    assert IsDated(s, history, times, d, i);
    j :| IsReportOf(s, history, times, d, i, j);
  }

  /** A call admitted before the last reset was admitted long enough before it. */
  lemma LeftFromEarlier(threshold: int, timeout: int, history: seq<Op>, times: seq<int>, d: nat, j: nat)
    requires threshold > 0 && timeout > 0 && AllFail(history)
    requires IsTimed(Fresh(threshold, timeout), history, times, d)
    requires LastReset(threshold, timeout, history) > j + 1 && IsAdmitted(Fresh(threshold, timeout), history, j)
    ensures times[j] + timeout - d <= times[LastReset(threshold, timeout, history) - 1]
  {
    var earlier := ResetAfterLatest(threshold, timeout, history);
    var i := CallReported(Fresh(threshold, timeout), history, times, d, earlier);
    var reset := LastReset(threshold, timeout, history) - 1;
    assert IsInOrder(times, j, earlier) && IsDated(Fresh(threshold, timeout), history, times, d, reset);
  }

  /** A period's reports are stamped no earlier than its start, or by `d` at most if calls may last half a timeout. */
  lemma ReportsAreRecent(threshold: int, timeout: int, history: seq<Op>, times: seq<int>, d: nat, q: nat)
    requires threshold > 0 && timeout > 0 && AllFail(history)
    requires IsTimed(Fresh(threshold, timeout), history, times, d)
    requires LastReset(threshold, timeout, history) > 0
    requires LastReset(threshold, timeout, history) <= q < |history| && history[q].Failure?
    ensures
      var reset := LastReset(threshold, timeout, history) - 1;
      history[q].now >= if 2 * d < timeout then times[reset] else times[reset] - d
  {
    var s, reset := Fresh(threshold, timeout), LastReset(threshold, timeout, history) - 1;
    var j := CallReported(s, history, times, d, q);
    if j < reset {
      LeftFromEarlier(threshold, timeout, history, times, d, j);
      assert IsInOrder(times, reset, q);
    } else {
      assert IsInOrder(times, reset, j);
    }
  }

  /** Checks that close the breaker one after the other are a gap apart, the first a timeout after the start. */
  lemma ResetsAreApart(threshold: int, timeout: int, history: seq<Op>, times: seq<int>, d: nat)
    requires threshold > 0 && timeout > 0 && AllFail(history)
    requires IsTimed(Fresh(threshold, timeout), history, times, d)
    requires LastReset(threshold, timeout, history) > 0
    ensures
      var reset := LastReset(threshold, timeout, history) - 1;
      var from := LastReset(threshold, timeout, history[..reset]);
      times[reset] >= if from == 0 then times[0] + timeout else times[from - 1] + Gap(timeout, d)
  {
    var s, reset := Fresh(threshold, timeout), LastReset(threshold, timeout, history) - 1;
    var from := LastReset(threshold, timeout, history[..reset]);
    var q := ResetAfterLatest(threshold, timeout, history);
    assert IsDated(s, history, times, d, reset);
    if from == 0 {
      var j := CallReported(s, history, times, d, q);
      assert IsInOrder(times, 0, j);
    } else {
      TimedPrefix(s, history, times, d, reset);
      ReportsAreRecent(threshold, timeout, history[..reset], times[..reset], d, q);
    }
  }

  /** The moment `n` gaps after the start. */
  function AfterGaps(start: int, n: nat, gap: int): int {
    if n == 0 then start else AfterGaps(start, n - 1, gap) + gap
  }

  /** So the breaker has been closed at most once for every gap since the start of the log. */
  lemma {:induction false} ResetsTakeTime(threshold: int, timeout: int, history: seq<Op>, times: seq<int>, d: nat)
    requires threshold > 0 && d < timeout && AllFail(history)
    requires IsTimed(Fresh(threshold, timeout), history, times, d)
    requires LastReset(threshold, timeout, history) > 0
    ensures times[LastReset(threshold, timeout, history) - 1] >=
            AfterGaps(times[0], Resets(threshold, timeout, history), Gap(timeout, d))
    decreases |history|
  {
    var reset := LastReset(threshold, timeout, history) - 1;
    var before := history[..reset];
    ResetsAreApart(threshold, timeout, history, times, d);
    if LastReset(threshold, timeout, before) > 0 {
      TimedPrefix(Fresh(threshold, timeout), history, times, d, reset);
      ResetsTakeTime(threshold, timeout, before, times[..reset], d);
    } else {
      assert Resets(threshold, timeout, before) == 0;
    }
  }

  lemma {:induction false} GapsAddUp(start: int, n: nat, gap: int)
    ensures AfterGaps(start, n, gap) == start + n * gap
  {
    if n > 0 {
      GapsAddUp(start, n - 1, gap);
    }
  }

  // ---------- Calls over time ----------

  lemma OnePeriodMore(calls: int, earlier: int, n: nat, m: int)
    requires earlier <= n * m && calls <= earlier + m
    ensures calls <= (1 + n) * m
  {
  }

  /** Period by period, the calls admitted number at most a period's worth each. */
  lemma {:induction false} AdmissionsByPeriod(threshold: int, timeout: int, history: seq<Op>, c: nat)
    requires threshold > 0 && timeout > 0 && c >= 1
    requires AllFail(history) && Overlapping(Fresh(threshold, timeout), history, c)
    ensures Admissions(Fresh(threshold, timeout), history) <=
            (1 + Resets(threshold, timeout, history)) * (threshold + c - 1)
    decreases |history|
  {
    var from := LastReset(threshold, timeout, history);
    PeriodBound(threshold, timeout, history, c);
    if from > 0 {
      OverlappingPrefix(Fresh(threshold, timeout), history, c, from - 1);
      AdmissionsByPeriod(threshold, timeout, history[..from - 1], c);
      OnePeriodMore(Admissions(Fresh(threshold, timeout), history),
                    Admissions(Fresh(threshold, timeout), history[..from - 1]),
                    1 + Resets(threshold, timeout, history[..from - 1]), threshold + c - 1);
    }
  }

  lemma PeriodsInTime(calls: int, n: nat, m: nat, start: int, t: int, gap: int)
    requires gap > 0 && calls <= (1 + n) * m && AfterGaps(start, n, gap) <= t
    ensures calls <= m * ((t - start) / gap + 1)
  {
    GapsAddUp(start, n, gap);
    QuotientAtLeast(t - start, gap, n);
    MulMonotone(m, 1 + n, (t - start) / gap + 1);
  }

  lemma FirstIsAdmitted(threshold: int, timeout: int, history: seq<Op>, c: nat)
    requires history != [] && AllFail(history) && Overlapping(Fresh(threshold, timeout), history, c)
    ensures IsAdmitted(Fresh(threshold, timeout), history, 0)
  {
    var s := Fresh(threshold, timeout);
    OverlappingPrefix(s, history, c, 1);
    assert history[..1] == [] + [history[0]] && history[..0] == [];
    OverlapOneMore(s, [], history[0], c);
  }

  /**
   * The bound over time. Calls to a dead upstream that overlap, at most `c` of them unreported at any moment and
   * none taking as long as the timeout, number at most `threshold + c - 1` for every gap begun since the first.
   * The gap is the timeout itself if no call takes half of it.
   */
  lemma OverlapBoundOverTime(threshold: int, timeout: int, history: seq<Op>, times: seq<int>, d: nat, c: nat, t: int)
    requires threshold > 0 && d < timeout && c >= 1 && history != []
    requires AllFail(history) && Overlapping(Fresh(threshold, timeout), history, c)
    requires IsTimed(Fresh(threshold, timeout), history, times, d) && times[|times| - 1] <= t
    ensures IsAdmitted(Fresh(threshold, timeout), history, 0)
    ensures Admissions(Fresh(threshold, timeout), history) <=
            (threshold + c - 1) * ((t - times[0]) / Gap(timeout, d) + 1)
  {
    FirstIsAdmitted(threshold, timeout, history, c);
    var from, last := LastReset(threshold, timeout, history), |history| - 1;
    if from > 0 {
      ResetsTakeTime(threshold, timeout, history, times, d);
      assert IsInOrder(times, from - 1, last);
    } else {
      assert IsInOrder(times, 0, last);
    }
    AdmissionsByPeriod(threshold, timeout, history, c);
    PeriodsInTime(Admissions(Fresh(threshold, timeout), history), Resets(threshold, timeout, history),
                  threshold + c - 1, times[0], t, Gap(timeout, d));
  }

  // ---------- What calls that take longer do ----------

  /** Two calls overlap, and then the second with the check that closes the breaker. */
  function CloseChecks(timeout: int, d: nat, t: int): seq<Op> {
    var second, reset := t + timeout - d, t + timeout;
    [Op.Allow(t)] + [Op.Allow(second)] + [Op.Failure(t)] + [Op.Allow(reset)] + [Op.Failure(second)]
  }

  /** The breaker trips with the first call's stamp, is closed a timeout later, and trips with the second's. */
  lemma CloseStates(timeout: int, d: nat, t: int)
    requires 0 < timeout && t > ZERO_TIME && d < timeout
    ensures
      var s, history := Fresh(1, timeout), CloseChecks(timeout, d, t);
      && After(s, history[..1]) == After(s, history[..2]) == After(s, history[..4]) == s
      && After(s, history[..3]) == State(1, timeout, 1, t)
      && After(s, history) == State(1, timeout, 1, t + timeout - d)
  {
    var s, history := Fresh(1, timeout), CloseChecks(timeout, d, t);
    assert history[..1] == [] + [history[0]] && history[..2] == history[..1] + [history[1]];
    assert history[..3] == history[..2] + [history[2]] && history[..4] == history[..3] + [history[3]];
    assert history == history[..4] + [history[4]];
    AfterOneMore(s, [], history[0]);
    AfterOneMore(s, history[..1], history[1]);
    AfterOneMore(s, history[..2], history[2]);
    AfterOneMore(s, history[..3], history[3]);
    AfterOneMore(s, history[..4], history[4]);
  }

  lemma CloseOverlaps(timeout: int, d: nat, t: int)
    requires 0 < timeout && t > ZERO_TIME && d < timeout
    ensures Overlapping(Fresh(1, timeout), CloseChecks(timeout, d, t), 2)
  {
    var s, history := Fresh(1, timeout), CloseChecks(timeout, d, t);
    CloseStates(timeout, d, t);
    assert history[..1] == [] + [history[0]] && history[..2] == history[..1] + [history[1]];
    assert history[..3] == history[..2] + [history[2]] && history[..4] == history[..3] + [history[3]];
    assert history == history[..4] + [history[4]];
    OverlapOneMore(s, [], history[0], 2);
    OverlapOneMore(s, history[..1], history[1], 2);
    OverlapOneMore(s, history[..2], history[2], 2);
    OverlapOneMore(s, history[..3], history[3], 2);
    OverlapOneMore(s, history[..4], history[4], 2);
  }

  /** Once calls may last half a timeout, checks just a timeout less `d` apart can close the breaker in turn. */
  lemma CloseResets(timeout: int, d: nat, t: int)
    requires d < timeout <= 2 * d && t > ZERO_TIME
    ensures
      var s, history := Fresh(1, timeout), CloseChecks(timeout, d, t);
      var second, reset := t + timeout - d, t + timeout;
      && IsTimed(s, history, [t, second, second, reset, reset], d) && AllFail(history) && Overlapping(s, history, 2)
      && IsExpired(After(s, history[..3]), reset)
      && IsExpired(After(s, history), reset + Gap(timeout, d))
  {
    var s, history := Fresh(1, timeout), CloseChecks(timeout, d, t);
    CloseStates(timeout, d, t);
    CloseOverlaps(timeout, d, t);
    var second, reset := t + timeout - d, t + timeout;
    var times := [t, second, second, reset, reset];
    assert history[..0] == [];
    assert IsReportOf(s, history, times, d, 2, 0);
    assert IsReportOf(s, history, times, d, 4, 1);
  }

  /** Failing requests one at a time, admitted a timeout or more apart, are never denied. */
  lemma {:induction false} NeverDenied(threshold: int, timeout: int, times: seq<int>)
    requires threshold > 0 && timeout > 0 && forall i :: 0 < i < |times| ==> times[i] - times[i - 1] >= timeout
    ensures
      var s := Fresh(threshold, timeout);
      && (forall k :: 0 <= k < |times| ==> !IsOpenAt(After(s, FailingRequests(times[..k])), times[k]))
      && var after := After(s, FailingRequests(times));
         after.timeout == timeout && (after.openedAt == ZERO_TIME || (times != [] && after.openedAt == Last(times)))
  {
    if times != [] {
      var s, init := Fresh(threshold, timeout), times[..|times| - 1];
      NeverDenied(threshold, timeout, init);
      FailingOneMore(s, times);
      forall k | 0 <= k < |times|
        ensures !IsOpenAt(After(s, FailingRequests(times[..k])), times[k])
      {
        if k < |init| {
          assert init[..k] == times[..k];
        }
      }
    }
  }
}
