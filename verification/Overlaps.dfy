/** What the circuit breaker promises, and what it does not, when requests overlap or its timeout has run out. */
module Overlaps {
  import opened Breaker

  lemma AfterOneMore(s: State, history: seq<Op>, op: Op)
    ensures After(s, history + [op]) == Apply(After(s, history), op)
  {
    assert (history + [op])[..|history|] == history;
  }

  lemma {:induction false} AfterConcat(s: State, a: seq<Op>, b: seq<Op>)
    ensures After(s, a + b) == After(After(s, a), b)
  {
    if b == [] {
      assert a + b == a;
    } else {
      var init, last := b[..|b| - 1], b[|b| - 1];
      AfterConcat(s, a, init);
      assert a + b == (a + init) + [last];
      AfterOneMore(s, a + init, last);
    }
  }

  /** The latest of a sequence of stamps. */
  function Last(stamps: seq<int>): int
    requires stamps != []
  {
    stamps[|stamps| - 1]
  }

  // ---------- When a check is denied ----------

  /** A check is denied exactly when the streak has tripped and its latest failure is less than a timeout old. */
  lemma DeniedIff(threshold: int, timeout: int, history: seq<Op>, now: int)
    requires threshold > 0 && timeout > 0
    ensures
      var streak := Streak(threshold, timeout, history);
      IsOpenAt(After(Fresh(threshold, timeout), history), now) <==>
      Tripped(threshold, streak) && now - Last(streak) < timeout
  {
    HistoryDeterminesState(threshold, timeout, history);
  }

  /** The breaker's open mark is set, but its timeout has run out. */
  predicate IsExpired(s: State, now: int) {
    s.threshold > 0 && s.timeout > 0 && s.openedAt != ZERO_TIME && now - s.openedAt >= s.timeout
  }

  /**
   * After the check that finds the timeout over, whatever follows in whatever order, a later check is denied
   * exactly when the operations in between alone have tripped the breaker again.
   */
  lemma DeniedAfterExpiryIff(s: State, now: int, between: seq<Op>, later: int)
    requires IsExpired(s, now)
    ensures
      var streak := Streak(s.threshold, s.timeout, between);
      IsOpenAt(After(s, [Op.Allow(now)] + between), later) <==>
      Tripped(s.threshold, streak) && later - Last(streak) < s.timeout
  {
    assert After(s, [Op.Allow(now)]) == Fresh(s.threshold, s.timeout) by { AfterOneMore(s, [], Op.Allow(now)); }
    AfterConcat(s, [Op.Allow(now)], between);
    DeniedIff(s.threshold, s.timeout, between, later);
  }

  function Checks(now: int, n: nat): seq<Op> {
    seq(n, i => Op.Allow(now))
  }

  lemma ChecksOneMore(now: int, n: nat)
    ensures Checks(now, n + 1) == Checks(now, n) + [Op.Allow(now)]
  {
  }

  /** Once the timeout is over any number of overlapping checks is admitted, the first of them closing the breaker. */
  lemma {:induction false} ExpiredAdmitsAnyNumber(s: State, now: int, n: nat)
    requires IsExpired(s, now)
    ensures n > 0 ==> After(s, Checks(now, n)) == s.(failures := 0, openedAt := ZERO_TIME)
    ensures !IsOpenAt(After(s, Checks(now, n)), now)
  {
    if n > 0 {
      ExpiredAdmitsAnyNumber(s, now, n - 1);
      ChecksOneMore(now, n - 1);
      AfterOneMore(s, Checks(now, n - 1), Op.Allow(now));
    }
  }

  /** Requests one at a time, each checked and then reported as a failure before the next. */
  function FailingRequests(times: seq<int>): seq<Op> {
    if times == [] then []
    else FailingRequests(times[..|times| - 1]) + [Op.Allow(Last(times)), Op.Failure(Last(times))]
  }

  lemma FailingOneMore(s: State, times: seq<int>)
    requires times != []
    ensures After(s, FailingRequests(times)) ==
            AfterTrippingCall(After(s, FailingRequests(times[..|times| - 1])), Last(times))
  {
    var earlier := FailingRequests(times[..|times| - 1]);
    assert FailingRequests(times) == earlier + [Op.Allow(Last(times))] + [Op.Failure(Last(times))];
    AfterOneMore(s, earlier, Op.Allow(Last(times)));
    AfterOneMore(s, earlier + [Op.Allow(Last(times))], Op.Failure(Last(times)));
  }

  /** Even one at a time, as many requests as the threshold are tried after the timeout, each of them admitted. */
  lemma {:induction false} TrialsAfterExpiry(s: State, times: seq<int>)
    requires times != [] && IsExpired(s, times[0]) && |times| <= s.threshold
    ensures forall k :: 0 <= k < |times| ==> !IsOpenAt(After(s, FailingRequests(times[..k])), times[k])
    ensures After(s, FailingRequests(times)) ==
            s.(failures := |times|, openedAt := if |times| == s.threshold then Last(times) else ZERO_TIME)
  {
    var init := times[..|times| - 1];
    if init == [] {
      assert FailingRequests(init) == [] && times[..0] == [];
    } else {
      TrialsAfterExpiry(s, init);
      assert forall k :: 0 <= k < |init| ==> init[..k] == times[..k];
    }
    FailingOneMore(s, times);
  }

  /** So an expired admission is the only trial if and only if the threshold is one. */
  lemma OnlyTrialIff(s: State, now: int, later: int)
    requires IsExpired(s, now) && now != ZERO_TIME && now <= later < now + s.timeout
    ensures IsOpenAt(After(s, [Op.Allow(now), Op.Failure(now)]), later) <==> s.threshold == 1
  {
    assert FailingRequests([now]) == [Op.Allow(now), Op.Failure(now)];
    TrialsAfterExpiry(s, [now]);
  }

  /** With the gateway's own threshold there are three trials, one after the other. */
  lemma DefaultThresholdTrials(s: State, times: seq<int>)
    requires s.threshold == DEFAULT_FAILURE_THRESHOLD && |times| == 3 && IsExpired(s, times[0])
    requires times[2] != ZERO_TIME
    ensures !IsOpenAt(After(s, FailingRequests(times[..1])), times[1])
    ensures !IsOpenAt(After(s, FailingRequests(times[..2])), times[2])
    ensures IsOpenAt(After(s, FailingRequests(times)), times[2])
  {
    TrialsAfterExpiry(s, times);
  }

  // ---------- The open mark ----------

  /** A further report moves the open mark back exactly when its stamp is earlier than the streak's latest. */
  lemma MarkMovesBackIff(threshold: int, timeout: int, history: seq<Op>, now: int)
    requires threshold > 0 && timeout > 0
    requires After(Fresh(threshold, timeout), history).openedAt != ZERO_TIME
    ensures
      var s, streak := Fresh(threshold, timeout), Streak(threshold, timeout, history);
      && streak != []
      && (After(s, history + [Op.Failure(now)]).openedAt < After(s, history).openedAt <==> now < Last(streak))
  {
    HistoryDeterminesState(threshold, timeout, history);
    AfterOneMore(Fresh(threshold, timeout), history, Op.Failure(now));
  }

  lemma {:induction false} FailureTimesConcat(a: seq<Op>, b: seq<Op>)
    ensures FailureTimes(a + b) == FailureTimes(a) + FailureTimes(b)
  {
    if b == [] {
      assert a + b == a;
    } else {
      var init, last := b[..|b| - 1], b[|b| - 1];
      FailureTimesConcat(a, init);
      assert (a + b)[..|a + b| - 1] == a + init && (a + b)[|a + b| - 1] == last;
    }
  }

  /** A set mark is the stamp of the latest failure in the whole log. */
  lemma MarkIsLatestStamp(threshold: int, timeout: int, history: seq<Op>)
    requires threshold > 0 && timeout > 0
    requires After(Fresh(threshold, timeout), history).openedAt != ZERO_TIME
    ensures FailureTimes(history) != []
    ensures After(Fresh(threshold, timeout), history).openedAt == Last(FailureTimes(history))
  {
    var from := LastReset(threshold, timeout, history);
    HistoryDeterminesState(threshold, timeout, history);
    assert history == history[..from] + history[from..];
    FailureTimesConcat(history[..from], history[from..]);
  }

  ghost predicate InOrder(stamps: seq<int>) {
    forall i, j :: 0 <= i <= j < |stamps| ==> stamps[i] <= stamps[j]
  }

  lemma LaterPrefixEndsLater(stamps: seq<int>, shorter: seq<int>, longer: seq<int>)
    requires InOrder(stamps) && shorter != [] && shorter <= longer <= stamps
    ensures Last(shorter) <= Last(longer)
  {
  }

  lemma {:induction false} StampsGrow(history: seq<Op>, i: nat, j: nat)
    requires i <= j <= |history|
    ensures FailureTimes(history[..i]) <= FailureTimes(history[..j])
  {
    if i < j {
      StampsGrow(history, i, j - 1);
      assert history[..j][..j - 1] == history[..j - 1];
    }
  }

  /** While failures are reported in the order of their stamps, the open mark never moves back. */
  lemma OrderedReportsKeepMark(threshold: int, timeout: int, history: seq<Op>, i: nat, j: nat)
    requires threshold > 0 && timeout > 0 && InOrder(FailureTimes(history)) && i <= j <= |history|
    requires After(Fresh(threshold, timeout), history[..i]).openedAt != ZERO_TIME
    requires After(Fresh(threshold, timeout), history[..j]).openedAt != ZERO_TIME
    ensures After(Fresh(threshold, timeout), history[..i]).openedAt <=
            After(Fresh(threshold, timeout), history[..j]).openedAt
  {
    MarkIsLatestStamp(threshold, timeout, history[..i]);
    MarkIsLatestStamp(threshold, timeout, history[..j]);
    StampsGrow(history, i, j);
    StampsGrow(history, j, |history|);
    assert history[..|history|] == history;
    LaterPrefixEndsLater(FailureTimes(history), FailureTimes(history[..i]), FailureTimes(history[..j]));
  }

  function Reports(now: int, n: nat): seq<Op> {
    seq(n, i => Op.Failure(now))
  }

  lemma {:induction false} ReportsCount(s: State, now: int, n: nat)
    requires s.failures == 0 && s.openedAt == ZERO_TIME && s.threshold > 0
    ensures After(s, Reports(now, n)) ==
            s.(failures := n, openedAt := if n >= s.threshold then now else ZERO_TIME)
  {
    if n > 0 {
      ReportsCount(s, now, n - 1);
      assert Reports(now, n) == Reports(now, n - 1) + [Op.Failure(now)];
      AfterOneMore(s, Reports(now, n - 1), Op.Failure(now));
    }
  }

  lemma {:induction false} ClosedAdmitsAnyNumber(s: State, now: int, n: nat)
    requires s.openedAt == ZERO_TIME
    ensures After(s, Checks(now, n)) == s
  {
    if n > 0 {
      ClosedAdmitsAnyNumber(s, now, n - 1);
      ChecksOneMore(now, n - 1);
      AfterOneMore(s, Checks(now, n - 1), Op.Allow(now));
    }
  }

  /**
   * With overlapping requests it can: for every threshold, one call admitted early and reported last takes the
   * mark back to its own stamp.
   */
  lemma OverlapMovesOpenMarkBack(threshold: int, timeout: int, early: int, late: int)
    requires threshold > 0 && timeout > 0 && ZERO_TIME < early < late
    ensures
      var s := Fresh(threshold, timeout);
      var tripped := [Op.Allow(early)] + Checks(late, threshold) + Reports(late, threshold);
      && After(s, tripped).openedAt == late
      && After(s, tripped + [Op.Failure(early)]).openedAt == early
  {
    var s := Fresh(threshold, timeout);
    var checks := [Op.Allow(early)] + Checks(late, threshold);
    AfterOneMore(s, [], Op.Allow(early));
    AfterConcat(s, [Op.Allow(early)], Checks(late, threshold));
    ClosedAdmitsAnyNumber(s, late, threshold);
    AfterConcat(s, checks, Reports(late, threshold));
    ReportsCount(s, late, threshold);
    AfterOneMore(s, checks + Reports(late, threshold), Op.Failure(early));
  }

  // ---------- Calls to a dead upstream, however they overlap ----------

  /** The checks of a log that were admitted. */
  function Admissions(s: State, history: seq<Op>): nat {
    if history == [] then 0
    else
      var init, last := history[..|history| - 1], history[|history| - 1];
      Admissions(s, init) + if last.Allow? && !IsOpenAt(After(s, init), last.now) then 1 else 0
  }

  /** Calls admitted and not reported yet. */
  function Unreported(s: State, history: seq<Op>): int {
    Admissions(s, history) - |FailureTimes(history)|
  }

  /** Every report is of an admitted call, and at no moment are more than `c` calls unreported. */
  predicate Overlapping(s: State, history: seq<Op>, c: nat) {
    && 0 <= Unreported(s, history) <= c
    && (history != [] ==> Overlapping(s, history[..|history| - 1], c))
  }

  /** Every report is of a failure, with the stamp of a real moment. */
  predicate AllFail(history: seq<Op>) {
    forall i :: 0 <= i < |history| ==> !history[i].Success? && (history[i].Failure? ==> history[i].now != ZERO_TIME)
  }

  lemma {:induction false} OverlappingPrefix(s: State, history: seq<Op>, c: nat, n: nat)
    requires Overlapping(s, history, c) && n <= |history|
    ensures Overlapping(s, history[..n], c)
  {
    if n < |history| {
      var init := history[..|history| - 1];
      OverlappingPrefix(s, init, c, n);
      assert init[..n] == history[..n];
    } else {
      assert history[..n] == history;
    }
  }

  lemma {:induction false} StampsAreReal(history: seq<Op>)
    requires AllFail(history)
    ensures forall t :: t in FailureTimes(history) ==> t != ZERO_TIME
  {
    if history != [] {
      StampsAreReal(history[..|history| - 1]);
    }
  }

  /** Where the current period starts: with the check that closed the breaker last, or with the log. */
  function PeriodStart(threshold: int, timeout: int, history: seq<Op>): (start: nat)
    ensures start <= |history|
  {
    var from := LastReset(threshold, timeout, history);
    if from == 0 then 0 else from - 1
  }

  /** The calls admitted in the current period, the one that closed the breaker included. */
  function AdmittedInPeriod(threshold: int, timeout: int, history: seq<Op>): int {
    var s := Fresh(threshold, timeout);
    Admissions(s, history) - Admissions(s, history[..PeriodStart(threshold, timeout, history)])
  }

  lemma NoFailureMore(history: seq<Op>, op: Op)
    requires !op.Failure?
    ensures FailureTimes(history + [op]) == FailureTimes(history)
  {
    assert (history + [op])[..|history|] == history;
  }

  /** The reports of the period are its streak: the operation that closed the breaker is none. */
  lemma PeriodReports(threshold: int, timeout: int, history: seq<Op>)
    requires threshold > 0 && timeout > 0
    ensures
      var start := PeriodStart(threshold, timeout, history);
      |FailureTimes(history)| == |FailureTimes(history[..start])| + |Streak(threshold, timeout, history)|
  {
    var from, start := LastReset(threshold, timeout, history), PeriodStart(threshold, timeout, history);
    assert history == history[..from] + history[from..];
    FailureTimesConcat(history[..from], history[from..]);
    if from > 0 {
      AClearingComesBefore(threshold, timeout, history);
      assert history[..from] == history[..start] + [history[start]];
      NoFailureMore(history[..start], history[start]);
    }
  }

  /** As long as the streak is short of the threshold, only the overlap comes on top of it. */
  lemma ShortStreakBound(threshold: int, timeout: int, history: seq<Op>, c: nat)
    requires threshold > 0 && timeout > 0 && Overlapping(Fresh(threshold, timeout), history, c)
    ensures AdmittedInPeriod(threshold, timeout, history) <= c + |Streak(threshold, timeout, history)|
  {
    PeriodReports(threshold, timeout, history);
    OverlappingPrefix(Fresh(threshold, timeout), history, c, PeriodStart(threshold, timeout, history));
  }

  /** A check after which the streak is not empty has left it as it was. */
  lemma SameStreak(threshold: int, timeout: int, init: seq<Op>, last: Op)
    requires last.Allow? && Streak(threshold, timeout, init + [last]) != []
    ensures LastReset(threshold, timeout, init + [last]) == LastReset(threshold, timeout, init)
    ensures Streak(threshold, timeout, init + [last]) == Streak(threshold, timeout, init)
  {
    var history := init + [last];
    var from := LastReset(threshold, timeout, init);
    assert history[..|init|] == init;
    assert history[|history|..] == [];
    assert LastReset(threshold, timeout, history) == from;
    assert history[from..] == init[from..] + [last];
    FailureTimesConcat(init[from..], [last]);
    assert FailureTimes([last]) == [];
  }

  /** With real stamps, a streak that has reached the threshold denies every check until its timeout is over. */
  lemma TrippedDenies(threshold: int, timeout: int, history: seq<Op>, now: int)
    requires threshold > 0 && timeout > 0 && AllFail(history) && |Streak(threshold, timeout, history)| >= threshold
    ensures Last(Streak(threshold, timeout, history)) != ZERO_TIME
    ensures IsOpenAt(After(Fresh(threshold, timeout), history), now) <==>
            now - Last(Streak(threshold, timeout, history)) < timeout
  {
    var from := LastReset(threshold, timeout, history);
    StampsAreReal(history[from..]);
    assert Last(Streak(threshold, timeout, history)) in FailureTimes(history[from..]);
    DeniedIff(threshold, timeout, history, now);
  }

  /**
   * However calls to a dead upstream overlap, with at most `c` of them unreported at any moment, the calls admitted
   * from one reset up to the next number at most `threshold + c - 1`. One at a time this is the threshold.
   */
  lemma {:induction false} PeriodBound(threshold: int, timeout: int, history: seq<Op>, c: nat)
    requires threshold > 0 && timeout > 0 && c >= 1
    requires AllFail(history) && Overlapping(Fresh(threshold, timeout), history, c)
    ensures AdmittedInPeriod(threshold, timeout, history) <= threshold + c - 1
  {
    if |Streak(threshold, timeout, history)| < threshold {
      ShortStreakBound(threshold, timeout, history, c);
    } else {
      var init, last := history[..|history| - 1], history[|history| - 1];
      var from := LastReset(threshold, timeout, init);
      PeriodBound(threshold, timeout, init, c);
      assert from == LastReset(threshold, timeout, history);
      assert init[..PeriodStart(threshold, timeout, init)] == history[..PeriodStart(threshold, timeout, history)];
      if last.Allow? {
        assert history == init + [last];
        SameStreak(threshold, timeout, init, last);
        TrippedDenies(threshold, timeout, init, last.now);
      }
    }
  }

  // ---------- Runs that reach the bound, and break the sequential one ----------

  /** One more operation keeps the overlap if the calls unreported after it are few enough, and counts if admitted. */
  lemma OverlapOneMore(s: State, history: seq<Op>, op: Op, c: nat)
    requires Overlapping(s, history, c)
    ensures Admissions(s, history + [op]) ==
            Admissions(s, history) + if op.Allow? && !IsOpenAt(After(s, history), op.now) then 1 else 0
    ensures |FailureTimes(history + [op])| == |FailureTimes(history)| + if op.Failure? then 1 else 0
    ensures 0 <= Unreported(s, history + [op]) <= c ==> Overlapping(s, history + [op], c)
  {
    assert (history + [op])[..|history|] == history;
  }

  lemma {:induction false} MoreChecks(s: State, history: seq<Op>, now: int, n: nat, c: nat)
    requires Overlapping(s, history, c) && After(s, history).openedAt == ZERO_TIME
    requires Unreported(s, history) + n <= c
    ensures Overlapping(s, history + Checks(now, n), c) && After(s, history + Checks(now, n)) == After(s, history)
    ensures Admissions(s, history + Checks(now, n)) == Admissions(s, history) + n
    ensures |FailureTimes(history + Checks(now, n))| == |FailureTimes(history)|
  {
    if n == 0 {
      assert history + Checks(now, 0) == history;
    } else {
      MoreChecks(s, history, now, n - 1, c);
      ChecksOneMore(now, n - 1);
      var earlier := history + Checks(now, n - 1);
      assert history + Checks(now, n) == earlier + [Op.Allow(now)];
      AfterOneMore(s, earlier, Op.Allow(now));
      OverlapOneMore(s, earlier, Op.Allow(now), c);
    }
  }

  lemma {:induction false} MoreReports(s: State, history: seq<Op>, now: int, n: nat, c: nat)
    requires Overlapping(s, history, c) && n <= Unreported(s, history)
    ensures Overlapping(s, history + Reports(now, n), c)
    ensures Admissions(s, history + Reports(now, n)) == Admissions(s, history)
    ensures |FailureTimes(history + Reports(now, n))| == |FailureTimes(history)| + n
  {
    if n == 0 {
      assert history + Reports(now, 0) == history;
    } else {
      MoreReports(s, history, now, n - 1, c);
      var earlier := history + Reports(now, n - 1);
      assert history + Reports(now, n) == earlier + [Op.Failure(now)];
      OverlapOneMore(s, earlier, Op.Failure(now), c);
    }
  }

  function Times(now: int, n: nat): seq<int> {
    seq(n, i => now)
  }

  /** A request that is admitted and reported at once. */
  lemma OneFailingRequest(s: State, history: seq<Op>, now: int, c: nat)
    requires Overlapping(s, history, c) && Unreported(s, history) == 0 && c >= 1
    requires After(s, history).openedAt == ZERO_TIME
    ensures
      var longer := history + [Op.Allow(now), Op.Failure(now)];
      && Overlapping(s, longer, c) && After(s, longer) == AfterFailure(After(s, history), now)
      && Admissions(s, longer) == |FailureTimes(longer)| == |FailureTimes(history)| + 1
  {
    var checked := history + [Op.Allow(now)];
    assert history + [Op.Allow(now), Op.Failure(now)] == checked + [Op.Failure(now)];
    AfterOneMore(s, history, Op.Allow(now));
    AfterOneMore(s, checked, Op.Failure(now));
    OverlapOneMore(s, history, Op.Allow(now), c);
    OverlapOneMore(s, checked, Op.Failure(now), c);
  }

  lemma TimesOneMore(now: int, n: nat)
    requires n > 0
    ensures FailingRequests(Times(now, n)) == FailingRequests(Times(now, n - 1)) + [Op.Allow(now), Op.Failure(now)]
  {
    assert Times(now, n)[..n - 1] == Times(now, n - 1);
  }

  /** Fewer failing requests than the threshold leave the breaker closed. */
  lemma {:induction false} FewFailingRequests(s: State, now: int, n: nat, c: nat)
    requires s.openedAt == ZERO_TIME && s.failures == 0 && n < s.threshold && c >= 1
    ensures
      var history := FailingRequests(Times(now, n));
      && Overlapping(s, history, c) && After(s, history) == s.(failures := n)
      && Admissions(s, history) == |FailureTimes(history)| == n
  {
    if n > 0 {
      FewFailingRequests(s, now, n - 1, c);
      TimesOneMore(now, n);
      OneFailingRequest(s, FailingRequests(Times(now, n - 1)), now, c);
    }
  }

  /** A log without successes and with fewer failures than the threshold has seen no reset. */
  lemma {:induction false} NoResetYet(threshold: int, timeout: int, history: seq<Op>)
    requires AllFail(history) && |FailureTimes(history)| < threshold
    ensures LastReset(threshold, timeout, history) == 0
  {
    if history != [] {
      var init := history[..|history| - 1];
      assert history == init + [history[|init|]];
      FailureTimesConcat(init, [history[|init|]]);
      NoResetYet(threshold, timeout, init);
      assert history[0..|init|] == init;
    }
  }

  /** One request short of the threshold fails, and then `c` more are admitted before any of them reports. */
  function OverlapAtThreshold(threshold: int, now: int, c: nat): seq<Op>
    requires threshold > 0
  {
    FailingRequests(Times(now, threshold - 1)) + Checks(now, c)
  }

  lemma {:induction false} AllAtOnce(now: int, n: nat)
    ensures forall op :: op in FailingRequests(Times(now, n)) ==> !op.Success? && op.now == now
  {
    if n > 0 {
      AllAtOnce(now, n - 1);
      TimesOneMore(now, n);
    }
  }

  /** The bound on a period is reached, for every threshold and every degree of overlap. */
  lemma OverlapReachesPeriodBound(threshold: int, timeout: int, now: int, c: nat)
    requires threshold > 0 && timeout > 0 && c >= 1 && now != ZERO_TIME
    ensures
      var s, history := Fresh(threshold, timeout), OverlapAtThreshold(threshold, now, c);
      && AllFail(history) && Overlapping(s, history, c)
      && Admissions(s, history) == AdmittedInPeriod(threshold, timeout, history) == threshold + c - 1
      && Unreported(s, history) == c
  {
    var s := Fresh(threshold, timeout);
    var history := OverlapAtThreshold(threshold, now, c);
    FewFailingRequests(s, now, threshold - 1, c);
    AllAtOnce(now, threshold - 1);
    MoreChecks(s, FailingRequests(Times(now, threshold - 1)), now, c, c);
    NoResetYet(threshold, timeout, history);
    assert history[..0] == [];
  }

  lemma AllReported(threshold: int, timeout: int, now: int, c: nat)
    requires threshold > 0 && timeout > 0 && c >= 1 && now != ZERO_TIME
    ensures
      var s, history := Fresh(threshold, timeout), OverlapAtThreshold(threshold, now, c) + Reports(now, c);
      && Overlapping(s, history, c) && Unreported(s, history) == 0
      && Admissions(s, history) == threshold + c - 1
  {
    OverlapReachesPeriodBound(threshold, timeout, now, c);
    MoreReports(Fresh(threshold, timeout), OverlapAtThreshold(threshold, now, c), now, c, c);
  }

  lemma OneInstant(threshold: int, now: int, c: nat)
    requires threshold > 0 && now != ZERO_TIME
    ensures
      var history := OverlapAtThreshold(threshold, now, c) + Reports(now, c);
      AllFail(history) && forall i :: 0 <= i < |history| && !history[i].Success? ==> history[i].now == now
  {
    AllAtOnce(now, threshold - 1);
    var history := OverlapAtThreshold(threshold, now, c) + Reports(now, c);
    forall op | op in history
      ensures !op.Success? && op.now == now
    {
      assert op in FailingRequests(Times(now, threshold - 1)) || op in Checks(now, c) || op in Reports(now, c);
    }
    assert forall i :: 0 <= i < |history| ==> history[i] in history;
  }

  lemma BoundAtOneInstant(s: State, calls: nat)
    requires s.timeout > 0
    ensures WithinDeadBound(s, calls, 0) <==> calls <= s.threshold
  {
    assert 0 / s.timeout == 0;
  }

  /**
   * The bound for requests one at a time is broken as soon as two overlap: all these calls are admitted at one
   * instant and all of them fail, yet they number more than a period's worth exactly when `c` is more than one.
   */
  lemma OverlapBreaksDeadBound(threshold: int, timeout: int, now: int, c: nat)
    requires threshold > 0 && timeout > 0 && c >= 1 && now != ZERO_TIME
    ensures
      var s, history := Fresh(threshold, timeout), OverlapAtThreshold(threshold, now, c) + Reports(now, c);
      && AllFail(history) && Overlapping(s, history, c) && Unreported(s, history) == 0
      && (forall i :: 0 <= i < |history| && !history[i].Success? ==> history[i].now == now)
      && (WithinDeadBound(s, Admissions(s, history), 0) <==> c == 1)
  {
    AllReported(threshold, timeout, now, c);
    OneInstant(threshold, now, c);
    BoundAtOneInstant(Fresh(threshold, timeout), threshold + c - 1);
  }
}
