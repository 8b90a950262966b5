/** The consecutive-failure circuit breaker that guards one upstream route. */
module Breaker {

  /** Clock readings are nanoseconds; zero stands for the zero instant that `IsZero` recognises. */
  const ZERO_TIME := 0
  const SECOND := 1_000_000_000
  const DEFAULT_FAILURE_THRESHOLD := 3
  const DEFAULT_OPEN_TIMEOUT := 30 * SECOND

  /** The value of a breaker's fields at one moment. */
  datatype State = State(threshold: int, timeout: int, failures: int, openedAt: int)

  function Fresh(threshold: int, timeout: int): State {
    State(if threshold <= 0 then DEFAULT_FAILURE_THRESHOLD else threshold,
          if timeout <= 0 then DEFAULT_OPEN_TIMEOUT else timeout,
          0, ZERO_TIME)
  }

  predicate IsOpenAt(s: State, now: int) {
    s.openedAt != ZERO_TIME && now - s.openedAt < s.timeout
  }

  /** An admission check that finds the open period over closes the breaker completely. */
  function AfterAllow(s: State, now: int): State {
    if s.openedAt == ZERO_TIME || IsOpenAt(s, now) then s
    else s.(failures := 0, openedAt := ZERO_TIME)
  }

  function AfterSuccess(s: State): State {
    s.(failures := 0, openedAt := ZERO_TIME)
  }

  function AfterFailure(s: State, now: int): State {
    s.(failures := s.failures + 1,
       openedAt := if s.failures + 1 >= s.threshold then now else s.openedAt)
  }

  class CircuitBreaker {
    const failureThreshold: int
    const openTimeout: int
    var consecutiveFailures: int
    var openedAt: int

    ghost function Snapshot(): State
      reads this
    {
      State(failureThreshold, openTimeout, consecutiveFailures, openedAt)
    }

    constructor (failureThreshold: int, openTimeout: int)
      ensures Snapshot() == Fresh(failureThreshold, openTimeout)
      ensures this.failureThreshold == if failureThreshold > 0 then failureThreshold else 3
      ensures this.openTimeout == if openTimeout > 0 then openTimeout else 30_000_000_000
      ensures consecutiveFailures == openedAt == 0
    {
      this.failureThreshold := if failureThreshold <= 0 then DEFAULT_FAILURE_THRESHOLD else failureThreshold;
      this.openTimeout := if openTimeout <= 0 then DEFAULT_OPEN_TIMEOUT else openTimeout;
      consecutiveFailures, this.openedAt := 0, ZERO_TIME;
    }

    method Allow(now: int) returns (ok: bool)
      modifies this
      ensures ok <==> !IsOpenAt(old(Snapshot()), now)
      ensures Snapshot() == AfterAllow(old(Snapshot()), now)
    {
      if openedAt == ZERO_TIME {
        return true;
      }
      if now - openedAt >= openTimeout {
        openedAt := ZERO_TIME;
        consecutiveFailures := 0;
        return true;
      }
      return false;
    }

    method RecordSuccess()
      modifies this
      ensures Snapshot() == AfterSuccess(old(Snapshot()))
    {
      consecutiveFailures := 0;
      openedAt := ZERO_TIME;
    }

    method RecordFailure(now: int)
      modifies this
      ensures Snapshot() == AfterFailure(old(Snapshot()), now)
    {
      consecutiveFailures := consecutiveFailures + 1;
      if consecutiveFailures >= failureThreshold {
        openedAt := now;
      }
    }

    method IsOpen(now: int) returns (open: bool)
      ensures open == IsOpenAt(Snapshot(), now)
    {
      if openedAt == ZERO_TIME {
        return false;
      }
      return now - openedAt < openTimeout;
    }
  }

  // ---------- Histories ----------

  /** One atomic operation, as the breaker's mutex serialises them. */
  datatype Op = Allow(now: int) | Success | Failure(now: int)

  function Apply(s: State, op: Op): State {
    match op
    case Allow(now) => AfterAllow(s, now)
    case Success => AfterSuccess(s)
    case Failure(now) => AfterFailure(s, now)
  }

  /** The state after a history, oldest operation first. */
  function After(s: State, history: seq<Op>): State {
    if history == [] then s
    else Apply(After(s, history[..|history| - 1]), history[|history| - 1])
  }

  /** The timestamps of the failures in a history. */
  function FailureTimes(history: seq<Op>): seq<int> {
    if history == [] then []
    else
      var last := history[|history| - 1];
      FailureTimes(history[..|history| - 1]) + if last.Failure? then [last.now] else []
  }

  /** Reading only the log: a tripped streak is one of at least `threshold` failures, the last of them stamped. */
  predicate Tripped(threshold: int, streak: seq<int>) {
    |streak| > 0 && |streak| >= threshold && streak[|streak| - 1] != ZERO_TIME
  }

  /** Reading only the log: does operation `i` clear the failures recorded since position `from`? */
  predicate Clears(threshold: int, timeout: int, history: seq<Op>, from: nat, i: nat)
    requires from <= i < |history|
  {
    var streak := FailureTimes(history[from..i]);
    || history[i].Success?
    || (history[i].Allow? && Tripped(threshold, streak) && history[i].now - streak[|streak| - 1] >= timeout)
  }

  /** The position just after the last success or expired admission check in the log. */
  function LastReset(threshold: int, timeout: int, history: seq<Op>): (from: nat)
    ensures from <= |history|
  {
    if history == [] then 0
    else
      var last := |history| - 1;
      var from := LastReset(threshold, timeout, history[..last]);
      if Clears(threshold, timeout, history, from, last) then |history| else from
  }

  /** The failures since the last reset, by timestamp. */
  function Streak(threshold: int, timeout: int, history: seq<Op>): seq<int> {
    FailureTimes(history[LastReset(threshold, timeout, history)..])
  }

  /**
   * Whatever order the callers' operations interleave in, the breaker's fields are a function of the log: the
   * count is the length of the current streak, and the open mark is the stamp of its latest failure once the
   * streak reaches the threshold.
   */
  lemma {:induction false} HistoryDeterminesState(threshold: int, timeout: int, history: seq<Op>)
    requires threshold > 0 && timeout > 0
    ensures
      var streak := Streak(threshold, timeout, history);
      After(Fresh(threshold, timeout), history) ==
      State(threshold, timeout, |streak|, if |streak| >= threshold then streak[|streak| - 1] else ZERO_TIME)
  {
    if history != [] {
      var last := |history| - 1;
      var from := LastReset(threshold, timeout, history[..last]);
      HistoryDeterminesState(threshold, timeout, history[..last]);
      assert history[..last][from..] == history[from..last];
      if Clears(threshold, timeout, history, from, last) {
        assert history[|history|..] == [];
      } else {
        assert history[from..][..last - from] == history[from..last];
      }
    }
  }

  lemma {:induction false} NothingClearsAfter(threshold: int, timeout: int, history: seq<Op>, i: nat)
    requires LastReset(threshold, timeout, history) <= i < |history|
    ensures !Clears(threshold, timeout, history, LastReset(threshold, timeout, history), i)
  {
    var last := |history| - 1;
    var prefix, from := history[..last], LastReset(threshold, timeout, history);
    if i < last {
      NothingClearsAfter(threshold, timeout, prefix, i);
      assert prefix[from..i] == history[from..i];
    }
  }

  lemma {:induction false} AClearingComesBefore(threshold: int, timeout: int, history: seq<Op>)
    requires LastReset(threshold, timeout, history) > 0
    ensures
      var from := LastReset(threshold, timeout, history);
      Clears(threshold, timeout, history, LastReset(threshold, timeout, history[..from - 1]), from - 1)
  {
    var last := |history| - 1;
    var prefix, from := history[..last], LastReset(threshold, timeout, history);
    if from <= last {
      AClearingComesBefore(threshold, timeout, prefix);
      var earlier := LastReset(threshold, timeout, prefix[..from - 1]);
      assert prefix[..from - 1] == history[..from - 1];
      assert prefix[earlier..from - 1] == history[earlier..from - 1];
    }
  }

  /** The reset position is indeed the latest: a clearing operation precedes it and none follows it. */
  lemma LastResetIsLatest(threshold: int, timeout: int, history: seq<Op>)
    ensures
      var from := LastReset(threshold, timeout, history);
      && (forall i :: from <= i < |history| ==> !Clears(threshold, timeout, history, from, i))
      && (from > 0 ==>
            var earlier := LastReset(threshold, timeout, history[..from - 1]);
            Clears(threshold, timeout, history, earlier, from - 1))
  {
    var from := LastReset(threshold, timeout, history);
    forall i | from <= i < |history|
      ensures !Clears(threshold, timeout, history, from, i)
    {
      NothingClearsAfter(threshold, timeout, history, i);
    }
    if from > 0 {
      AClearingComesBefore(threshold, timeout, history);
    }
  }

  // ---------- Requests one at a time, against an upstream that always trips ----------

  /** A breaker between two requests: below the threshold it is closed, at the threshold it is open. */
  predicate Settled(s: State) {
    && s.threshold > 0 && s.timeout > 0
    && 0 <= s.failures <= s.threshold
    && (s.openedAt != ZERO_TIME <==> s.failures == s.threshold)
  }

  /** An admitted call that fails and is reported with the stamp of its own admission check. */
  function AfterTrippingCall(s: State, now: int): State {
    AfterFailure(AfterAllow(s, now), now)
  }

  /**
   * After `m` completed open periods: the calls made so far fill at most `m` batches of `threshold` plus the
   * current streak, and the last of them came at least `m` timeouts after the first.
   */
  ghost predicate InBatch(s: State, calls: seq<int>, m: nat) {
    && Settled(s)
    && |calls| <= s.threshold * m + s.failures
    && (calls == [] ==> m == 0)
    && (calls != [] ==>
          && calls[0] + m * s.timeout <= calls[|calls| - 1]
          && (s.openedAt != ZERO_TIME ==> s.openedAt == calls[|calls| - 1]))
  }

  /** A further tripping call keeps the batch structure, opening a new batch exactly when the breaker was open. */
  lemma TrippingCallKeepsBatch(s: State, calls: seq<int>, m: nat, now: int) returns (m': nat)
    requires InBatch(s, calls, m)
    requires now != ZERO_TIME && !IsOpenAt(s, now)
    requires calls != [] ==> calls[|calls| - 1] <= now
    ensures InBatch(AfterTrippingCall(s, now), calls + [now], m')
  {
    if calls != [] && s.openedAt != ZERO_TIME {
      m' := m + 1;
      assert m' * s.timeout == m * s.timeout + s.timeout;
      assert s.threshold * m' == s.threshold * m + s.threshold;
    } else {
      m' := m;
    }
  }

  /** At most `threshold` calls per open period, counting the period in which the first call fell. */
  predicate WithinDeadBound(s: State, calls: nat, elapsed: int)
    requires s.timeout > 0
  {
    calls <= s.threshold * (elapsed / s.timeout + 1)
  }

  lemma MulMonotone(a: int, b: int, c: int)
    requires a >= 0 && b <= c
    ensures a * b <= a * c
  {
  }

  lemma QuotientAtLeast(a: int, b: int, m: int)
    requires b > 0 && m * b <= a
    ensures m <= a / b
  {
    var q := a / b;
    assert b * (q + 1) == b * q + b && a < b * q + b;
    if q < m {
      MulMonotone(b, q + 1, m);
    }
  }

  lemma BatchBound(s: State, calls: seq<int>, m: nat)
    requires InBatch(s, calls, m) && calls != []
    ensures WithinDeadBound(s, |calls|, calls[|calls| - 1] - calls[0])
  {
    var elapsed := calls[|calls| - 1] - calls[0];
    QuotientAtLeast(elapsed, s.timeout, m);
    MulMonotone(s.threshold, m + 1, elapsed / s.timeout + 1);
    assert s.threshold * (m + 1) == s.threshold * m + s.threshold;
  }

  // ---------- Runs against a dead upstream ----------

  /** What one request does to a dead route: nothing, or one admitted call that is reported as a failure. */
  predicate DeadStep(before: State, calls: seq<int>, after: State) {
    if calls == [] then after == before
    else |calls| == 1 && !IsOpenAt(before, calls[0]) && after == AfterTrippingCall(before, calls[0])
  }

  /** A breaker's states around successive requests, and the calls each request made; time never runs backwards. */
  ghost predicate IsDeadRun(states: seq<State>, calls: seq<seq<int>>) {
    && |states| == |calls| + 1
    && (forall i :: 0 <= i < |calls| ==> DeadStep(states[i], calls[i], states[i + 1]))
    && (forall i, now :: 0 <= i < |calls| && now in calls[i] ==> now != ZERO_TIME)
    && (forall i, j, was, now :: 0 <= i < j < |calls| && was in calls[i] && now in calls[j] ==> was <= now)
  }

  function Flatten(calls: seq<seq<int>>): seq<int> {
    if calls == [] then [] else Flatten(calls[..|calls| - 1]) + calls[|calls| - 1]
  }

  lemma {:induction false} FlattenMember(calls: seq<seq<int>>, now: int)
    requires now in Flatten(calls)
    ensures exists i :: 0 <= i < |calls| && now in calls[i]
  {
    var last := |calls| - 1;
    if now in Flatten(calls[..last]) {
      FlattenMember(calls[..last], now);
    } else {
      assert now in calls[last];
    }
  }

  lemma DeadStepKeepsBatch(before: State, earlier: seq<int>, calls: seq<int>, after: State, m: nat) returns (m': nat)
    requires InBatch(before, earlier, m) && DeadStep(before, calls, after)
    requires forall now :: now in calls ==> now != ZERO_TIME
    requires earlier != [] ==> forall now :: now in calls ==> earlier[|earlier| - 1] <= now
    ensures InBatch(after, earlier + calls, m')
    ensures after.threshold == before.threshold && after.timeout == before.timeout
  {
    if calls == [] {
      m' := m;
      assert earlier + calls == earlier;
    } else {
      assert calls == [calls[0]] && calls[0] in calls;
      m' := TrippingCallKeepsBatch(before, earlier, m, calls[0]);
    }
  }

  /** The inductive core: the calls so far form batches of at most `threshold`, one per open period. */
  lemma {:induction false} DeadRunBatches(states: seq<State>, calls: seq<seq<int>>) returns (m: nat)
    requires IsDeadRun(states, calls) && Settled(states[0])
    ensures InBatch(states[|calls|], Flatten(calls), m)
    ensures states[|calls|].threshold == states[0].threshold && states[|calls|].timeout == states[0].timeout
  {
    m := 0;
    if calls != [] {
      var last := |calls| - 1;
      var earlier := Flatten(calls[..last]);
      m := DeadRunBatches(states[..|calls|], calls[..last]);
      if earlier != [] {
        FlattenMember(calls[..last], earlier[|earlier| - 1]);
      }
      m := DeadStepKeepsBatch(states[last], earlier, calls[last], states[|calls|], m);
    }
  }

  lemma LongerElapsed(s: State, calls: nat, elapsed: int, longer: int)
    requires s.threshold > 0 && s.timeout > 0 && elapsed <= longer
    requires WithinDeadBound(s, calls, elapsed)
    ensures WithinDeadBound(s, calls, longer)
  {
    var q := elapsed / s.timeout;
    assert q * s.timeout <= elapsed;
    QuotientAtLeast(longer, s.timeout, q);
    MulMonotone(s.threshold, q + 1, longer / s.timeout + 1);
  }

  lemma BatchBoundUpTo(first: State, s: State, calls: seq<int>, m: nat, t: int)
    requires InBatch(s, calls, m) && calls != [] && calls[|calls| - 1] <= t
    requires first.threshold == s.threshold && first.timeout == s.timeout
    ensures WithinDeadBound(first, |calls|, t - calls[0])
  {
    BatchBound(s, calls, m);
    LongerElapsed(first, |calls|, calls[|calls| - 1] - calls[0], t - calls[0]);
  }

  /** By any time `t` at most `threshold * (floor((t - first) / timeout) + 1)` calls have reached the dead upstream. */
  lemma {:induction false} DeadRunBound(states: seq<State>, calls: seq<seq<int>>, n: nat, t: int)
    requires IsDeadRun(states, calls) && Settled(states[0])
    requires 0 < n <= |Flatten(calls)| && Flatten(calls)[n - 1] <= t
    ensures WithinDeadBound(states[0], n, t - Flatten(calls)[0])
  {
    var last := |calls| - 1;
    var all, fewer := Flatten(calls), Flatten(calls[..last]);
    if n <= |fewer| {
      DeadRunBound(states[..|calls|], calls[..last], n, t);
    } else {
      assert DeadStep(states[last], calls[last], states[last + 1]);
      var m := DeadRunBatches(states, calls);
      assert |all| == n;
      BatchBoundUpTo(states[0], states[|calls|], all, m, t);
    }
  }
}
