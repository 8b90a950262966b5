/** The lazily refilled token bucket, characterised by its own call history. */
module TokenBucket {

  /** One call to the bucket: when it came, and whether it was admitted. */
  datatype Call = Call(at: int, ok: bool)

  /** Nanoseconds as seconds. */
  function Seconds(duration: int): real {
    duration as real / 1000000000.0
  }

  /** A bucket's rate, size and moment of creation. */
  datatype Limit = Limit(qps: real, burst: real, created: int)

  /** What the rate earns between two moments. */
  function Earned(qps: real, from: int, to: int): real {
    Seconds(to - from) * qps
  }

  /** The admitted calls from position `from` on. */
  function Admitted(log: seq<Call>, from: nat): nat
    requires from <= |log|
    decreases |log| - from
  {
    if from == |log| then 0
    else (if log[from].ok then 1 else 0) + Admitted(log, from + 1)
  }

  /** The tokens that a full bucket would have left at `now`, had it been full at the moment of call `k`. */
  function Allowance(limit: Limit, log: seq<Call>, k: nat, now: int): real
    requires k < |log|
  {
    limit.burst + Earned(limit.qps, log[k].at, now) - Admitted(log, k) as real
  }

  /** The same, counted from the creation of the bucket. */
  function InitialAllowance(limit: Limit, log: seq<Call>, now: int): real {
    limit.burst + Earned(limit.qps, limit.created, now) - Admitted(log, 0) as real
  }

  /**
   * A further call at `now` conforms to the limit: counting it, the calls admitted since any earlier call, since
   * the creation of the bucket, and at `now` itself stay within `burst + qps * elapsed`.
   */
  ghost predicate Conforms(limit: Limit, log: seq<Call>, now: int) {
    && limit.burst >= 1.0
    && InitialAllowance(limit, log, now) >= 1.0
    && forall k :: 0 <= k < |log| ==> Allowance(limit, log, k, now) >= 1.0
  }

  /** Every call was admitted exactly when it conformed to the limit. */
  ghost predicate Exact(limit: Limit, log: seq<Call>) {
    forall n :: 0 <= n < |log| ==> (log[n].ok <==> Conforms(limit, log[..n], log[n].at))
  }

  /** The tokens are the least of all allowances, the full bucket included. */
  ghost predicate IsLeast(limit: Limit, log: seq<Call>, now: int, tokens: real) {
    && tokens <= InitialAllowance(limit, log, now)
    && (forall k :: 0 <= k < |log| ==> tokens <= Allowance(limit, log, k, now))
    && (|| tokens == InitialAllowance(limit, log, now)
        || exists k :: 0 <= k < |log| && tokens == Allowance(limit, log, k, now))
  }

  lemma {:induction false} AdmittedOneMore(log: seq<Call>, call: Call, from: nat)
    requires from <= |log|
    ensures Admitted(log + [call], from) == Admitted(log, from) + if call.ok then 1 else 0
    decreases |log| - from
  {
    if from < |log| {
      AdmittedOneMore(log, call, from + 1);
    }
  }

  lemma EarnedAdds(qps: real, a: int, b: int, c: int)
    ensures Earned(qps, a, c) == Earned(qps, a, b) + Earned(qps, b, c)
  {
    assert Seconds(c - a) == Seconds(b - a) + Seconds(c - b);
  }

  lemma EarnedNothing(qps: real, a: int)
    ensures Earned(qps, a, a) == 0.0
  {
  }

  /** Time passing adds the same number of tokens to every allowance. */
  lemma LeastAfterTime(limit: Limit, log: seq<Call>, last: int, now: int, tokens: real, refilled: real)
    requires IsLeast(limit, log, last, tokens)
    requires refilled == tokens + Earned(limit.qps, last, now)
    ensures IsLeast(limit, log, now, refilled)
  {
    var earned := refilled - tokens;
    EarnedAdds(limit.qps, limit.created, last, now);
    assert InitialAllowance(limit, log, now) == InitialAllowance(limit, log, last) + earned;
    forall k | 0 <= k < |log|
      ensures Allowance(limit, log, k, now) == Allowance(limit, log, k, last) + earned
    {
      EarnedAdds(limit.qps, log[k].at, last, now);
    }
  }

  /** An admitted call lowers every allowance by one; the full bucket of this moment joins them. */
  lemma AllowancesAfterCall(limit: Limit, log: seq<Call>, call: Call)
    ensures
      var longer, spent := log + [call], if call.ok then 1.0 else 0.0;
      && InitialAllowance(limit, longer, call.at) == InitialAllowance(limit, log, call.at) - spent
      && Allowance(limit, longer, |log|, call.at) == limit.burst - spent
      && forall k :: 0 <= k < |log| ==>
           Allowance(limit, longer, k, call.at) == Allowance(limit, log, k, call.at) - spent
  {
    var longer := log + [call];
    AdmittedOneMore(log, call, 0);
    forall k | 0 <= k < |log|
      ensures Admitted(longer, k) == Admitted(log, k) + if call.ok then 1 else 0
    {
      AdmittedOneMore(log, call, k);
    }
    AdmittedOneMore(log, call, |log|);
    EarnedNothing(limit.qps, call.at);
  }

  /** With the tokens capped at the burst, the least allowance decides admission and survives the call. */
  lemma LeastAfterCall(limit: Limit, log: seq<Call>, now: int, refilled: real, tokens: real, ok: bool)
    requires IsLeast(limit, log, now, refilled)
    requires tokens == if refilled > limit.burst then limit.burst else refilled
    requires ok <==> tokens >= 1.0
    ensures ok <==> Conforms(limit, log, now)
    ensures IsLeast(limit, log + [Call(now, ok)], now, if ok then tokens - 1.0 else tokens)
  {
    var call, spent := Call(now, ok), if ok then 1.0 else 0.0;
    var longer, left := log + [call], tokens - spent;
    AllowancesAfterCall(limit, log, call);
    if refilled <= limit.burst && refilled != InitialAllowance(limit, log, now) {
      var k :| 0 <= k < |log| && refilled == Allowance(limit, log, k, now);
      assert left == Allowance(limit, longer, k, now);
    } else if refilled > limit.burst {
      assert left == Allowance(limit, longer, |log|, now);
    }
  }

  lemma ExactOneMore(limit: Limit, log: seq<Call>, call: Call)
    requires Exact(limit, log) && (call.ok <==> Conforms(limit, log, call.at))
    ensures Exact(limit, log + [call])
  {
    var longer := log + [call];
    forall n | 0 <= n < |longer|
      ensures longer[n].ok <==> Conforms(limit, longer[..n], longer[n].at)
    {
      assert longer[..n] == log[..n];
      assert log[..|log|] == log;
    }
  }

  class RateLimiter {
    var tokens: real
    const maxTokens: real
    const refillRate: real
    var lastRefill: int

    ghost const created: int
    ghost var log: seq<Call>

    ghost function TheLimit(): Limit {
      Limit(refillRate, maxTokens, created)
    }

    ghost predicate Valid()
      reads this
    {
      IsLeast(TheLimit(), log, lastRefill, tokens) && Exact(TheLimit(), log)
    }

    constructor (qps: int, burst: int, now: int)
      ensures Valid() && log == []
      ensures TheLimit() == Limit(qps as real, burst as real, now) && tokens == burst as real
    {
      tokens, maxTokens, refillRate := burst as real, burst as real, qps as real;
      lastRefill := now;
      created, log := now, [];
    }

    /** Admits the call exactly when it conforms to the limit, given all calls before it. */
    method Allow(now: int) returns (ok: bool)
      requires Valid()
      modifies this
      ensures Valid() && log == old(log) + [Call(now, ok)]
      ensures ok <==> Conforms(TheLimit(), old(log), now)
    {
      ghost var limit, calls, before, last := TheLimit(), log, tokens, lastRefill;

      var elapsed := Seconds(now - lastRefill);
      tokens := tokens + elapsed * refillRate;
      ghost var refilled := tokens;
      LeastAfterTime(limit, calls, last, now, before, refilled);
      if tokens > maxTokens {
        tokens := maxTokens;
      }
      lastRefill := now;

      LeastAfterCall(limit, calls, now, refilled, tokens, tokens >= 1.0);
      if tokens >= 1.0 {
        tokens := tokens - 1.0;
        ok := true;
      } else {
        ok := false;
      }
      ExactOneMore(limit, calls, Call(now, ok));
      log := log + [Call(now, ok)];
    }
  }

  // ---------- What exactness means for a whole run ----------

  ghost predicate ClockForward(log: seq<Call>) {
    forall i, j :: 0 <= i <= j < |log| ==> log[i].at <= log[j].at
  }

  /** The calls admitted among positions `i` up to, but not including, `j`. */
  function AdmittedBetween(log: seq<Call>, i: nat, j: nat): nat
    requires i <= j <= |log|
  {
    Admitted(log[..j], i)
  }

  lemma AdmittedBetweenOneMore(log: seq<Call>, i: nat, j: nat)
    requires i <= j < |log|
    ensures AdmittedBetween(log, i, j + 1) == AdmittedBetween(log, i, j) + if log[j].ok then 1 else 0
  {
    assert log[..j + 1] == log[..j] + [log[j]];
    AdmittedOneMore(log[..j], log[j], i);
  }

  lemma MulMonotone(a: real, b: real, c: real)
    requires a >= 0.0 && b <= c
    ensures b * a <= c * a
  {
    assert (c - b) * a >= 0.0;
    assert c * a == b * a + (c - b) * a;
  }

  lemma EarnedGrows(qps: real, from: int, a: int, b: int)
    requires qps >= 0.0 && from <= a <= b
    ensures 0.0 <= Earned(qps, from, a) <= Earned(qps, from, b)
  {
    MulMonotone(qps, Seconds(a - from), Seconds(b - from));
    MulMonotone(qps, 0.0, Seconds(a - from));
  }

  /** An admitted call fits into the window that starts with any call up to it. */
  lemma AdmittedFits(limit: Limit, log: seq<Call>, i: nat, j: nat)
    requires Exact(limit, log) && i <= j < |log| && log[j].ok
    ensures AdmittedBetween(log, i, j) as real + 1.0 <= limit.burst + Earned(limit.qps, log[i].at, log[j].at)
  {
    assert Conforms(limit, log[..j], log[j].at);
    if i < j {
      assert Allowance(limit, log[..j], i, log[j].at) >= 1.0;
    } else {
      EarnedNothing(limit.qps, log[j].at);
    }
  }

  /** No window of calls admits more than the burst plus what the rate earns over the window. */
  lemma {:induction false} WindowBound(limit: Limit, log: seq<Call>, i: nat, j: nat)
    requires Exact(limit, log) && ClockForward(log)
    requires limit.qps >= 0.0 && limit.burst >= 0.0
    requires i <= j < |log|
    ensures AdmittedBetween(log, i, j + 1) as real <= limit.burst + Earned(limit.qps, log[i].at, log[j].at)
  {
    AdmittedBetweenOneMore(log, i, j);
    if log[j].ok {
      AdmittedFits(limit, log, i, j);
    } else if i < j {
      WindowBound(limit, log, i, j - 1);
      EarnedGrows(limit.qps, log[i].at, log[j - 1].at, log[j].at);
    } else {
      EarnedGrows(limit.qps, log[i].at, log[i].at, log[j].at);
    }
  }

  /** Every second earns as many tokens as the rate says. */
  lemma EarnedPerSecond(qps: real, from: int, n: int)
    ensures Earned(qps, from, from + n * 1_000_000_000) == n as real * qps
  {
  }

  lemma Reorder(a: real, b: real, c: real)
    ensures a * b * c == (a * c) * b
  {
  }

  lemma ProductOfInts(a: int, b: int)
    ensures (a as real) * (b as real) == (b * a) as real
  {
  }

  /** In nanoseconds, of which 1,000,000,000 times a token's worth earn `qps` tokens. */
  lemma EarnedInNanoseconds(qps: int, from: int, to: int)
    ensures Earned(qps as real, from, to) * 1000000000.0 == (qps * (to - from)) as real
  {
    var elapsed := to - from;
    assert Earned(qps as real, from, to) == Seconds(elapsed) * (qps as real);
    assert Seconds(elapsed) * 1000000000.0 == elapsed as real;
    Reorder(Seconds(elapsed), qps as real, 1000000000.0);
    ProductOfInts(elapsed, qps);
  }

  /** That one more call on top of `calls` in `elapsed` nanoseconds stays within `burst` and `qps` calls a second. */
  predicate Fits(qps: int, burst: int, calls: int, elapsed: int) {
    (calls + 1 - burst) * 1_000_000_000 <= qps * elapsed
  }

  lemma FitsIff(qps: int, burst: int, calls: int, from: int, now: int)
    ensures burst as real + Earned(qps as real, from, now) - calls as real >= 1.0 <==>
            Fits(qps, burst, calls, now - from)
  {
    EarnedInNanoseconds(qps, from, now);
    var earned := Earned(qps as real, from, now);
    assert earned >= (calls + 1 - burst) as real <==>
           earned * 1000000000.0 >= (calls + 1 - burst) as real * 1000000000.0;
    assert (calls + 1 - burst) as real * 1000000000.0 == ((calls + 1 - burst) * 1_000_000_000) as real;
  }

  /** Conformance in whole numbers: no window that ends with the call has too many calls for its nanoseconds. */
  lemma ConformsIff(limit: Limit, qps: int, burst: int, log: seq<Call>, now: int)
    requires limit.qps == qps as real && limit.burst == burst as real
    ensures Conforms(limit, log, now) <==>
            && burst >= 1
            && Fits(qps, burst, Admitted(log, 0), now - limit.created)
            && forall k :: 0 <= k < |log| ==> Fits(qps, burst, Admitted(log, k), now - log[k].at)
  {
    FitsIff(qps, burst, Admitted(log, 0), limit.created, now);
    forall k | 0 <= k < |log|
      ensures Allowance(limit, log, k, now) >= 1.0 <==> Fits(qps, burst, Admitted(log, k), now - log[k].at)
    {
      FitsIff(qps, burst, Admitted(log, k), log[k].at, now);
    }
  }

  lemma SecondsShare(qps: nat, extra: int, elapsed: int, n: nat)
    requires extra * 1_000_000_000 <= qps * elapsed && elapsed <= n * 1_000_000_000
    ensures extra <= n * qps
  {
    assert qps * elapsed <= qps * (n * 1_000_000_000);
    assert qps * (n * 1_000_000_000) == (n * qps) * 1_000_000_000;
  }

  /** In any `n` seconds the limiter admits at most `burst + n * qps` calls, and in any time `t` the share of it. */
  lemma SecondsBound(limit: Limit, qps: nat, burst: nat, log: seq<Call>, i: nat, j: nat, n: nat)
    requires Exact(limit, log) && ClockForward(log)
    requires limit.qps == qps as real && limit.burst == burst as real
    requires i <= j < |log|
    ensures (AdmittedBetween(log, i, j + 1) - burst) * 1_000_000_000 <= qps * (log[j].at - log[i].at)
    ensures log[j].at - log[i].at <= n * 1_000_000_000 ==> AdmittedBetween(log, i, j + 1) <= burst + n * qps
  {
    WindowBound(limit, log, i, j);
    var calls, elapsed := AdmittedBetween(log, i, j + 1), log[j].at - log[i].at;
    FitsIff(qps, burst, calls - 1, log[i].at, log[j].at);
    if elapsed <= n * 1_000_000_000 {
      SecondsShare(qps, calls - burst, elapsed, n);
    }
  }

  /** A log of the same calls whose every admission conforms to the limit. */
  ghost predicate AnotherSchedule(limit: Limit, log: seq<Call>, other: seq<Call>) {
    && |other| == |log|
    && (forall n :: 0 <= n < |log| ==> other[n].at == log[n].at)
    && (forall n :: 0 <= n < |log| ==> other[n].ok ==> Conforms(limit, other[..n], other[n].at))
  }

  lemma {:induction false} AdmittedSplit(log: seq<Call>, i: nat, k: nat)
    requires i <= k <= |log|
    ensures Admitted(log, i) == Admitted(log[..k], i) + Admitted(log, k)
    decreases k - i
  {
    if i < k {
      AdmittedSplit(log, i + 1, k);
    } else {
      assert Admitted(log[..k], k) == 0;
    }
  }

  /** Where the bucket refuses a call that another schedule admits, it has admitted more in some window before it. */
  lemma RefusedForEarlier(limit: Limit, log: seq<Call>, other: seq<Call>, now: int) returns (k: nat)
    requires |other| == |log| && forall n :: 0 <= n < |log| ==> other[n].at == log[n].at
    requires Conforms(limit, other, now) && !Conforms(limit, log, now)
    ensures k <= |log|
    ensures k == |log| ==> Admitted(other, 0) < Admitted(log, 0)
    ensures k < |log| ==> Admitted(other, k) < Admitted(log, k)
  {
    if InitialAllowance(limit, log, now) < 1.0 {
      k := |log|;
    } else {
      k :| 0 <= k < |log| && Allowance(limit, log, k, now) < 1.0;
      assert Allowance(limit, other, k, now) >= 1.0;
    }
  }

  /** The bucket wastes nothing: no conforming way of admitting the same calls is ever ahead of it. */
  lemma {:induction false} NoScheduleIsAhead(limit: Limit, log: seq<Call>, other: seq<Call>, n: nat)
    requires Exact(limit, log) && AnotherSchedule(limit, log, other) && n <= |log|
    ensures AdmittedBetween(other, 0, n) <= AdmittedBetween(log, 0, n)
  {
    if n > 0 {
      var m := n - 1;
      NoScheduleIsAhead(limit, log, other, m);
      AdmittedBetweenOneMore(log, 0, m);
      AdmittedBetweenOneMore(other, 0, m);
      if other[m].ok && !log[m].ok {
        var k := RefusedForEarlier(limit, log[..m], other[..m], log[m].at);
        if k < m {
          NoScheduleIsAhead(limit, log, other, k);
          AdmittedSplit(log[..m], 0, k);
          AdmittedSplit(other[..m], 0, k);
          assert log[..m][..k] == log[..k] && other[..m][..k] == other[..k];
        }
      }
    }
  }
}
