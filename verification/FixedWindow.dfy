/** The Redis fixed-window limiter, whose Incr and Expire are two separate steps of many clients. */
module FixedWindow {
  import opened Options

  /** The counter key: it is gone once the clock reaches `expireAt`, if that was ever set. */
  datatype Key = Absent | Live(count: int, expireAt: Option<int>)

  predicate IsLive(key: Key, now: int) {
    key.Live? && (key.expireAt.None? || now < key.expireAt.value)
  }

  /** One executed Incr: when, the count it produced, and whether its client let the request through. */
  datatype Increment = Increment(at: int, count: int, granted: bool)

  ghost predicate Creates(increment: Increment) {
    increment.count == 1
  }

  /** The increments of successive key lifetimes: each counts from 1, grants up to the limit, and lasts a window. */
  ghost predicate IsHistory(limit: int, window: int, log: seq<Increment>) {
    && (forall i, j :: 0 <= i <= j < |log| ==> log[i].at <= log[j].at)
    && (forall i :: 0 <= i < |log| ==> log[i].count >= 1 && (log[i].granted ==> log[i].count <= limit))
    && (forall i :: 0 <= i < |log| && !Creates(log[i]) ==> i > 0 && log[i].count == log[i - 1].count + 1)
    && (forall i, j :: 0 <= i < j < |log| && Creates(log[i]) && Creates(log[j]) ==> log[i].at + window <= log[j].at)
  }

  /**
   * How the stored key relates to the history: it carries the last count; an expiry, once set, lies a window or
   * more after every creation; and while a creator still owes its Expire there is no expiry yet.
   */
  ghost predicate Tracks(window: int, key: Key, pending: set<nat>, log: seq<Increment>) {
    && (key.Absent? <==> log == [])
    && (key.Live? ==> key.count == log[|log| - 1].count)
    && (key.Live? && key.expireAt.Some? ==>
          forall i :: 0 <= i < |log| && Creates(log[i]) ==> log[i].at + window <= key.expireAt.value)
    && (pending != {} ==> key.Live? && key.expireAt.None?)
    && (forall c, d :: c in pending && d in pending ==> c == d)
  }

  /** An increment that continues the key, or that creates it anew once every window so far is over. */
  lemma IncrementKeepsHistory(limit: int, window: int, log: seq<Increment>, next: Increment)
    requires IsHistory(limit, window, log)
    requires forall i :: 0 <= i < |log| ==> log[i].at <= next.at
    requires next.granted ==> next.count <= limit
    requires next.count == 1 || (log != [] && next.count == log[|log| - 1].count + 1)
    requires Creates(next) ==> forall i :: 0 <= i < |log| && Creates(log[i]) ==> log[i].at + window <= next.at
    ensures IsHistory(limit, window, log + [next])
  {
  }

  class RedisRateLimiter {
    const limit: int
    const window: int
    var key: Key
    ghost var log: seq<Increment>
    ghost var pending: set<nat>
    ghost var clock: int

    /** Holds between any two atomic steps of any clients. */
    ghost predicate Valid()
      reads this
    {
      && IsHistory(limit, window, log)
      && Tracks(window, key, pending, log)
      && forall i :: 0 <= i < |log| ==> log[i].at <= clock
    }

    constructor (limit: int, window: int, now: int)
      ensures Valid() && log == [] && pending == {} && key == Absent && clock == now
      ensures this.limit == limit && this.window == window
    {
      this.limit, this.window, key := limit, window, Absent;
      log, pending, clock := [], {}, now;
    }

    /**
     * The server executes one client's Incr. A client that gets the answer owes an Expire when it created the
     * key; one whose answer is lost refuses its request and owes nothing.
     */
    method Incr(client: nat, now: int, answered: bool) returns (count: int)
      requires Valid() && now >= clock && client !in pending
      modifies this
      ensures Valid() && clock == now
      ensures log == old(log) + [Increment(now, count, answered && count <= limit)]
      ensures pending == if answered && count == 1 then old(pending) + {client} else old(pending)
      ensures count == if IsLive(old(key), now) then old(key).count + 1 else 1
      ensures key == if IsLive(old(key), now) then old(key).(count := count) else Live(1, None)
    {
      ghost var before := log;
      if IsLive(key, now) {
        count := key.count + 1;
        key := key.(count := count);
      } else {
        count := 1;
        key := Live(1, None);
      }
      log := log + [Increment(now, count, answered && count <= limit)];
      if answered && count == 1 {
        pending := pending + {client};
      }
      clock := now;
      IncrementKeepsHistory(limit, window, before, log[|before|]);
    }

    /** The server executes the Expire that the key's creator owes. */
    method Expire(client: nat, now: int)
      requires Valid() && now >= clock && client in pending
      modifies this
      ensures Valid() && clock == now
      ensures log == old(log) && pending == old(pending) - {client}
      ensures key == if IsLive(old(key), now) then old(key).(expireAt := Some(now + window)) else old(key)
    {
      if IsLive(key, now) {
        key := key.(expireAt := Some(now + window));
      }
      pending := pending - {client};
      clock := now;
    }

    /** A client stops before issuing the Expire it owes. */
    ghost method Stop(client: nat)
      requires Valid() && client in pending
      modifies this`pending
      ensures Valid() && pending == old(pending) - {client}
    {
      pending := pending - {client};
    }

    /** One client's whole decision, its Expire following some time after its Incr. */
    method Allow(client: nat, now: int, later: int) returns (ok: bool)
      requires Valid() && clock <= now <= later && client !in pending
      modifies this
      ensures Valid() && pending == old(pending)
      ensures
        var count := if IsLive(old(key), now) then old(key).count + 1 else 1;
        && (ok <==> count <= limit)
        && log == old(log) + [Increment(now, count, ok)]
        && key == if IsLive(old(key), now) then old(key).(count := count) else Live(1, Some(later + window))
    {
      var count := Incr(client, now, true);
      if count == 1 {
        Expire(client, later);
      }
      return count <= limit;
    }
  }

  // ---------- Bounds ----------

  /** The grants among positions `i` up to, but not including, `j`. */
  function GrantsBetween(log: seq<Increment>, i: nat, j: nat): nat
    requires i <= j <= |log|
  {
    if i == j then 0 else GrantsBetween(log, i, j - 1) + if log[j - 1].granted then 1 else 0
  }

  /** The grants whose time lies in the half-open interval. */
  function GrantsIn(log: seq<Increment>, start: int, end: int): nat {
    if log == [] then 0
    else
      var last := log[|log| - 1];
      GrantsIn(log[..|log| - 1], start, end) + if last.granted && start <= last.at < end then 1 else 0
  }

  function AtLeastZero(limit: int): nat {
    if limit < 0 then 0 else limit
  }

  lemma {:induction false} LifetimeGrants(limit: int, window: int, log: seq<Increment>, i: nat, j: nat)
    requires IsHistory(limit, window, log) && i < j <= |log|
    requires forall k :: i < k < j ==> !Creates(log[k])
    ensures log[j - 1].count == log[i].count + (j - 1 - i)
    ensures GrantsBetween(log, i, j) <= j - i && GrantsBetween(log, i, j) <= AtLeastZero(limit)
    ensures GrantsBetween(log, i, j) <= AtLeastZero(limit - log[i].count + 1)
  {
    if i + 1 < j {
      LifetimeGrants(limit, window, log, i, j - 1);
    } else {
      assert GrantsBetween(log, i, i) == 0;
    }
  }

  /** One lifetime of the key grants at most `limit` requests. */
  lemma LifetimeBound(limit: int, window: int, log: seq<Increment>, i: nat, j: nat)
    requires IsHistory(limit, window, log) && i <= j <= |log|
    requires forall k :: i < k < j ==> !Creates(log[k])
    ensures GrantsBetween(log, i, j) <= AtLeastZero(limit)
  {
    if i < j {
      LifetimeGrants(limit, window, log, i, j);
    }
  }

  lemma {:induction false} GrantsSplit(log: seq<Increment>, i: nat, k: nat, j: nat)
    requires i <= k <= j <= |log|
    ensures GrantsBetween(log, i, j) == GrantsBetween(log, i, k) + GrantsBetween(log, k, j)
  {
    if k < j {
      GrantsSplit(log, i, k, j - 1);
    }
  }

  lemma {:induction false} SameGrants(shorter: seq<Increment>, log: seq<Increment>, i: nat, j: nat)
    requires shorter <= log && i <= j <= |shorter|
    ensures GrantsBetween(shorter, i, j) == GrantsBetween(log, i, j)
  {
    if i < j {
      SameGrants(shorter, log, i, j - 1);
    }
  }

  /** The increments of an interval stand next to each other in the log. */
  lemma {:induction false} IntervalIsRange(log: seq<Increment>, start: int, end: int) returns (i: nat, j: nat)
    requires start <= end && forall i, j :: 0 <= i <= j < |log| ==> log[i].at <= log[j].at
    ensures i <= j <= |log|
    ensures forall k :: 0 <= k < |log| ==> (i <= k < j <==> start <= log[k].at < end)
    ensures GrantsIn(log, start, end) == GrantsBetween(log, i, j)
  {
    i, j := 0, 0;
    if log != [] {
      var init, last := log[..|log| - 1], log[|log| - 1];
      i, j := IntervalIsRange(init, start, end);
      SameGrants(init, log, i, j);
      if start <= last.at < end {
        if i == j {
          i := |init|;
          assert GrantsBetween(init, j, j) == 0;
          assert GrantsBetween(log, i, i) == 0;
        }
        j := |log|;
      }
    }
  }

  /**
   * A half-open interval no longer than the window grants fewer than twice the limit: it meets at most two key
   * lifetimes, and the creation of the first of two lies before it.
   */
  lemma WindowBound(limit: int, window: int, log: seq<Increment>, start: int, end: int)
    requires IsHistory(limit, window, log)
    requires start <= end <= start + window
    ensures GrantsIn(log, start, end) <= AtLeastZero(2 * limit - 1)
  {
    var i, j := IntervalIsRange(log, start, end);
    if k :| i < k < j && Creates(log[k]) {
      assert start <= log[k].at < end;
      forall l | i <= l < j && l != k
        ensures !Creates(log[l])
      {
        assert start <= log[l].at < end;
      }
      GrantsSplit(log, i, k, j);
      LifetimeGrants(limit, window, log, i, k);
      LifetimeBound(limit, window, log, k, j);
    } else {
      LifetimeBound(limit, window, log, i, j);
    }
  }

  lemma GrantsInOneMore(log: seq<Increment>, next: Increment, start: int, end: int)
    ensures GrantsIn(log + [next], start, end) ==
            GrantsIn(log, start, end) + if next.granted && start <= next.at < end then 1 else 0
  {
    assert (log + [next])[..|log|] == log;
  }

  /** A first request on a key that is not there, its Expire following at once. */
  method Create(limiter: RedisRateLimiter, at: int, ghost start: int, ghost end: int)
    requires limiter.Valid() && limiter.pending == {} && limiter.clock <= at && limiter.limit >= 1 && limiter.window > 0
    requires !IsLive(limiter.key, at)
    modifies limiter
    ensures limiter.Valid() && limiter.pending == {} && limiter.clock == at
    ensures limiter.key == Live(1, Some(at + limiter.window))
    ensures GrantsIn(limiter.log, start, end) ==
            old(GrantsIn(limiter.log, start, end)) + if start <= at < end then 1 else 0
  {
    GrantsInOneMore(limiter.log, Increment(at, 1, true), start, end);
    var count := limiter.Incr(0, at, true);
    limiter.Expire(0, at);
  }

  /** All further requests that the limit allows, at one moment while the key is live. */
  method FillUp(limiter: RedisRateLimiter, at: int, ghost expireAt: int, ghost start: int, ghost end: int)
    requires limiter.Valid() && limiter.pending == {} && limiter.clock <= at < expireAt && limiter.limit >= 1
    requires limiter.key == Live(1, Some(expireAt)) && start <= at < end
    modifies limiter
    ensures limiter.Valid() && limiter.pending == {} && limiter.clock <= at
    ensures limiter.key == Live(limiter.limit, Some(expireAt))
    ensures GrantsIn(limiter.log, start, end) == old(GrantsIn(limiter.log, start, end)) + limiter.limit - 1
  {
    for i := 1 to limiter.limit
      invariant limiter.Valid() && limiter.pending == {} && limiter.clock <= at
      invariant limiter.key == Live(i, Some(expireAt))
      invariant GrantsIn(limiter.log, start, end) == old(GrantsIn(limiter.log, start, end)) + i - 1
    {
      GrantsInOneMore(limiter.log, Increment(at, i + 1, true), start, end);
      var count := limiter.Incr(0, at, true);
    }
  }

  /**
   * The bound is reached: one request just before an interval of the window's length, as many more as the limit
   * allows at its start, and, once the key has expired, as many as the limit again.
   */
  method ReachWindowBound(limit: int, window: int, now: int) returns (limiter: RedisRateLimiter)
    requires limit >= 1 && window >= 2
    ensures fresh(limiter) && limiter.Valid() && limiter.limit == limit && limiter.window == window
    ensures GrantsIn(limiter.log, now + 1, now + 1 + window) == 2 * limit - 1
  {
    limiter := new RedisRateLimiter(limit, window, now);
    Create(limiter, now, now + 1, now + 1 + window);
    FillUp(limiter, now + 1, now + window, now + 1, now + 1 + window);
    Create(limiter, now + window, now + 1, now + 1 + window);
    FillUp(limiter, now + window, now + 2 * window, now + 1, now + 1 + window);
  }
}
