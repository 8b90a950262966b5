/** The health probes of a client whose callers overlap: each reads the clock, then the cache, and may store later. */
module HealthLog {
  import opened Options

  datatype Probe = Probe(at: int, healthy: bool)

  /**
   * A caller read the clock; at some later moment it found the cached answer young enough and left, or began a
   * probe; and at some later moment it stored what the probe had found. Callers are known by their clock readings.
   */
  datatype Step = Entered(at: int) | Answered(at: int) | Started(at: int) | Stored(at: int, healthy: bool)

  /** The steps of all callers, each after the ones that happened before it. */
  datatype Log = Empty | Then(earlier: Log, step: Step)

  /** What the cache holds: the probe stored last. */
  function LastStored(log: Log): Option<Probe> {
    match log
    case Empty => None
    case Then(_, Stored(at, healthy)) => Some(Probe(at, healthy))
    case Then(earlier, _) => LastStored(earlier)
  }

  predicate IsFresh(log: Log, ttl: int, now: int) {
    LastStored(log).Some? && now - LastStored(log).value.at < ttl
  }

  // ---------- The callers that are inside ----------

  /** Callers by their clock readings, the one who came last outermost. */
  datatype Callers = Nobody | With(others: Callers, at: int)

  function Size(callers: Callers): nat {
    if callers.Nobody? then 0 else Size(callers.others) + 1
  }

  predicate Has(callers: Callers, at: int) {
    callers.With? && (callers.at == at || Has(callers.others, at))
  }

  function Remove(callers: Callers, at: int): Callers {
    match callers
    case Nobody => Nobody
    case With(others, last) => if last == at then others else With(Remove(others, at), last)
  }

  /** The callers that have read the clock but not the cache yet. */
  function Waiting(log: Log): Callers {
    match log
    case Empty => Nobody
    case Then(earlier, Entered(at)) => With(Waiting(earlier), at)
    case Then(earlier, Stored(_, _)) => Waiting(earlier)
    case Then(earlier, step) => Remove(Waiting(earlier), step.at)
  }

  /** The callers whose probes are not stored yet. */
  function Probing(log: Log): Callers {
    match log
    case Empty => Nobody
    case Then(earlier, Started(at)) => With(Probing(earlier), at)
    case Then(earlier, Stored(at, _)) => Remove(Probing(earlier), at)
    case Then(earlier, _) => Probing(earlier)
  }

  /** Callers probe exactly if they find the cache out of date, and only then store. */
  predicate IsLog(log: Log, ttl: int) {
    match log
    case Empty => true
    case Then(earlier, Entered(_)) => IsLog(earlier, ttl)
    case Then(earlier, Answered(at)) => IsLog(earlier, ttl) && Has(Waiting(earlier), at) && IsFresh(earlier, ttl, at)
    case Then(earlier, Started(at)) => IsLog(earlier, ttl) && Has(Waiting(earlier), at) && !IsFresh(earlier, ttl, at)
    case Then(earlier, Stored(at, _)) => IsLog(earlier, ttl) && Has(Probing(earlier), at)
  }

  predicate AtMostInside(log: Log, c: nat) {
    Size(Waiting(log)) + Size(Probing(log)) <= c && (log.Then? ==> AtMostInside(log.earlier, c))
  }

  /** The clock readings of the probes, in the order in which they began. */
  function Starts(log: Log): seq<int> {
    match log
    case Empty => []
    case Then(earlier, Started(at)) => Starts(earlier) + [at]
    case Then(earlier, _) => Starts(earlier)
  }

  // ---------- Probes that do not overlap ----------

  ghost predicate SpacedBy(times: seq<int>, ttl: int) {
    forall i :: 0 < i < |times| ==> times[i - 1] + ttl <= times[i]
  }

  lemma OneCaller(callers: Callers, at: int)
    requires Has(callers, at) && Size(callers) <= 1
    ensures callers == With(Nobody, at)
  {
  }

  /** Without overlap the latest probe to begin is the one in flight or the one in the cache. */
  lemma {:induction false} SpacedWithoutOverlap(log: Log, ttl: int)
    requires IsLog(log, ttl) && AtMostInside(log, 1)
    ensures SpacedBy(Starts(log), ttl)
    ensures Starts(log) == [] ==> Probing(log) == Nobody && LastStored(log) == None
    ensures Starts(log) != [] ==>
      var latest := Starts(log)[|Starts(log)| - 1];
      || Probing(log) == With(Nobody, latest)
      || (Probing(log) == Nobody && LastStored(log).Some? && LastStored(log).value.at == latest)
  {
    if log.Then? {
      SpacedWithoutOverlap(log.earlier, ttl);
      match log.step {
        case Started(at) => OneCaller(Probing(log), at);
        case Stored(at, _) => OneCaller(Probing(log.earlier), at);
        case _ =>
      }
    }
  }

  lemma {:induction false} SpanAtLeast(times: seq<int>, ttl: int, i: nat, j: nat)
    requires SpacedBy(times, ttl) && i <= j < |times|
    ensures times[j] - times[i] >= (j - i) * ttl
    decreases j
  {
    if i < j {
      SpanAtLeast(times, ttl, i, j - 1);
      assert (j - i) * ttl == (j - 1 - i) * ttl + ttl;
    }
  }

  /** Then, however often health is asked for, probes `i` to `j` span at least `j - i` lifetimes. */
  lemma ProbesAreRare(log: Log, ttl: int, i: nat, j: nat)
    requires IsLog(log, ttl) && AtMostInside(log, 1) && i <= j < |Starts(log)|
    ensures Starts(log)[j] - Starts(log)[i] >= (j - i) * ttl
  {
    SpacedWithoutOverlap(log, ttl);
    SpanAtLeast(Starts(log), ttl, i, j);
  }

  // ---------- Probes that do ----------

  /** The clock reading of the caller that entered last. */
  function LastEntered(log: Log): Option<int> {
    match log
    case Empty => None
    case Then(_, Entered(at)) => Some(at)
    case Then(earlier, _) => LastEntered(earlier)
  }

  predicate EnteredBefore(log: Log, end: int) {
    LastEntered(log).Some? ==> LastEntered(log).value < end
  }

  /** Later readings of the clock are no earlier times. */
  predicate ClockForward(log: Log) {
    match log
    case Empty => true
    case Then(earlier, Entered(at)) => ClockForward(earlier) && EnteredBefore(earlier, at + 1)
    case Then(earlier, _) => ClockForward(earlier)
  }

  /** The probes of callers that entered at or after `start` and before `end`. */
  function StartsIn(log: Log, start: int, end: int): nat {
    match log
    case Empty => 0
    case Then(earlier, Started(at)) => StartsIn(earlier, start, end) + if start <= at < end then 1 else 0
    case Then(earlier, _) => StartsIn(earlier, start, end)
  }

  function CountBefore(callers: Callers, start: int): nat {
    match callers
    case Nobody => 0
    case With(others, at) => CountBefore(others, start) + if at < start then 1 else 0
  }

  /** The callers inside that entered before the interval. */
  function OldInside(log: Log, start: int): nat {
    CountBefore(Waiting(log), start) + CountBefore(Probing(log), start)
  }

  lemma {:induction false} CountIsAtMostSize(callers: Callers, start: int)
    ensures CountBefore(callers, start) <= Size(callers)
  {
    if callers.With? {
      CountIsAtMostSize(callers.others, start);
    }
  }

  lemma {:induction false} AllBefore(callers: Callers, start: int, at: int)
    requires CountBefore(callers, start) == Size(callers) && Has(callers, at)
    ensures at < start
  {
    CountIsAtMostSize(callers.others, start);
    if callers.at != at {
      AllBefore(callers.others, start, at);
    }
  }

  lemma {:induction false} RemoveOne(callers: Callers, at: int, start: int)
    requires Has(callers, at)
    ensures Size(Remove(callers, at)) == Size(callers) - 1
    ensures CountBefore(Remove(callers, at), start) == CountBefore(callers, start) - if at < start then 1 else 0
  {
    if callers.at != at {
      RemoveOne(callers.others, at, start);
    }
  }

  function Triangle(c: nat): nat {
    if c == 0 then 0 else Triangle(c - 1) + c
  }

  /** What `prior` old callers can let through: each, storing at last, makes the cache look out of date once more. */
  function Reopenings(c: nat, prior: nat): int {
    if prior == 0 then 0 else Reopenings(c, prior - 1) + c - (prior - 1)
  }

  lemma {:induction false} TriangleIsLarge(c: nat)
    ensures Triangle(c) >= c
  {
  }

  lemma {:induction false} ReopeningsAreTriangular(c: nat, prior: nat)
    requires prior <= c
    ensures Reopenings(c, prior) + (c - prior) <= Triangle(c)
    ensures Reopenings(c, prior) + Triangle(c - prior) == Triangle(c)
  {
    if prior > 0 {
      ReopeningsAreTriangular(c, prior - 1);
    }
    TriangleIsLarge(c - prior);
  }

  /** The probes under way of callers that entered in the interval or later. */
  function NewProbing(log: Log, start: int): int {
    Size(Probing(log)) - CountBefore(Probing(log), start)
  }

  predicate IsShut(log: Log, start: int) {
    LastStored(log).Some? && LastStored(log).value.at >= start
  }

  /** The probes that can still begin in the interval, once a caller has entered in it. */
  function RoomFor(c: nat, prior: nat, probing: int, shut: bool): int {
    Reopenings(c, prior) + if shut then 0 else c - prior - probing
  }

  function Room(log: Log, c: nat, start: int): int {
    RoomFor(c, OldInside(log, start), NewProbing(log, start), IsShut(log, start))
  }

  /** Before anyone enters in the interval nothing waiting, probing, stored or begun belongs to it. */
  lemma {:induction false} NothingNewYet(log: Log, ttl: int, start: int, end: int)
    requires IsLog(log, ttl) && ClockForward(log) && EnteredBefore(log, start)
    ensures CountBefore(Waiting(log), start) == Size(Waiting(log))
    ensures CountBefore(Probing(log), start) == Size(Probing(log))
    ensures StartsIn(log, start, end) == 0
    ensures LastStored(log).Some? ==> LastStored(log).value.at < start
  {
    if log.Then? {
      var earlier, at := log.earlier, log.step.at;
      NothingNewYet(earlier, ttl, start, end);
      if log.step.Stored? {
        AllBefore(Probing(earlier), start, at);
        RemoveOne(Probing(earlier), at, start);
      } else if !log.step.Entered? {
        AllBefore(Waiting(earlier), start, at);
        RemoveOne(Waiting(earlier), at, start);
      }
    }
  }

  lemma EnteringKeepsRoom(log: Log, c: nat, start: int, at: int)
    requires start <= at
    ensures Room(Then(log, Entered(at)), c, start) == Room(log, c, start)
  {
  }

  lemma OldAreInside(log: Log, start: int)
    ensures NewProbing(log, start) >= 0
    ensures OldInside(log, start) + NewProbing(log, start) <= Size(Waiting(log)) + Size(Probing(log))
  {
    CountIsAtMostSize(Waiting(log), start);
    CountIsAtMostSize(Probing(log), start);
  }

  lemma AnsweringMoves(log: Log, start: int, at: int)
    requires Has(Waiting(log), at)
    ensures OldInside(Then(log, Answered(at)), start) == OldInside(log, start) - if at < start then 1 else 0
    ensures NewProbing(Then(log, Answered(at)), start) == NewProbing(log, start)
  {
    RemoveOne(Waiting(log), at, start);
  }

  /** One old caller less makes no more room, even if it leaves the cache looking out of date. */
  lemma FewerAreLess(c: nat, prior: nat, before: nat, after: nat, was: bool, shut: bool)
    requires prior + before <= c
    ensures prior > 0 && (was || !shut) ==> RoomFor(c, prior - 1, before, shut) <= RoomFor(c, prior, before, was)
    ensures shut ==> RoomFor(c, prior, after, shut) <= RoomFor(c, prior, before, was)
  {
  }

  lemma AnsweringKeepsRoom(log: Log, c: nat, start: int, at: int)
    requires Has(Waiting(log), at) && Size(Waiting(log)) + Size(Probing(log)) <= c
    ensures Room(Then(log, Answered(at)), c, start) <= Room(log, c, start)
  {
    AnsweringMoves(log, start, at);
    OldAreInside(log, start);
    FewerAreLess(c, OldInside(log, start), NewProbing(log, start), NewProbing(log, start), IsShut(log, start),
                 IsShut(log, start));
  }

  lemma StartingMoves(log: Log, start: int, at: int)
    requires Has(Waiting(log), at)
    ensures OldInside(Then(log, Started(at)), start) == OldInside(log, start)
    ensures NewProbing(Then(log, Started(at)), start) == NewProbing(log, start) + if at < start then 0 else 1
  {
    RemoveOne(Waiting(log), at, start);
  }

  /** A probe that begins in the interval finds room, because the cache holds nothing of the interval. */
  lemma StartingUsesRoom(log: Log, ttl: int, c: nat, start: int, at: int)
    requires Has(Waiting(log), at) && !IsFresh(log, ttl, at)
    ensures
      Room(Then(log, Started(at)), c, start) <= Room(log, c, start) - if start <= at < start + ttl then 1 else 0
  {
    StartingMoves(log, start, at);
  }

  lemma StoringMoves(log: Log, start: int, at: int, healthy: bool)
    requires Has(Probing(log), at)
    ensures OldInside(Then(log, Stored(at, healthy)), start) == OldInside(log, start) - if at < start then 1 else 0
    ensures NewProbing(Then(log, Stored(at, healthy)), start) == NewProbing(log, start) - if at < start then 0 else 1
  {
    RemoveOne(Probing(log), at, start);
  }

  /** Storing a probe of the interval closes it, storing an earlier one can open it again, but makes no more room. */
  lemma StoringKeepsRoom(log: Log, c: nat, start: int, at: int, healthy: bool)
    requires Has(Probing(log), at) && Size(Waiting(log)) + Size(Probing(log)) <= c
    ensures Room(Then(log, Stored(at, healthy)), c, start) <= Room(log, c, start)
  {
    StoringMoves(log, start, at, healthy);
    OldAreInside(log, start);
    OldAreInside(Then(log, Stored(at, healthy)), start);
    FewerAreLess(c, OldInside(log, start), NewProbing(log, start), NewProbing(Then(log, Stored(at, healthy)), start),
                 IsShut(log, start), at >= start);
  }

  /** Probes begun in the interval use up the room for them, and nothing ever adds to it. */
  lemma {:induction false} RoomIsUsedUp(log: Log, ttl: int, c: nat, start: int)
    requires ttl > 0 && IsLog(log, ttl) && ClockForward(log) && AtMostInside(log, c)
    ensures StartsIn(log, start, start + ttl) + Room(log, c, start) <= Triangle(c)
  {
    if EnteredBefore(log, start) {
      NothingNewYet(log, ttl, start, start + ttl);
      ReopeningsAreTriangular(c, OldInside(log, start));
    } else {
      var earlier, at := log.earlier, log.step.at;
      RoomIsUsedUp(earlier, ttl, c, start);
      match log.step {
        case Entered(_) => EnteringKeepsRoom(earlier, c, start, at);
        case Answered(_) => AnsweringKeepsRoom(earlier, c, start, at);
        case Started(_) => StartingUsesRoom(earlier, ttl, c, start, at);
        case Stored(_, healthy) => StoringKeepsRoom(earlier, c, start, at, healthy);
      }
    }
  }

  lemma {:induction false} ReopeningsAreNotNegative(c: nat, prior: nat)
    requires prior <= c
    ensures Reopenings(c, prior) >= 0
  {
    if prior > 0 {
      ReopeningsAreNotNegative(c, prior - 1);
    }
  }

  lemma RoomIsNotNegative(log: Log, c: nat, start: int)
    requires AtMostInside(log, c)
    ensures Room(log, c, start) >= 0
  {
    OldAreInside(log, start);
    ReopeningsAreNotNegative(c, OldInside(log, start));
  }

  /**
   * When callers overlap, with at most `c` of them inside at any moment, no interval of one lifetime sees more
   * than `1 + 2 + ... + c` probes begin. One at a time this is a single one.
   */
  lemma CrowdBound(log: Log, ttl: int, c: nat, start: int)
    requires ttl > 0 && IsLog(log, ttl) && ClockForward(log) && AtMostInside(log, c)
    ensures StartsIn(log, start, start + ttl) <= Triangle(c)
  {
    RoomIsUsedUp(log, ttl, c, start);
    RoomIsNotNegative(log, c, start);
  }

  // ---------- A run that reaches the bound ----------

  predicate IsRun(log: Log, ttl: int, c: nat, latest: int) {
    && IsLog(log, ttl) && ClockForward(log) && AtMostInside(log, c)
    && Waiting(log) == Nobody && EnteredBefore(log, latest + 1)
  }

  /** So many callers more, all with the same clock reading. */
  function More(callers: Callers, at: int, n: nat): Callers {
    if n == 0 then callers else With(More(callers, at, n - 1), at)
  }

  lemma {:induction false} MoreSize(callers: Callers, at: int, n: nat)
    ensures Size(More(callers, at, n)) == Size(callers) + n
  {
    if n > 0 {
      MoreSize(callers, at, n - 1);
    }
  }

  /** So many callers enter at one moment and begin to probe. */
  function Begin(log: Log, at: int, n: nat): Log {
    if n == 0 then log else Then(Then(Begin(log, at, n - 1), Entered(at)), Started(at))
  }

  /** So many probes of one moment are stored. */
  function Finish(log: Log, at: int, n: nat): Log {
    if n == 0 then log else Then(Finish(log, at, n - 1), Stored(at, true))
  }

  lemma {:induction false} BeginIsRun(log: Log, ttl: int, c: nat, at: int, n: nat, start: int, end: int)
    requires IsRun(log, ttl, c, at) && !IsFresh(log, ttl, at) && Size(Probing(log)) + n <= c
    ensures IsRun(Begin(log, at, n), ttl, c, at) && LastStored(Begin(log, at, n)) == LastStored(log)
    ensures Probing(Begin(log, at, n)) == More(Probing(log), at, n)
    ensures StartsIn(Begin(log, at, n), start, end) == StartsIn(log, start, end) + if start <= at < end then n else 0
  {
    if n > 0 {
      BeginIsRun(log, ttl, c, at, n - 1, start, end);
      MoreSize(Probing(log), at, n - 1);
    }
  }

  lemma {:induction false} FinishSome(log: Log, ttl: int, c: nat, at: int, n: nat, k: nat, rest: Callers,
                                      start: int, end: int)
    requires IsRun(log, ttl, c, at) && Probing(log) == More(rest, at, n) && k <= n
    ensures IsRun(Finish(log, at, k), ttl, c, at) && Probing(Finish(log, at, k)) == More(rest, at, n - k)
    ensures LastStored(Finish(log, at, k)) == if k > 0 then Some(Probe(at, true)) else LastStored(log)
    ensures StartsIn(Finish(log, at, k), start, end) == StartsIn(log, start, end)
  {
    if k > 0 {
      FinishSome(log, ttl, c, at, n, k - 1, rest, start, end);
      MoreSize(rest, at, n - k + 1);
      MoreSize(rest, at, n - k);
    }
  }

  /**
   * After `c - 1` slow probes from just before the interval, `k` times over: all callers that can probe at the
   * interval's last moment, store what they found, and one of the slow probes is stored on top of it.
   */
  function Crowd(ttl: int, c: nat, k: nat, start: int): Log
    requires c > 0
  {
    if k == 0 then Begin(Empty, start - 1, c - 1)
    else
      var at := start + ttl - 1;
      Then(Finish(Begin(Crowd(ttl, c, k - 1, start), at, k), at, k), Stored(start - 1, true))
  }

  /** One round of it leaves one slow probe less in flight, and the cache out of date as before. */
  lemma RoundIsRun(log: Log, ttl: int, c: nat, at: int, k: nat, slow: Callers, last: int, start: int, end: int)
    requires IsRun(log, ttl, c, at) && !IsFresh(log, ttl, at) && at - last >= ttl
    requires Probing(log) == With(slow, last) && Size(slow) + 1 + k <= c
    ensures
      var longer := Then(Finish(Begin(log, at, k), at, k), Stored(last, true));
      && IsRun(longer, ttl, c, at) && !IsFresh(longer, ttl, at) && Probing(longer) == slow
      && StartsIn(longer, start, end) == StartsIn(log, start, end) + if start <= at < end then k else 0
  {
    BeginIsRun(log, ttl, c, at, k, start, end);
    FinishSome(Begin(log, at, k), ttl, c, at, k, k, With(slow, last), start, end);
  }

  /** After `k` rounds these slow probes are left, the cache is out of date, and so many have begun. */
  ghost predicate IsCrowded(log: Log, ttl: int, c: nat, k: nat, start: int)
    requires k < c
  {
    && IsRun(log, ttl, c, start + ttl - 1) && Probing(log) == More(Nobody, start - 1, c - 1 - k)
    && !IsFresh(log, ttl, start + ttl - 1)
    && StartsIn(log, start, start + ttl) == Triangle(k)
  }

  lemma SlowProbesBegin(ttl: int, c: nat, start: int)
    requires ttl > 0 && c > 0
    ensures IsCrowded(Crowd(ttl, c, 0, start), ttl, c, 0, start)
  {
    BeginIsRun(Empty, ttl, c, start - 1, c - 1, start, start + ttl);
  }

  lemma CrowdOneMore(log: Log, ttl: int, c: nat, k: nat, start: int)
    requires ttl > 0 && k + 1 < c && IsCrowded(log, ttl, c, k, start)
    ensures
      var at := start + ttl - 1;
      IsCrowded(Then(Finish(Begin(log, at, k + 1), at, k + 1), Stored(start - 1, true)), ttl, c, k + 1, start)
  {
    var slow := More(Nobody, start - 1, c - 2 - k);
    MoreSize(Nobody, start - 1, c - 2 - k);
    RoundIsRun(log, ttl, c, start + ttl - 1, k + 1, slow, start - 1, start, start + ttl);
  }

  lemma {:induction false} CrowdIsRun(ttl: int, c: nat, k: nat, start: int)
    requires ttl > 0 && k < c
    ensures IsCrowded(Crowd(ttl, c, k, start), ttl, c, k, start)
  {
    if k == 0 {
      SlowProbesBegin(ttl, c, start);
    } else {
      CrowdIsRun(ttl, c, k - 1, start);
      CrowdOneMore(Crowd(ttl, c, k - 1, start), ttl, c, k - 1, start);
    }
  }

  /** The bound is reached for every `c`, by probes that all begin at one and the same moment. */
  lemma CrowdBoundIsReached(ttl: int, c: nat, start: int)
    requires ttl > 0 && c > 0
    ensures
      var log := Begin(Crowd(ttl, c, c - 1, start), start + ttl - 1, c);
      && IsLog(log, ttl) && ClockForward(log) && AtMostInside(log, c)
      && StartsIn(log, start, start + ttl) == Triangle(c)
  {
    CrowdIsRun(ttl, c, c - 1, start);
    BeginIsRun(Crowd(ttl, c, c - 1, start), ttl, c, start + ttl - 1, c, start, start + ttl);
  }
}
