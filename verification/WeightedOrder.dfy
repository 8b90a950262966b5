/** The weighted random order in which the routes of one model are tried. */
module WeightedOrder {
  import opened Options
  import opened Routing

  function Positive(weight: int): nat {
    if weight > 0 then weight else 0
  }

  /** The positive weights among the first `n`, summed. */
  function TotalUpTo(weights: seq<int>, n: nat): nat
    requires n <= |weights|
  {
    if n == 0 then 0 else TotalUpTo(weights, n - 1) + Positive(weights[n - 1])
  }

  function TotalWeight(weights: seq<int>): nat {
    TotalUpTo(weights, |weights|)
  }

  /** The position a scan from `i` stops at when it spends `pick` on the positive weights it passes. */
  function ScanFrom(weights: seq<int>, i: nat, pick: int): (hit: Option<nat>)
    requires i <= |weights|
    ensures hit.Some? ==> hit.value < |weights|
    decreases |weights| - i
  {
    if i == |weights| then None
    else if weights[i] > 0 && pick < weights[i] then Some(i)
    else ScanFrom(weights, i + 1, pick - Positive(weights[i]))
  }

  /** The picked position; the last one stands in should the scan ever run off the end. */
  function PickIndex(weights: seq<int>, draw: int): (i: nat)
    requires weights != []
    ensures i < |weights|
  {
    if TotalWeight(weights) == 0 then 0
    else
      match ScanFrom(weights, 0, draw)
      case None => |weights| - 1
      case Some(i) => i
  }

  /** `draw` falls into the slot that position `i` owns: its weight's worth of draws after those before it. */
  ghost predicate OwnsDraw(weights: seq<int>, i: nat, draw: int)
    requires i < |weights|
  {
    weights[i] > 0 && TotalUpTo(weights, i) <= draw < TotalUpTo(weights, i) + weights[i]
  }

  /** A draw below the total always lands in a slot: the scan never runs off the end. */
  lemma {:induction false} DrawLandsInSlot(weights: seq<int>, i: nat, draw: int)
    requires i <= |weights| && TotalUpTo(weights, i) <= draw < TotalWeight(weights)
    ensures
      var hit := ScanFrom(weights, i, draw - TotalUpTo(weights, i));
      hit.Some? && OwnsDraw(weights, hit.value, draw)
    decreases |weights| - i
  {
    if !OwnsDraw(weights, i, draw) {
      DrawLandsInSlot(weights, i + 1, draw);
    }
  }

  lemma {:induction false} TotalUpToGrows(weights: seq<int>, m: nat, n: nat)
    requires m <= n <= |weights|
    ensures TotalUpTo(weights, m) <= TotalUpTo(weights, n)
  {
    if m < n {
      TotalUpToGrows(weights, m, n - 1);
    }
  }

  /** Slots are disjoint, so the scan stops at the only owner of the draw. */
  lemma OwnerIsPicked(weights: seq<int>, i: nat, draw: int)
    requires i < |weights| && OwnsDraw(weights, i, draw)
    ensures 0 <= draw < TotalWeight(weights) && PickIndex(weights, draw) == i
  {
    TotalUpToGrows(weights, i + 1, |weights|);
    DrawLandsInSlot(weights, 0, draw);
    var hit := ScanFrom(weights, 0, draw).value;
    if hit < i {
      TotalUpToGrows(weights, hit + 1, i);
    } else if i < hit {
      TotalUpToGrows(weights, i + 1, hit);
    }
  }

  /** A position without weight is never picked while another one has some. */
  lemma PickHasWeight(weights: seq<int>, draw: int)
    requires weights != [] && 0 <= draw < TotalWeight(weights)
    ensures weights[PickIndex(weights, draw)] > 0
  {
    DrawLandsInSlot(weights, 0, draw);
  }

  // ---------- Orders as sequences of indices ----------

  predicate InRange(w: seq<int>, pool: seq<nat>) {
    forall i :: 0 <= i < |pool| ==> pool[i] < |w|
  }

  function WeightsOf(w: seq<int>, pool: seq<nat>): seq<int>
    requires InRange(w, pool)
  {
    seq(|pool|, i requires 0 <= i < |pool| => w[pool[i]])
  }

  function Without<T>(s: seq<T>, i: nat): (r: seq<T>)
    requires i < |s|
    ensures |r| == |s| - 1
    ensures multiset(s) == multiset(r) + multiset{s[i]}
  {
    assert s == s[..i] + [s[i]] + s[i + 1..];
    s[..i] + s[i + 1..]
  }

  /** A draw vector is admissible when each draw stays below the weight remaining in the pool. */
  predicate ValidDraws(w: seq<int>, pool: seq<nat>, draws: seq<int>)
    requires InRange(w, pool)
  {
    if pool == [] then draws == []
    else
      var ws := WeightsOf(w, pool);
      && draws != []
      && (TotalWeight(ws) > 0 ==> 0 <= draws[0] < TotalWeight(ws))
      && ValidDraws(w, Without(pool, PickIndex(ws, draws[0])), draws[1..])
  }

  lemma StaysInRange(w: seq<int>, pool: seq<nat>, i: nat)
    requires InRange(w, pool) && i < |pool|
    ensures InRange(w, Without(pool, i)) && pool[i] < |w|
  {
  }

  /** The order in which an admissible draw vector empties the pool. */
  function DrawOrder(w: seq<int>, pool: seq<nat>, draws: seq<int>): (order: seq<nat>)
    requires InRange(w, pool) && ValidDraws(w, pool, draws)
    ensures |order| == |pool| && InRange(w, order)
  {
    if pool == [] then []
    else
      var i := PickIndex(WeightsOf(w, pool), draws[0]);
      StaysInRange(w, pool, i);
      [pool[i]] + DrawOrder(w, Without(pool, i), draws[1..])
  }

  lemma PutBack(pool: seq<nat>, i: nat, order: seq<nat>)
    requires i < |pool| && order != [] && order[0] == pool[i]
    requires multiset(order[1..]) == multiset(Without(pool, i))
    ensures multiset(order) == multiset(pool)
  {
    assert order == [order[0]] + order[1..];
  }

  lemma DrawOrderUnfolds(w: seq<int>, pool: seq<nat>, draws: seq<int>)
    requires InRange(w, pool) && pool != [] && ValidDraws(w, pool, draws)
    ensures
      var i := PickIndex(WeightsOf(w, pool), draws[0]);
      && DrawOrder(w, pool, draws)[0] == pool[i]
      && DrawOrder(w, pool, draws)[1..] == DrawOrder(w, Without(pool, i), draws[1..])
  {
  }

  lemma {:induction false} DrawOrderIsPermutation(w: seq<int>, pool: seq<nat>, draws: seq<int>)
    requires InRange(w, pool) && ValidDraws(w, pool, draws)
    ensures multiset(DrawOrder(w, pool, draws)) == multiset(pool)
  {
    if pool != [] {
      var i := PickIndex(WeightsOf(w, pool), draws[0]);
      DrawOrderIsPermutation(w, Without(pool, i), draws[1..]);
      DrawOrderUnfolds(w, pool, draws);
      PutBack(pool, i, DrawOrder(w, pool, draws));
    }
  }

  // ---------- Counting draw vectors ----------

  function IndexOf(pool: seq<nat>, x: nat): (i: nat)
    requires x in pool
    ensures i < |pool| && pool[i] == x
  {
    if pool[0] == x then 0 else 1 + IndexOf(pool[1..], x)
  }

  /** The first index of an order is in the pool, and the rest of the order empties what is left. */
  lemma HeadIsPooled(pool: seq<nat>, order: seq<nat>)
    requires order != [] && multiset(pool) == multiset(order)
    ensures order[0] in pool
    ensures multiset(Without(pool, IndexOf(pool, order[0]))) == multiset(order[1..])
  {
    assert order == [order[0]] + order[1..];
    assert order[0] in multiset(pool);
    var rest := Without(pool, IndexOf(pool, order[0]));
    assert multiset(rest) == multiset(pool) - multiset{order[0]};
    assert multiset(order[1..]) == multiset(order) - multiset{order[0]};
  }

  function Prefixed(d: int, tails: set<seq<int>>): set<seq<int>> {
    set tail | tail in tails :: [d] + tail
  }

  /** Every tail, behind every first draw of a slot of the given width. */
  function PrefixedBySlot(start: int, width: nat, tails: set<seq<int>>): set<seq<int>> {
    if width == 0 then {}
    else PrefixedBySlot(start, width - 1, tails) + Prefixed(start + width - 1, tails)
  }

  /** The draw vectors that empty the pool in the given order. */
  function DrawsFor(w: seq<int>, pool: seq<nat>, order: seq<nat>): set<seq<int>>
    requires InRange(w, pool) && multiset(pool) == multiset(order)
    decreases |order|
  {
    if order == [] then {[]}
    else
      HeadIsPooled(pool, order);
      var i := IndexOf(pool, order[0]);
      PrefixedBySlot(TotalUpTo(WeightsOf(w, pool), i), Positive(w[order[0]]),
                     DrawsFor(w, Without(pool, i), order[1..]))
  }

  /** The product of the weights that a sequence of indices lists. */
  function Product(w: seq<int>, order: seq<nat>): int
    requires InRange(w, order)
  {
    if order == [] then 1 else w[order[0]] * Product(w, order[1..])
  }

  lemma {:induction false} PrefixedSize(d: int, tails: set<seq<int>>)
    ensures |Prefixed(d, tails)| == |tails|
  {
    if tails == {} {
      assert Prefixed(d, tails) == {};
    } else {
      var tail :| tail in tails;
      PrefixedSize(d, tails - {tail});
      assert Prefixed(d, tails) == Prefixed(d, tails - {tail}) + {[d] + tail};
      assert ([d] + tail)[1..] == tail;
      assert forall t :: t in tails - {tail} ==> ([d] + t)[1..] == t;
    }
  }

  lemma {:induction false} SlotMembers(start: int, width: nat, tails: set<seq<int>>, draws: seq<int>)
    ensures draws in PrefixedBySlot(start, width, tails) <==>
            draws != [] && start <= draws[0] < start + width && draws[1..] in tails
  {
    if width > 0 {
      SlotMembers(start, width - 1, tails, draws);
      var d := start + width - 1;
      if draws != [] && draws[0] == d && draws[1..] in tails {
        assert draws == [d] + draws[1..];
      }
    }
  }

  lemma SlotEndsBefore(start: int, width: nat, tails: set<seq<int>>)
    ensures PrefixedBySlot(start, width, tails) !! Prefixed(start + width, tails)
  {
    forall draws | draws in PrefixedBySlot(start, width, tails)
      ensures draws !in Prefixed(start + width, tails)
    {
      SlotMembers(start, width, tails, draws);
    }
  }

  lemma DisjointSizes<T>(a: set<T>, b: set<T>)
    requires a !! b
    ensures |a + b| == |a| + |b|
  {
  }

  /** A slot that is one wider holds one more copy of the tails. */
  lemma WiderSlot(start: int, width: nat, tails: set<seq<int>>)
    requires width > 0
    ensures |PrefixedBySlot(start, width, tails)| == |PrefixedBySlot(start, width - 1, tails)| + |tails|
  {
    SlotEndsBefore(start, width - 1, tails);
    PrefixedSize(start + width - 1, tails);
    DisjointSizes(PrefixedBySlot(start, width - 1, tails), Prefixed(start + width - 1, tails));
  }

  lemma OneMoreTime(n: int, k: int)
    ensures (n - 1) * k + k == n * k
  {
  }

  lemma {:induction false} SlotSize(start: int, width: nat, tails: set<seq<int>>)
    ensures |PrefixedBySlot(start, width, tails)| == width * |tails|
  {
    if width > 0 {
      SlotSize(start, width - 1, tails);
      WiderSlot(start, width, tails);
      OneMoreTime(width, |tails|);
    }
  }

  ghost predicate AllPositive(w: seq<int>) {
    forall i :: 0 <= i < |w| ==> w[i] > 0
  }

  /** With positive weights, the draws that pick position `i` are exactly those it owns. */
  lemma PickedIffOwned(weights: seq<int>, i: nat, draw: int)
    requires AllPositive(weights) && i < |weights|
    ensures TotalWeight(weights) > 0
    ensures 0 <= draw < TotalWeight(weights) && PickIndex(weights, draw) == i <==> OwnsDraw(weights, i, draw)
  {
    TotalUpToGrows(weights, 1, |weights|);
    if OwnsDraw(weights, i, draw) {
      OwnerIsPicked(weights, i, draw);
    } else if 0 <= draw < TotalWeight(weights) {
      DrawLandsInSlot(weights, 0, draw);
    }
  }

  lemma SameByHeadAndTail<T>(a: seq<T>, b: seq<T>)
    requires a != [] && b != []
    ensures a == b <==> a[0] == b[0] && a[1..] == b[1..]
  {
    assert a == [a[0]] + a[1..] && b == [b[0]] + b[1..];
  }

  /** The draws produce the order exactly when the first one picks its head and the others produce its tail. */
  lemma DrawOrderStep(w: seq<int>, pool: seq<nat>, order: seq<nat>, draws: seq<int>, i: nat)
    requires AllPositive(w) && InRange(w, pool) && NoRepeats(pool)
    requires order != [] && i < |pool| && pool[i] == order[0]
    ensures
      ValidDraws(w, pool, draws) && DrawOrder(w, pool, draws) == order <==>
      && draws != [] && OwnsDraw(WeightsOf(w, pool), i, draws[0])
      && ValidDraws(w, Without(pool, i), draws[1..])
      && DrawOrder(w, Without(pool, i), draws[1..]) == order[1..]
  {
    if draws != [] {
      PickedIffOwned(WeightsOf(w, pool), i, draws[0]);
      if ValidDraws(w, pool, draws) {
        DrawOrderUnfolds(w, pool, draws);
        SameByHeadAndTail(DrawOrder(w, pool, draws), order);
      }
    }
  }

  lemma WithoutKeepsDistinct(pool: seq<nat>, i: nat)
    requires NoRepeats(pool) && i < |pool|
    ensures NoRepeats(Without(pool, i))
  {
  }

  /** `DrawsFor` collects exactly the admissible draw vectors that produce the order. */
  lemma {:induction false} DrawsForExact(w: seq<int>, pool: seq<nat>, order: seq<nat>, draws: seq<int>)
    requires AllPositive(w) && InRange(w, pool) && NoRepeats(pool) && multiset(pool) == multiset(order)
    ensures draws in DrawsFor(w, pool, order) <==> ValidDraws(w, pool, draws) && DrawOrder(w, pool, draws) == order
    decreases |order|
  {
    if order == [] {
      assert |pool| == |multiset(pool)|;
    } else {
      HeadIsPooled(pool, order);
      var ws, i := WeightsOf(w, pool), IndexOf(pool, order[0]);
      SlotMembers(TotalUpTo(ws, i), w[order[0]], DrawsFor(w, Without(pool, i), order[1..]), draws);
      DrawOrderStep(w, pool, order, draws, i);
      WithoutKeepsDistinct(pool, i);
      if draws != [] {
        DrawsForExact(w, Without(pool, i), order[1..], draws[1..]);
      }
    }
  }

  /** The number of draw vectors that produce an order is the product of the weights along it. */
  lemma {:induction false} DrawsForSize(w: seq<int>, pool: seq<nat>, order: seq<nat>)
    requires AllPositive(w) && InRange(w, pool) && InRange(w, order) && multiset(pool) == multiset(order)
    ensures |DrawsFor(w, pool, order)| == Product(w, order)
    decreases |order|
  {
    if order != [] {
      HeadIsPooled(pool, order);
      var i := IndexOf(pool, order[0]);
      var tails := DrawsFor(w, Without(pool, i), order[1..]);
      DrawsForSize(w, Without(pool, i), order[1..]);
      SlotSize(TotalUpTo(WeightsOf(w, pool), i), w[order[0]], tails);
    }
  }

  lemma WithoutLater(pool: seq<nat>, i: nat)
    requires 0 < i < |pool|
    ensures Without(pool, i)[0] == pool[0] && Without(pool, i)[1..] == Without(pool[1..], i - 1)
  {
  }

  lemma SwapFactors(a: int, b: int, c: int)
    ensures a * (b * c) == b * (a * c)
  {
  }

  lemma {:induction false} ProductPull(w: seq<int>, pool: seq<nat>, i: nat)
    requires InRange(w, pool) && i < |pool|
    ensures Product(w, pool) == w[pool[i]] * Product(w, Without(pool, i))
  {
    if i == 0 {
      assert Without(pool, 0) == pool[1..];
    } else {
      ProductPull(w, pool[1..], i - 1);
      WithoutLater(pool, i);
      SwapFactors(w[pool[0]], w[pool[i]], Product(w, Without(pool[1..], i - 1)));
    }
  }

  lemma {:induction false} ProductAlongPermutation(w: seq<int>, pool: seq<nat>, order: seq<nat>)
    requires InRange(w, pool) && InRange(w, order) && multiset(pool) == multiset(order)
    ensures Product(w, pool) == Product(w, order)
    decreases |order|
  {
    if order == [] {
      assert |pool| == |multiset(pool)|;
    } else {
      HeadIsPooled(pool, order);
      var i := IndexOf(pool, order[0]);
      ProductPull(w, pool, i);
      ProductAlongPermutation(w, Without(pool, i), order[1..]);
    }
  }

  function Indices(n: nat): (pool: seq<nat>)
    ensures |pool| == n && NoRepeats(pool)
    ensures forall i :: 0 <= i < n ==> pool[i] == i
  {
    seq(n, i => i)
  }

  /**
   * The weighted order law: for positive weights, each of the possible orders is produced by the same number of
   * admissible draw vectors, the product of all weights.
   */
  lemma WeightedOrderLaw(w: seq<int>, order: seq<nat>)
    requires AllPositive(w) && multiset(order) == multiset(Indices(|w|))
    ensures forall draws ::
      draws in DrawsFor(w, Indices(|w|), order) <==>
      ValidDraws(w, Indices(|w|), draws) && DrawOrder(w, Indices(|w|), draws) == order
    ensures |DrawsFor(w, Indices(|w|), order)| == Product(w, Indices(|w|))
  {
    var pool := Indices(|w|);
    forall draws {
      DrawsForExact(w, pool, order, draws);
    }
    forall i | 0 <= i < |order|
      ensures order[i] < |w|
    {
      assert order[i] in multiset(order);
      assert order[i] in pool;
    }
    DrawsForSize(w, pool, order);
    ProductAlongPermutation(w, pool, order);
  }

  // ---------- The drawing loops ----------

  function RouteWeights(candidates: seq<Route>): seq<int> {
    seq(|candidates|, i requires 0 <= i < |candidates| => candidates[i].weight)
  }

  /** What the routes before position `n` weigh, none less than nothing. */
  function WeightBefore(routes: seq<Route>, n: nat): nat
    requires n <= |routes|
  {
    if n == 0 then 0
    else WeightBefore(routes, n - 1) + if routes[n - 1].weight > 0 then routes[n - 1].weight else 0
  }

  function WeightOf(routes: seq<Route>): nat {
    WeightBefore(routes, |routes|)
  }

  lemma {:induction false} WeightsAddUp(routes: seq<Route>, n: nat)
    requires n <= |routes|
    ensures TotalUpTo(RouteWeights(routes), n) == WeightBefore(routes, n)
  {
    if n > 0 {
      WeightsAddUp(routes, n - 1);
    }
  }

  /** The route picked is the one whose weight the draw falls into, the weights laid end to end. */
  lemma PickFollowsWeights(routes: seq<Route>, draw: int)
    requires routes != [] && 0 <= draw < WeightOf(routes)
    ensures
      var i := PickIndex(RouteWeights(routes), draw);
      WeightBefore(routes, i) <= draw < WeightBefore(routes, i) + routes[i].weight
  {
    var ws := RouteWeights(routes);
    WeightsAddUp(routes, |routes|);
    DrawLandsInSlot(ws, 0, draw);
    WeightsAddUp(routes, PickIndex(ws, draw));
  }

  /** All weights of the routes multiplied. */
  function WeightProduct(routes: seq<Route>): int {
    if routes == [] then 1 else routes[0].weight * WeightProduct(routes[1..])
  }

  lemma {:induction false} ProductOfWeights(routes: seq<Route>, k: nat)
    requires k <= |routes|
    ensures Product(RouteWeights(routes), Indices(|routes|)[k..]) == WeightProduct(routes[k..])
    decreases |routes| - k
  {
    if k < |routes| {
      ProductOfWeights(routes, k + 1);
      assert Indices(|routes|)[k..][1..] == Indices(|routes|)[k + 1..] && routes[k..][1..] == routes[k + 1..];
    }
  }

  /**
   * The law for routes of positive weights: whatever the order, it is the outcome of as many draw vectors as the
   * weights of all routes multiply to, out of all those that stay below the weight left at each draw.
   */
  lemma RouteOrderLaw(routes: seq<Route>, order: seq<nat>) returns (producing: set<seq<int>>)
    requires forall i :: 0 <= i < |routes| ==> routes[i].weight > 0
    requires multiset(order) == multiset(Indices(|routes|))
    ensures forall draws ::
      draws in producing <==>
      ValidDraws(RouteWeights(routes), Indices(|routes|), draws)
      && DrawOrder(RouteWeights(routes), Indices(|routes|), draws) == order
    ensures |producing| == WeightProduct(routes)
  {
    WeightedOrderLaw(RouteWeights(routes), order);
    producing := DrawsFor(RouteWeights(routes), Indices(|routes|), order);
    ProductOfWeights(routes, 0);
    assert Indices(|routes|)[0..] == Indices(|routes|) && routes[0..] == routes;
  }

  /** A random source: `random(k, n)` is its answer to the `k`th question for a number below `n`. */
  type Random = (nat, int) -> int

  ghost predicate IsRandom(random: Random) {
    forall k, n :: n > 0 ==> 0 <= random(k, n) < n
  }

  method Rand(random: Random, k: nat, n: int) returns (draw: int)
    requires IsRandom(random)
    ensures draw == if n > 1 then random(k, n) else 0
    ensures 0 <= draw && (n > 0 ==> draw < n)
  {
    if n <= 1 {
      return 0;
    }
    draw := random(k, n);
  }

  method WeightedPickIndex(candidates: seq<Route>, random: Random, k: nat) returns (idx: nat, ghost draw: int)
    requires candidates != [] && IsRandom(random)
    ensures draw == if WeightOf(candidates) > 1 then random(k, WeightOf(candidates)) else 0
    ensures idx < |candidates| && idx == PickIndex(RouteWeights(candidates), draw)
    ensures WeightOf(candidates) > 0 ==>
      WeightBefore(candidates, idx) <= draw < WeightBefore(candidates, idx) + candidates[idx].weight
    ensures WeightOf(candidates) == 0 ==> idx == 0
    ensures TotalWeight(RouteWeights(candidates)) == WeightOf(candidates)
  {
    ghost var ws := RouteWeights(candidates);
    WeightsAddUp(candidates, |candidates|);
    var total := 0;
    for i := 0 to |candidates|
      invariant total == TotalUpTo(ws, i)
    {
      if candidates[i].weight > 0 {
        total := total + candidates[i].weight;
      }
    }
    if total <= 0 {
      return 0, 0;
    }

    var pick := Rand(random, k, total);
    draw := pick;
    for i := 0 to |candidates|
      invariant ScanFrom(ws, 0, draw) == ScanFrom(ws, i, pick)
    {
      var weight := candidates[i].weight;
      if weight <= 0 {
        continue;
      }
      if pick < weight {
        PickFollowsWeights(candidates, draw);
        return i, draw;
      }
      pick := pick - weight;
    }
    DrawLandsInSlot(ws, 0, draw);
    assert false;
  }

  /** A run of the drawing loop: the draws have moved `picked` out of the pool and left the others behind. */
  ghost predicate Drains(w: seq<int>, pool: seq<nat>, draws: seq<int>, picked: seq<nat>, left: seq<nat>)
    requires InRange(w, pool)
  {
    if draws == [] then picked == [] && left == pool
    else
      && pool != [] && picked != []
      && var ws := WeightsOf(w, pool);
      var i := PickIndex(ws, draws[0]);
      && (TotalWeight(ws) > 0 ==> 0 <= draws[0] < TotalWeight(ws))
      && picked[0] == pool[i]
      && Drains(w, Without(pool, i), draws[1..], picked[1..], left)
  }

  lemma AppendTail<T>(s: seq<T>, x: T)
    requires s != []
    ensures (s + [x])[0] == s[0] && (s + [x])[1..] == s[1..] + [x]
  {
  }

  lemma {:induction false} DrainsOneMore(w: seq<int>, pool: seq<nat>, draws: seq<int>, picked: seq<nat>,
                                         left: seq<nat>, draw: int)
    requires InRange(w, pool) && Drains(w, pool, draws, picked, left)
    requires InRange(w, left) && left != []
    requires
      var total := TotalWeight(WeightsOf(w, left));
      total > 0 ==> 0 <= draw < total
    ensures
      var i := PickIndex(WeightsOf(w, left), draw);
      Drains(w, pool, draws + [draw], picked + [left[i]], Without(left, i))
  {
    if draws != [] {
      var first := PickIndex(WeightsOf(w, pool), draws[0]);
      DrainsOneMore(w, Without(pool, first), draws[1..], picked[1..], left, draw);
      AppendTail(draws, draw);
      AppendTail(picked, left[PickIndex(WeightsOf(w, left), draw)]);
    }
  }

  lemma {:induction false} DrainedPoolIsOrdered(w: seq<int>, pool: seq<nat>, draws: seq<int>, picked: seq<nat>)
    requires InRange(w, pool) && Drains(w, pool, draws, picked, [])
    ensures ValidDraws(w, pool, draws) && DrawOrder(w, pool, draws) == picked
  {
    if draws != [] {
      DrainedPoolIsOrdered(w, Without(pool, PickIndex(WeightsOf(w, pool), draws[0])), draws[1..], picked[1..]);
      DrawOrderUnfolds(w, pool, draws);
      SameByHeadAndTail(DrawOrder(w, pool, draws), picked);
    }
  }

  /** The routes are the candidates that the indices list. */
  ghost predicate Lists(candidates: seq<Route>, order: seq<nat>, routes: seq<Route>) {
    && |order| == |routes|
    && forall i :: 0 <= i < |order| ==> order[i] < |candidates| && routes[i] == candidates[order[i]]
  }

  lemma ListsWithout(candidates: seq<Route>, order: seq<nat>, routes: seq<Route>, i: nat)
    requires Lists(candidates, order, routes) && i < |order|
    ensures Lists(candidates, Without(order, i), Without(routes, i))
  {
  }

  lemma ListsOneMore(candidates: seq<Route>, order: seq<nat>, routes: seq<Route>, x: nat)
    requires Lists(candidates, order, routes) && x < |candidates|
    ensures Lists(candidates, order + [x], routes + [candidates[x]])
  {
  }

  lemma ListsWeights(candidates: seq<Route>, order: seq<nat>, routes: seq<Route>)
    requires Lists(candidates, order, routes)
    ensures InRange(RouteWeights(candidates), order)
    ensures RouteWeights(routes) == WeightsOf(RouteWeights(candidates), order)
  {
  }

  lemma OneMoved(ordered: seq<Route>, pool: seq<Route>, i: nat)
    requires i < |pool|
    ensures multiset(ordered + [pool[i]]) + multiset(Without(pool, i)) == multiset(ordered) + multiset(pool)
  {
  }

  /** The order that admissible draws give the candidates; fewer than two need no draw. */
  ghost predicate IsDrawn(candidates: seq<Route>, draws: seq<int>, ordered: seq<Route>) {
    if |candidates| <= 1 then ordered == candidates
    else
      var w, all := RouteWeights(candidates), Indices(|candidates|);
      ValidDraws(w, all, draws) && Lists(candidates, DrawOrder(w, all, draws), ordered)
  }

  lemma {:induction false} WeightConcat(a: seq<Route>, b: seq<Route>, n: nat)
    requires n <= |a + b|
    ensures WeightBefore(a + b, n) ==
            if n <= |a| then WeightBefore(a, n) else WeightOf(a) + WeightBefore(b, n - |a|)
  {
    if n > 0 {
      WeightConcat(a, b, n - 1);
    }
  }

  lemma WeightWithout(pool: seq<Route>, i: nat)
    requires i < |pool|
    ensures WeightOf([pool[i]]) + WeightOf(Without(pool, i)) == WeightOf(pool)
  {
    var a, x, b := pool[..i], [pool[i]], pool[i + 1..];
    assert pool == (a + x) + b && Without(pool, i) == a + b;
    WeightConcat(a + x, b, |pool|);
    WeightConcat(a, x, |a + x|);
    WeightConcat(a, b, |a + b|);
  }

  /** In the middle of the loop the routes still to be placed are those behind position `k` and the pool. */
  ghost predicate IsAnswerSoFar(random: Random, ordered: seq<Route>, pool: seq<Route>, draws: seq<int>, k: nat)
    requires k < |draws| == |ordered|
  {
    var left := WeightOf(ordered[k..]) + WeightOf(pool);
    draws[k] == if left > 1 then random(k, left) else 0
  }

  lemma AnswersOneMore(random: Random, ordered: seq<Route>, pool: seq<Route>, draws: seq<int>, i: nat, draw: int)
    requires |draws| == |ordered| && i < |pool|
    requires forall k: nat :: k < |draws| ==> IsAnswerSoFar(random, ordered, pool, draws, k)
    requires draw == if WeightOf(pool) > 1 then random(|ordered|, WeightOf(pool)) else 0
    ensures forall k: nat :: k <= |draws| ==>
      IsAnswerSoFar(random, ordered + [pool[i]], Without(pool, i), draws + [draw], k)
  {
    WeightWithout(pool, i);
    forall k: nat | k <= |draws|
      ensures IsAnswerSoFar(random, ordered + [pool[i]], Without(pool, i), draws + [draw], k)
    {
      assert (ordered + [pool[i]])[k..] == ordered[k..] + [pool[i]];
      WeightConcat(ordered[k..], [pool[i]], |ordered[k..]| + 1);
      if k < |draws| {
        assert IsAnswerSoFar(random, ordered, pool, draws, k);
      }
    }
  }

  ghost predicate IsAnswer(random: Random, ordered: seq<Route>, draws: seq<int>, k: nat)
    requires k < |draws| == |ordered|
  {
    var left := WeightOf(ordered[k..]);
    draws[k] == if left > 1 then random(k, left) else 0
  }

  /** The draws are the random source's, each below the weight of the routes that are still to be placed. */
  ghost predicate AreAnswers(random: Random, ordered: seq<Route>, draws: seq<int>) {
    |draws| == |ordered| && forall k: nat :: k < |draws| ==> IsAnswer(random, ordered, draws, k)
  }

  /** All candidates, in the order that the random source's draws give them. */
  ghost predicate IsWeighted(random: Random, candidates: seq<Route>, ordered: seq<Route>) {
    && multiset(ordered) == multiset(candidates)
    && exists draws :: IsDrawn(candidates, draws, ordered) && (|candidates| > 1 ==> AreAnswers(random, ordered, draws))
  }

  /** The loop has placed `ordered` by these draws, and the routes of the pool are left. */
  ghost predicate IsUnderWay(candidates: seq<Route>, random: Random, draws: seq<int>, ordered: seq<Route>,
                             pool: seq<Route>, picked: seq<nat>, left: seq<nat>) {
    && Lists(candidates, left, pool) && Lists(candidates, picked, ordered)
    && multiset(ordered) + multiset(pool) == multiset(candidates)
    && Drains(RouteWeights(candidates), Indices(|candidates|), draws, picked, left)
    && |draws| == |ordered| && forall k: nat :: k < |draws| ==> IsAnswerSoFar(random, ordered, pool, draws, k)
  }

  lemma OnePlaced(candidates: seq<Route>, random: Random, draws: seq<int>, ordered: seq<Route>, pool: seq<Route>,
                  picked: seq<nat>, left: seq<nat>, idx: nat, draw: int)
    requires IsUnderWay(candidates, random, draws, ordered, pool, picked, left) && pool != [] && idx < |pool|
    requires draw == if WeightOf(pool) > 1 then random(|ordered|, WeightOf(pool)) else 0
    requires idx == PickIndex(RouteWeights(pool), draw) && TotalWeight(RouteWeights(pool)) == WeightOf(pool)
    requires WeightOf(pool) > 0 ==> 0 <= draw < WeightOf(pool)
    ensures IsUnderWay(candidates, random, draws + [draw], ordered + [pool[idx]], Without(pool, idx),
                       picked + [left[idx]], Without(left, idx))
  {
    ListsWeights(candidates, left, pool);
    DrainsOneMore(RouteWeights(candidates), Indices(|candidates|), draws, picked, left, draw);
    ListsWithout(candidates, left, pool, idx);
    ListsOneMore(candidates, picked, ordered, left[idx]);
    OneMoved(ordered, pool, idx);
    AnswersOneMore(random, ordered, pool, draws, idx, draw);
  }

  lemma AllPlaced(candidates: seq<Route>, random: Random, draws: seq<int>, ordered: seq<Route>, picked: seq<nat>,
                  left: seq<nat>)
    requires IsUnderWay(candidates, random, draws, ordered, [], picked, left) && |candidates| > 1
    ensures IsDrawn(candidates, draws, ordered) && multiset(ordered) == multiset(candidates)
    ensures AreAnswers(random, ordered, draws)
  {
    DrainedPoolIsOrdered(RouteWeights(candidates), Indices(|candidates|), draws, picked);
    forall k: nat | k < |draws|
      ensures IsAnswer(random, ordered, draws, k)
    {
      assert IsAnswerSoFar(random, ordered, [], draws, k);
    }
  }

  method WeightedOrder(candidates: seq<Route>, random: Random) returns (ordered: seq<Route>, ghost draws: seq<int>)
    requires IsRandom(random)
    ensures IsDrawn(candidates, draws, ordered)
    ensures multiset(ordered) == multiset(candidates)
    ensures |candidates| > 1 ==> AreAnswers(random, ordered, draws)
  {
    draws := [];
    if |candidates| <= 1 {
      return candidates, [];
    }
    var pool := candidates;
    ordered := [];
    ghost var left, picked := Indices(|candidates|), [];
    while |pool| > 0
      invariant IsUnderWay(candidates, random, draws, ordered, pool, picked, left)
    {
      var idx, draw := WeightedPickIndex(pool, random, |ordered|);
      OnePlaced(candidates, random, draws, ordered, pool, picked, left, idx, draw);
      ordered := ordered + [pool[idx]];
      pool := Without(pool, idx);
      left, picked, draws := Without(left, idx), picked + [left[idx]], draws + [draw];
    }
    AllPlaced(candidates, random, draws, ordered, picked, left);
  }
}
