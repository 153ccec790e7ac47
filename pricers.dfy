/**
 * The two memoized lattice pricers. Each owns a cache from node (numUs, step)
 * to price, filled in place while the recursion descends from the root; the
 * cache is keyed by the pair, which CacheKey.KeyInjective shows is as good as
 * the text key the pricers build.
 */
module Pricers {
  import opened Wrappers
  import opened Instruments
  import opened Lattice
  import opened Valuation

  /** The last step the recursion from `step` descends to. */
  function Deepest(numSteps: int, step: int): int {
    if step < numSteps then numSteps else step
  }

  /**
   * The nodes the recursion from (numUs, step) can reach: at most
   * Deepest(numSteps, step) - step steps further, with at most as many
   * up-moves as steps taken.
   */
  predicate Reachable(numSteps: int, numUs: int, step: int, key: (int, int)) {
    step <= key.1 <= Deepest(numSteps, step) && 0 <= key.0 - numUs <= key.1 - step
  }

  /** The set of nodes reachable from (numUs, step). */
  ghost function SubLattice(numSteps: int, numUs: int, step: int): (nodes: set<(int, int)>)
    ensures forall key :: key in nodes <==> Reachable(numSteps, numUs, step, key)
  {
    set k, t | step <= t <= Deepest(numSteps, step) && numUs <= k <= numUs + (t - step) :: (k, t)
  }

  /** A node reaches itself, and everything its children reach. */
  lemma SubLatticeOfChildren(numSteps: int, numUs: int, step: int)
    requires step < numSteps
    ensures (numUs, step) in SubLattice(numSteps, numUs, step)
    ensures SubLattice(numSteps, numUs + 1, step + 1) <= SubLattice(numSteps, numUs, step)
    ensures SubLattice(numSteps, numUs, step + 1) <= SubLattice(numSteps, numUs, step)
  {
  }

  /**
   * The nodes the recursion from (numUs, step) visits, walked the way it
   * walks: the node itself, then its up child's and its down child's nodes
   * while step < numSteps.
   */
  ghost function Visited(numSteps: int, numUs: int, step: int): set<(int, int)>
    decreases numSteps - step
  {
    {(numUs, step)} +
    (if step < numSteps then Visited(numSteps, numUs + 1, step + 1) + Visited(numSteps, numUs, step + 1) else {})
  }

  /** SubLattice holds exactly the nodes the recursion visits: no more and no fewer. */
  lemma {:induction false} SubLatticeIsVisited(numSteps: int, numUs: int, step: int)
    ensures SubLattice(numSteps, numUs, step) == Visited(numSteps, numUs, step)
    decreases numSteps - step
  {
    var nodes := SubLattice(numSteps, numUs, step);
    if step < numSteps {
      SubLatticeIsVisited(numSteps, numUs + 1, step + 1);
      SubLatticeIsVisited(numSteps, numUs, step + 1);
      var up := SubLattice(numSteps, numUs + 1, step + 1);
      var down := SubLattice(numSteps, numUs, step + 1);
      forall key | key in nodes
        ensures key == (numUs, step) || key in up || key in down
      {
        if key.1 > step && key.0 > numUs {
          assert Reachable(numSteps, numUs + 1, step + 1, key);
        } else if key.1 > step {
          assert Reachable(numSteps, numUs, step + 1, key);
        }
      }
      SubLatticeOfChildren(numSteps, numUs, step);
    } else {
      forall key | key in nodes
        ensures key == (numUs, step)
      {
        assert Reachable(numSteps, numUs, step, key);
      }
    }
  }

  /**
   * Pricing from the root (0, 0) of a lattice with numSteps >= 0 only ever
   * caches nodes with 0 <= numUs <= step <= numSteps.
   */
  lemma RootSubLatticeBounds(numSteps: int, key: (int, int))
    requires numSteps >= 0 && key in SubLattice(numSteps, 0, 0)
    ensures 0 <= key.0 <= key.1 <= numSteps
  {
  }

  /** The plain pricer: payoff at maturity, discounted expectation before, early exercise when American. */
  class BinomialTreePricer {
    const timeStep: real
    const numSteps: int
    const riskFreeRate: real
    const derivative: Instrument
    const u: real
    const d: real
    const p: real
    /** exp(-riskFreeRate * timeStep), the per-step discount factor. */
    const pvfa: real
    var treeCache: map<(int, int), real>

    /** The lattice this pricer prices on. */
    function Params(): LatticeParams {
      LatticeParams(derivative, numSteps, u, p, pvfa)
    }

    /** Every cached price is the value of its node. */
    ghost predicate Valid()
      reads this
    {
      WellFormed(Params()) &&
      forall key :: key in treeCache ==> treeCache[key] == NodeValue(Params(), key.0, key.1)
    }

    /**
     * u, p and the discount factor come from exp and sqrt of the market
     * parameters; they are given here, with u positive as exp makes it.
     */
    constructor (timeStep: real, numSteps: int, riskFreeRate: real, derivative: Instrument,
                 u: real, p: real, pvfa: real)
      requires u > 0.0 && PayoffDefined(derivative)
      ensures this.timeStep == timeStep && this.numSteps == numSteps && this.riskFreeRate == riskFreeRate
      ensures this.derivative == derivative && this.u == u && this.p == p && this.pvfa == pvfa
      ensures d == 1.0 / u
      ensures treeCache == map[]
      ensures Valid()
    {
      this.timeStep := timeStep;
      this.numSteps := numSteps;
      this.riskFreeRate := riskFreeRate;
      this.derivative := derivative;
      this.u := u;
      this.d := 1.0 / u;
      this.p := p;
      this.pvfa := pvfa;
      this.treeCache := map[];
    }

    /** The start level moved numUs times up by u and step - numUs times down by d. */
    function UnderlyingLevelAfterMovements(numUs: int, step: int): (level: real)
      requires u > 0.0
      ensures level == LevelAt(derivative.underlying.startLevel, u, numUs, step)
    {
      NodeLevel(Params(), numUs, step)
    }

    method AddToCache(numUs: int, step: int, price: real)
      modifies this
      ensures treeCache == old(treeCache)[(numUs, step) := price]
    {
      treeCache := treeCache[(numUs, step) := price];
    }

    /** The cached price of a node, or None when the node has not been priced. */
    method GetFromCache(numUs: int, step: int) returns (price: Option<real>)
      ensures price.Some? <==> (numUs, step) in treeCache
      ensures price.Some? ==> price.value == treeCache[(numUs, step)]
    {
      price := if (numUs, step) in treeCache then Some(treeCache[(numUs, step)]) else None;
    }

    /**
     * Price of node (numUs, step), the root by default. A cached node is
     * returned as it is and the cache is left alone; otherwise the node and
     * the nodes below it that were missing are priced and cached. No entry is
     * ever overwritten or removed, and every entry stays the value of its node.
     */
    method PriceDerivativeOptimized(numUs: int := 0, step: int := 0) returns (price: real)
      requires Valid()
      modifies this
      ensures Valid()
      ensures price == NodeValue(Params(), numUs, step)
      ensures (numUs, step) in treeCache
      ensures (numUs, step) in old(treeCache) ==> price == old(treeCache)[(numUs, step)] && treeCache == old(treeCache)
      ensures forall key :: key in old(treeCache) ==> key in treeCache && treeCache[key] == old(treeCache)[key]
      ensures treeCache.Keys - old(treeCache).Keys <= SubLattice(numSteps, numUs, step)
      decreases numSteps - step
    {
      var cached := GetFromCache(numUs, step);
      if cached.None? {
        if step >= numSteps {
          var level := UnderlyingLevelAfterMovements(numUs, step);
          price := Payoff(derivative, level);
          AddToCache(numUs, step, price);
        } else {
          var level := UnderlyingLevelAfterMovements(numUs, step);
          var upPrice := PriceDerivativeOptimized(numUs + 1, step + 1);
          var downPrice := PriceDerivativeOptimized(numUs, step + 1);
          SubLatticeOfChildren(numSteps, numUs, step);
          price := Continuation(Params(), upPrice, downPrice);
          if derivative.optionClass == American {
            var payoff := Payoff(derivative, level);
            price := Max(price, payoff);
          }
          AddToCache(numUs, step, price);
        }
      } else {
        price := cached.value;
      }
    }
  }

  /**
   * The pricer with the knockout overlay: within the first three years a node
   * whose return is below the knockout threshold is worth 0, decided before
   * the cache is consulted.
   */
  class BinomialTreeQ3Pricer {
    const timeStep: real
    const numSteps: int
    const riskFreeRate: real
    const derivative: Instrument
    const knockout: real
    const u: real
    const d: real
    const p: real
    /** exp(-riskFreeRate * timeStep), the per-step discount factor. */
    const pvfa: real
    var treeCache: map<(int, int), real>

    function Params(): LatticeParams {
      LatticeParams(derivative, numSteps, u, p, pvfa)
    }

    function Overlay(): Barrier {
      Barrier(timeStep, knockout)
    }

    /** Every cached price is the knockout-aware value of its node, and no knocked-out node is cached. */
    ghost predicate Valid()
      reads this
    {
      KnockoutWellFormed(Params()) &&
      forall key :: key in treeCache ==>
        !KnockedOut(Params(), Overlay(), key.0, key.1) &&
        treeCache[key] == KnockoutValue(Params(), Overlay(), key.0, key.1)
    }

    /** As for the plain pricer, with the knockout threshold as a decimal return. */
    constructor (timeStep: real, numSteps: int, riskFreeRate: real, derivative: Instrument, knockout: real,
                 u: real, p: real, pvfa: real)
      requires u > 0.0 && derivative.underlying.startLevel != 0.0
      ensures this.timeStep == timeStep && this.numSteps == numSteps && this.riskFreeRate == riskFreeRate
      ensures this.derivative == derivative && this.knockout == knockout
      ensures this.u == u && this.p == p && this.pvfa == pvfa
      ensures d == 1.0 / u
      ensures treeCache == map[]
      ensures Valid()
    {
      this.timeStep := timeStep;
      this.numSteps := numSteps;
      this.riskFreeRate := riskFreeRate;
      this.derivative := derivative;
      this.knockout := knockout;
      this.u := u;
      this.d := 1.0 / u;
      this.p := p;
      this.pvfa := pvfa;
      this.treeCache := map[];
    }

    /** The start level moved numUs times up by u and step - numUs times down by d. */
    function UnderlyingLevelAfterMovements(numUs: int, step: int): (level: real)
      requires u > 0.0
      ensures level == LevelAt(derivative.underlying.startLevel, u, numUs, step)
    {
      NodeLevel(Params(), numUs, step)
    }

    method AddToCache(numUs: int, step: int, price: real)
      modifies this
      ensures treeCache == old(treeCache)[(numUs, step) := price]
    {
      treeCache := treeCache[(numUs, step) := price];
    }

    /** The cached price of a node, or None when the node has not been priced. */
    method GetFromCache(numUs: int, step: int) returns (price: Option<real>)
      ensures price.Some? <==> (numUs, step) in treeCache
      ensures price.Some? ==> price.value == treeCache[(numUs, step)]
    {
      price := if (numUs, step) in treeCache then Some(treeCache[(numUs, step)]) else None;
    }

    /**
     * Price of node (numUs, step) under the knockout overlay, the root by
     * default. A knocked-out node returns 0 and leaves the cache untouched,
     * even when the node could be found in it; otherwise the node is priced
     * by CachedPrice, like the plain pricer but from knockout-aware children.
     */
    method PriceDerivativeOptimized(numUs: int := 0, step: int := 0) returns (price: real)
      requires Valid()
      modifies this
      ensures Valid()
      ensures price == KnockoutValue(Params(), Overlay(), numUs, step)
      ensures KnockedOut(Params(), Overlay(), numUs, step) ==> price == 0.0 && treeCache == old(treeCache)
      ensures !KnockedOut(Params(), Overlay(), numUs, step) ==> (numUs, step) in treeCache
      ensures (numUs, step) in old(treeCache) ==> price == old(treeCache)[(numUs, step)] && treeCache == old(treeCache)
      ensures forall key :: key in old(treeCache) ==> key in treeCache && treeCache[key] == old(treeCache)[key]
      ensures treeCache.Keys - old(treeCache).Keys <= SubLattice(numSteps, numUs, step)
      decreases numSteps - step, 1
    {
      if step as real * timeStep <= ObservationYears {
        var underlyingPerformance :=
          PerformanceInPercentage(derivative.underlying, UnderlyingLevelAfterMovements(numUs, step));
        if underlyingPerformance < knockout {
          assert KnockedOut(Params(), Overlay(), numUs, step);
          return 0.0;
        }
      }
      assert !KnockedOut(Params(), Overlay(), numUs, step);
      price := CachedPrice(numUs, step);
    }

    /** The memoized part of PriceDerivativeOptimized, for a node that is not knocked out. */
    method CachedPrice(numUs: int, step: int) returns (price: real)
      requires Valid()
      requires !KnockedOut(Params(), Overlay(), numUs, step)
      modifies this
      ensures Valid()
      ensures price == KnockoutValue(Params(), Overlay(), numUs, step)
      ensures (numUs, step) in treeCache
      ensures (numUs, step) in old(treeCache) ==> price == old(treeCache)[(numUs, step)] && treeCache == old(treeCache)
      ensures forall key :: key in old(treeCache) ==> key in treeCache && treeCache[key] == old(treeCache)[key]
      ensures treeCache.Keys - old(treeCache).Keys <= SubLattice(numSteps, numUs, step)
      decreases numSteps - step, 0
    {
      var cached := GetFromCache(numUs, step);
      if cached.None? {
        if step >= numSteps {
          var level := UnderlyingLevelAfterMovements(numUs, step);
          price := Payoff(derivative, level);
          AddToCache(numUs, step, price);
        } else {
          var level := UnderlyingLevelAfterMovements(numUs, step);
          var upPrice := PriceDerivativeOptimized(numUs + 1, step + 1);
          var downPrice := PriceDerivativeOptimized(numUs, step + 1);
          SubLatticeOfChildren(numSteps, numUs, step);
          price := Continuation(Params(), upPrice, downPrice);
          if derivative.optionClass == American {
            var payoff := Payoff(derivative, level);
            price := Max(price, payoff);
          }
          KnockoutInteriorStep(Params(), Overlay(), numUs, step);
          AddToCache(numUs, step, price);
        }
      } else {
        price := cached.value;
      }
    }
  }
}
