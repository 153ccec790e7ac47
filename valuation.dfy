/**
 * The value of every lattice node as a pure recursive function: the
 * specification the plain memoized pricer is proved against, with the naive
 * level-passing recursion beside it, and the knockout-aware value the
 * knockout pricer is proved against.
 */
module Valuation {
  import opened Instruments
  import opened Lattice

  /**
   * What a pricer prices on: the instrument, the number of steps to maturity,
   * the up factor u, the risk-neutral up probability p and the per-step
   * discount factor exp(-riskFreeRate * timeStep).
   */
  datatype LatticeParams = LatticeParams(derivative: Instrument, numSteps: int, u: real, p: real, pvfa: real)

  predicate WellFormed(tree: LatticeParams) {
    tree.u > 0.0 && PayoffDefined(tree.derivative)
  }

  /** Level of the underlying at node (numUs, step). */
  function NodeLevel(tree: LatticeParams, numUs: int, step: int): real
    requires tree.u > 0.0
  {
    LevelAt(tree.derivative.underlying.startLevel, tree.u, numUs, step)
  }

  /** Discounted risk-neutral expectation of the two children's values. */
  function Continuation(tree: LatticeParams, upValue: real, downValue: real): real {
    tree.pvfa * (tree.p * upValue + (1.0 - tree.p) * downValue)
  }

  /** An American holder takes the immediate payoff when it beats continuing. */
  function EarlyExercise(tree: LatticeParams, price: real, level: real): (value: real)
    requires PayoffDefined(tree.derivative)
    ensures tree.derivative.optionClass == American ==> value >= price && value >= Payoff(tree.derivative, level)
    ensures tree.derivative.optionClass == American ==> value == price || value == Payoff(tree.derivative, level)
    ensures tree.derivative.optionClass == European ==> value == price
  {
    if tree.derivative.optionClass == American then Max(price, Payoff(tree.derivative, level)) else price
  }

  /**
   * Value at node (numUs, step): the payoff at maturity, otherwise the
   * discounted expectation of the up child (numUs + 1, step + 1) and the
   * down child (numUs, step + 1), floored by early exercise when American.
   */
  function NodeValue(tree: LatticeParams, numUs: int, step: int): (value: real)
    requires WellFormed(tree)
    ensures tree.derivative.optionClass == American ==> value >= Payoff(tree.derivative, NodeLevel(tree, numUs, step))
    decreases tree.numSteps - step
  {
    var level := NodeLevel(tree, numUs, step);
    if step >= tree.numSteps then
      Payoff(tree.derivative, level)
    else
      var price := Continuation(tree, NodeValue(tree, numUs + 1, step + 1), NodeValue(tree, numUs, step + 1));
      EarlyExercise(tree, price, level)
  }

  /** The level one up-move above `level`. */
  function UpLevel(tree: LatticeParams, level: real): real {
    level * tree.u
  }

  /** The level one down-move below `level`, with down factor d = 1/u. */
  function DownLevel(tree: LatticeParams, level: real): real
    requires tree.u > 0.0
  {
    level * (1.0 / tree.u)
  }

  /**
   * The first, unmemoized pricer: it carries the level itself down the tree,
   * multiplying by u on the way up and by d = 1/u on the way down.
   */
  function NaivePrice(tree: LatticeParams, underlyingLevel: real, step: int): (value: real)
    requires WellFormed(tree)
    ensures tree.derivative.optionClass == American ==> value >= Payoff(tree.derivative, underlyingLevel)
    decreases tree.numSteps - step
  {
    if step >= tree.numSteps then
      Payoff(tree.derivative, underlyingLevel)
    else
      var upLevel := UpLevel(tree, underlyingLevel);
      var downLevel := DownLevel(tree, underlyingLevel);
      var price := Continuation(tree, NaivePrice(tree, upLevel, step + 1), NaivePrice(tree, downLevel, step + 1));
      EarlyExercise(tree, price, underlyingLevel)
  }

  /**
   * Indexing nodes by (numUs, step) prices the same as carrying the level:
   * started at a node's level, the naive recursion returns that node's value.
   */
  lemma {:induction false} NodeValueMatchesNaive(tree: LatticeParams, numUs: int, step: int)
    requires WellFormed(tree)
    ensures NaivePrice(tree, NodeLevel(tree, numUs, step), step) == NodeValue(tree, numUs, step)
    decreases tree.numSteps - step
  {
    if step < tree.numSteps {
      ChildLevels(tree, numUs, step);
      NodeValueMatchesNaive(tree, numUs + 1, step + 1);
      NodeValueMatchesNaive(tree, numUs, step + 1);
    }
  }

  /** The children of node (numUs, step) lie one up-move above and one down-move below it. */
  lemma ChildLevels(tree: LatticeParams, numUs: int, step: int)
    requires tree.u > 0.0
    ensures NodeLevel(tree, numUs + 1, step + 1) == UpLevel(tree, NodeLevel(tree, numUs, step))
    ensures NodeLevel(tree, numUs, step + 1) == DownLevel(tree, NodeLevel(tree, numUs, step))
  {
    UpMove(tree.derivative.underlying.startLevel, tree.u, numUs, step);
    DownMove(tree.derivative.underlying.startLevel, tree.u, numUs, step);
  }

  /** The root price of the two recursions agrees. */
  lemma RootValueMatchesNaive(tree: LatticeParams)
    requires WellFormed(tree)
    ensures NaivePrice(tree, tree.derivative.underlying.startLevel, 0) == NodeValue(tree, 0, 0)
  {
    NodeValueMatchesNaive(tree, 0, 0);
  }

  /** Length of the knockout observation window, in years from the root. */
  const ObservationYears: real := 3.0

  /** The knockout overlay: time step in years and the knockout return threshold. */
  datatype Barrier = Barrier(timeStep: real, knockout: real)

  /** The knockout test divides by the start level. */
  predicate KnockoutWellFormed(tree: LatticeParams) {
    WellFormed(tree) && tree.derivative.underlying.startLevel != 0.0
  }

  /**
   * A node is knocked out when it lies within the observation window and the
   * underlying's return there is strictly below the threshold.
   */
  predicate KnockedOut(tree: LatticeParams, barrier: Barrier, numUs: int, step: int)
    requires KnockoutWellFormed(tree)
  {
    step as real * barrier.timeStep <= ObservationYears &&
    PerformanceInPercentage(tree.derivative.underlying, NodeLevel(tree, numUs, step)) < barrier.knockout
  }

  /**
   * With a positive start level, a node is knocked out exactly when it lies
   * in the window and its level is below the start level scaled by one plus
   * the threshold.
   */
  lemma KnockedOutBelowBarrierLevel(tree: LatticeParams, barrier: Barrier, numUs: int, step: int)
    requires KnockoutWellFormed(tree) && tree.derivative.underlying.startLevel > 0.0
    ensures KnockedOut(tree, barrier, numUs, step) <==>
              step as real * barrier.timeStep <= ObservationYears &&
              NodeLevel(tree, numUs, step) < tree.derivative.underlying.startLevel * (1.0 + barrier.knockout)
  {
    var start := tree.derivative.underlying.startLevel;
    var level := NodeLevel(tree, numUs, step);
    BarrierLevel(start, PerformanceInPercentage(tree.derivative.underlying, level), barrier.knockout, level);
  }

  /**
   * With a positive start level, a return below the threshold is a level
   * below the start level scaled by one plus the threshold.
   */
  lemma BarrierLevel(start: real, r: real, knockout: real, level: real)
    requires start > 0.0 && start * (1.0 + r) == level
    ensures level < start * (1.0 + knockout) <==> r < knockout
  {
    ScaledReturnsCompare(start, r, knockout, level, start * (1.0 + knockout));
  }

  /**
   * Value at node (numUs, step) under the knockout overlay: zero at a
   * knocked-out node whatever lies below it, otherwise as NodeValue but with
   * knockout-aware children.
   */
  function KnockoutValue(tree: LatticeParams, barrier: Barrier, numUs: int, step: int): (value: real)
    requires KnockoutWellFormed(tree)
    ensures KnockedOut(tree, barrier, numUs, step) ==> value == 0.0
    ensures !KnockedOut(tree, barrier, numUs, step) && tree.derivative.optionClass == American ==>
              value >= Payoff(tree.derivative, NodeLevel(tree, numUs, step))
    decreases tree.numSteps - step
  {
    if KnockedOut(tree, barrier, numUs, step) then
      0.0
    else
      var level := NodeLevel(tree, numUs, step);
      if step >= tree.numSteps then
        Payoff(tree.derivative, level)
      else
        var price := Continuation(tree, KnockoutValue(tree, barrier, numUs + 1, step + 1),
                                  KnockoutValue(tree, barrier, numUs, step + 1));
        EarlyExercise(tree, price, level)
  }

  /** Outside a knockout, an interior node combines its knockout-aware children like NodeValue does. */
  lemma KnockoutInteriorStep(tree: LatticeParams, barrier: Barrier, numUs: int, step: int)
    requires KnockoutWellFormed(tree) && !KnockedOut(tree, barrier, numUs, step) && step < tree.numSteps
    ensures KnockoutValue(tree, barrier, numUs, step)
         == EarlyExercise(tree, Continuation(tree, KnockoutValue(tree, barrier, numUs + 1, step + 1),
                                             KnockoutValue(tree, barrier, numUs, step + 1)),
                          NodeLevel(tree, numUs, step))
  {
  }

  /**
   * Past the observation window (with a non-negative time step) nothing can be
   * knocked out any more, and the overlay prices exactly like the plain lattice.
   */
  lemma {:induction false} KnockoutValueAfterWindow(tree: LatticeParams, barrier: Barrier, numUs: int, step: int)
    requires KnockoutWellFormed(tree)
    requires barrier.timeStep >= 0.0
    requires step as real * barrier.timeStep > ObservationYears
    ensures KnockoutValue(tree, barrier, numUs, step) == NodeValue(tree, numUs, step)
    decreases tree.numSteps - step
  {
    assert !KnockedOut(tree, barrier, numUs, step);
    if step < tree.numSteps {
      WindowStaysPassed(step, barrier.timeStep);
      KnockoutValueAfterWindow(tree, barrier, numUs + 1, step + 1);
      KnockoutValueAfterWindow(tree, barrier, numUs, step + 1);
    }
  }

  /** Once a step lies past the window, so does the next one. */
  lemma WindowStaysPassed(step: int, timeStep: real)
    requires timeStep >= 0.0 && step as real * timeStep > ObservationYears
    ensures (step + 1) as real * timeStep > ObservationYears
  {
    assert (step + 1) as real * timeStep == step as real * timeStep + timeStep;
  }

  /**
   * With a positive start level no node loses 100% or more, so a threshold of
   * -100% or lower never knocks out and the overlay prices like the plain lattice.
   */
  lemma {:induction false} KnockoutValueWithoutBarrier(tree: LatticeParams, barrier: Barrier, numUs: int, step: int)
    requires KnockoutWellFormed(tree)
    requires tree.derivative.underlying.startLevel > 0.0
    requires barrier.knockout <= -1.0
    ensures KnockoutValue(tree, barrier, numUs, step) == NodeValue(tree, numUs, step)
    decreases tree.numSteps - step
  {
    ReturnAboveTotalLoss(tree, numUs, step);
    if step < tree.numSteps {
      KnockoutValueWithoutBarrier(tree, barrier, numUs + 1, step + 1);
      KnockoutValueWithoutBarrier(tree, barrier, numUs, step + 1);
    }
  }

  /** Every node of a lattice with a positive start level has a return above -100%. */
  lemma ReturnAboveTotalLoss(tree: LatticeParams, numUs: int, step: int)
    requires KnockoutWellFormed(tree) && tree.derivative.underlying.startLevel > 0.0
    ensures PerformanceInPercentage(tree.derivative.underlying, NodeLevel(tree, numUs, step)) > -1.0
  {
    var level := NodeLevel(tree, numUs, step);
    var r := PerformanceInPercentage(tree.derivative.underlying, level);
    PositiveFactor(tree.derivative.underlying.startLevel, 1.0 + r, level);
  }

  /** A positive product with a positive factor has a positive co-factor. */
  lemma PositiveFactor(s: real, x: real, product: real)
    requires s > 0.0 && product > 0.0 && s * x == product
    ensures x > 0.0
  {
  }
}
