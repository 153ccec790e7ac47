# Binomial-lattice pricer for options and barrier-booster notes

A Dafny model of the pricing core of a small Python program that prices
vanilla puts and calls and barrier-booster structured notes on a recombining
binomial lattice. The program walks the lattice from the root by recursion,
memoizes every node's price in a dictionary, applies an early-exercise floor
for American instruments, and in a second pricer zeroes every node that falls
below a knockout return during the first three years.

The model is split by component:

- `instruments.dfy` (module `Instruments`): the underlying, the percentage
  return, the three instrument kinds as one datatype, and their payoffs. Also
  the note's constructor, which resolves the default participation level, and
  the call's constructor as written next to the intended one.
- `lattice.dfy` (module `Lattice`): the level at node (numUs, step), which is
  `start * u^(2*numUs - step)`, and the up-move, down-move and recombination
  facts about it.
- `cache_key.dfy` (module `CacheKey`): the text key `str(numUs) + ":" + str(step)`.
  Distinct nodes get distinct keys, so a map keyed by the pair behaves the same
  as the program's dictionary.
- `valuation.dfy` (module `Valuation`): the value of every node as a pure
  recursive function (`NodeValue`), the first, unmemoized recursion that carries
  the level down the tree (`NaivePrice`), and the knockout-aware value
  (`KnockoutValue`).
- `pricers.dfy` (module `Pricers`): the two pricers as classes. Their parameters
  are `const` fields and the cache is a `map<(int, int), real>` field that the
  recursive `PriceDerivativeOptimized` updates in place. Each method is proved
  against a pure value, `NodeValue` for the plain pricer and `KnockoutValue`
  for the knockout pricer: it returns the node's value, and every cache entry
  holds its node's value. A cache hit returns the stored price and leaves the
  cache alone. No entry is ever overwritten or removed. New entries lie in the
  part of the lattice below the node priced. In the knockout pricer, a
  knocked-out node returns 0 without touching the cache and is never cached.
  The knockout pricer's method is written as two methods: the knockout test,
  then `CachedPrice`, which holds the memoized part.

The factors that the program computes with `exp` and `sqrt` are constructor
inputs of type `real`: the up factor u (with u > 0), the up probability p and
the per-step discount exp(-riskFreeRate * timeStep). The down factor d = 1/u is
computed from u as the program does. Each pricer takes its own p because the
two compute it differently.

## Model

| member | source | states |
|---|---|---|
| `Instruments.PerformanceInPercentage` | models.py:73-74 | the return r satisfies start * (1 + r) == level, so it is 0 exactly at the start level |
| `Instruments.PerformanceStrictlyIncreasing` | models.py:73-74 | with a positive start level, a < b exactly when return(a) < return(b) |
| `Instruments.Max` | models.py:190 | the result is at least both arguments and is one of them |
| `Instruments.Payoff` | models.py:50-61 | a long put pays the larger of strike - level and 0, a long call the larger of level - strike and 0; a non-zero vanilla payoff is positive exactly when long |
| `Instruments.ShortPaysNegatedLong` | models.py:52 | a short put or call pays exactly the negation of the long one |
| `Instruments.LongPaysIffInTheMoney` | models.py:59-61 | a long put pays something exactly when level < strike, a long call exactly when level > strike |
| `Instruments.CallPutPayoffParity` | models.py:50-61 | long call payoff minus long put payoff at the same strike is level - strike |
| `Instruments.BoosterReturn` | models.py:98-107 | the four right-open bands: the raw return below the barrier, the barrier return up to the boost level, the boosted return up to the participation level, then the boosted return plus the participated excess |
| `Instruments.MakeNote` | models.py:83-91 | the participation level is the boosted return when none is given, otherwise the given one; every other field is its argument |
| `Instruments.MakeNoteWithDefaults` | models.py:83-84 | the defaults: barrier return 0, boost level 0, participation level equal to the boosted return, participation rate 1 |
| `Instruments.AtParticipationLevelPaysBoostedReturn` | models.py:102-106 | with ordered bands, a return exactly at the participation level earns the boosted return |
| `Instruments.BoosterReturnMonotone` | models.py:98-106 | the note's return is non-decreasing in the underlying return when barrier level <= barrier return <= boosted return and the rate is non-negative |
| `Instruments.BoosterReturnNotMonotoneBelowBarrier` | models.py:98-101 | without barrier level <= barrier return, the note's return can drop at the barrier |
| `Instruments.NotePayoffMonotoneInLevel` | models.py:94-107 | under the same conditions and a positive start level, the note's payoff is non-decreasing in the level |
| `Instruments.CallAsWritten` | models.py:55-56 | the call constructor as written: term gets the strike, strike gets the long flag, the long flag gets the contract count |
| `Instruments.MakeCall` | models.py:36-39 | the intended call constructor: term, strike and long flag each land in their own field |
| `Instruments.CallConstructorShiftsArguments` | models.py:55-61 | a long call struck at 100 pays -149 at level 150 as written, 50 as intended |
| `Instruments.MakeCallPaysIntrinsic` | models.py:59-61 | the intended long call pays the larger of level - strike and 0 |
| `Lattice.Power` | models.py:201 | a positive base gives a positive power |
| `Lattice.IntPower` | models.py:201 | a positive base gives a positive power for every integer exponent |
| `Lattice.IntPowerSucc` | models.py:201 | raising the exponent by one multiplies by the base, for negative exponents too |
| `Lattice.LevelAt` | models.py:198-202 | a positive start gives a positive level, and a node with as many ups as downs is at the start level |
| `Lattice.UpMove` | models.py:129 | the up child (numUs + 1, step + 1) is a factor u above its parent |
| `Lattice.DownMove` | models.py:130 | the down child (numUs, step + 1) is a factor d = 1/u below its parent |
| `Lattice.Recombination` | models.py:198-202 | up-then-down and down-then-up both reach (numUs + 1, step + 2), at the level of (numUs, step) |
| `Lattice.LevelDependsOnNetMoves` | models.py:271-275 | two nodes with equal 2*numUs - step have equal levels |
| `CacheKey.NatToString` | models.py:205 | the decimal text of a natural is a non-empty string of digits |
| `CacheKey.ParseNatToString` | models.py:205 | reading the decimal text back gives the number |
| `CacheKey.IntToString` | models.py:205 | the text of an integer has no ':' and starts with '-' exactly when negative |
| `CacheKey.IntToStringInjective` | models.py:208 | distinct integers have distinct texts |
| `CacheKey.Key` | models.py:204-208 | the key has the separator right after the text of numUs |
| `CacheKey.FirstSeparator` | models.py:277-278 | the first ':' in a key is the one after numUs |
| `CacheKey.SplitAtSeparator` | models.py:280-281 | two keys split at their first ':' give equal parts when equal |
| `CacheKey.KeyInjective` | models.py:204-208 | two nodes have the same key exactly when they are the same node |
| `Valuation.EarlyExercise` | models.py:188-190 | an American price is the larger of the continuation price and the immediate payoff: at least both, and equal to one of them; a European price is unchanged |
| `Valuation.NodeValue` | models.py:173-196 | the early-exercise floor: an American node is worth at least its immediate payoff; its definition (payoff at maturity, otherwise the discounted expectation of the two children) is what the plain pricer is proved against, and what the knockout value equals past the window or with a threshold of -100% or lower |
| `Valuation.NaivePrice` | models.py:144-163 | the unmemoized recursion on the level; an American node is worth at least its immediate payoff |
| `Valuation.ChildLevels` | models.py:151-152 | the nodes (numUs + 1, step + 1) and (numUs, step + 1) are at the parent's level times u and times 1/u |
| `Valuation.NodeValueMatchesNaive` | models.py:144-163 | started at a node's level, the naive recursion returns that node's value |
| `Valuation.RootValueMatchesNaive` | models.py:173 | the naive and the node-indexed recursions give the same root price |
| `Valuation.KnockoutValue` | models.py:240-269 | a knocked-out node is worth 0 whatever lies below it; an American node that is not knocked out is worth at least its immediate payoff |
| `Valuation.KnockedOutBelowBarrierLevel` | models.py:242-245 | with a positive start level, a node is knocked out exactly when it lies within three years and its level is below the start level times one plus the threshold |
| `Valuation.KnockoutValueAfterWindow` | models.py:242 | past three years, with a non-negative time step, the knockout value equals the plain value |
| `Valuation.KnockoutValueWithoutBarrier` | models.py:243-246 | with a positive start level, a threshold of -100% or lower never knocks out, and the knockout value equals the plain value |
| `Valuation.ReturnAboveTotalLoss` | models.py:244 | every node of a lattice with a positive start level has a return above -100% |
| `Pricers.SubLatticeIsVisited` | models.py:186-187 | the sub-lattice below (numUs, step) is exactly the set of nodes the recursion visits (the node, then both children while step < numSteps), in both directions |
| `Pricers.SubLatticeOfChildren` | models.py:186-187 | a node reaches itself and everything its two children reach |
| `Pricers.RootSubLatticeBounds` | models.py:173 | from the root, every reachable node has 0 <= numUs <= step <= numSteps |
| `Pricers.BinomialTreePricer.constructor` | models.py:124-132 | the parameters are stored, d = 1/u, the cache is empty |
| `Pricers.BinomialTreePricer.UnderlyingLevelAfterMovements` | models.py:198-202 | the level after numUs up-moves and step - numUs down-moves is the lattice level `LevelAt(start, u, numUs, step)`, the level that `UpMove`, `DownMove` and `Recombination` are proved about |
| `Pricers.BinomialTreePricer.AddToCache` | models.py:204-205 | the cache gains or replaces exactly the entry for the node |
| `Pricers.BinomialTreePricer.GetFromCache` | models.py:207-208 | the cached price of the node, or None when it is not cached |
| `Pricers.BinomialTreePricer.PriceDerivativeOptimized` | models.py:173-196 | returns the node's value; every entry stays its node's value; a hit returns the stored price and leaves the cache alone; no entry is overwritten or removed; new entries lie below the node |
| `Pricers.BinomialTreeQ3Pricer.constructor` | models.py:222-231 | the parameters and the knockout threshold are stored, d = 1/u, the cache is empty |
| `Pricers.BinomialTreeQ3Pricer.UnderlyingLevelAfterMovements` | models.py:271-275 | the level after numUs up-moves and step - numUs down-moves is the lattice level `LevelAt(start, u, numUs, step)`, the level that `UpMove`, `DownMove` and `Recombination` are proved about |
| `Pricers.BinomialTreeQ3Pricer.AddToCache` | models.py:277-278 | the cache gains or replaces exactly the entry for the node |
| `Pricers.BinomialTreeQ3Pricer.GetFromCache` | models.py:280-281 | the cached price of the node, or None when it is not cached |
| `Pricers.BinomialTreeQ3Pricer.PriceDerivativeOptimized` | models.py:240-269 | returns the node's knockout-aware value; a knocked-out node returns 0 and leaves the cache unchanged; no knocked-out node is ever cached; the other cache guarantees hold as for the plain pricer |
| `Pricers.BinomialTreeQ3Pricer.CachedPrice` | models.py:248-269 | the memoized part for a node that is not knocked out: returns its knockout-aware value and caches it, with the same cache guarantees |

## Left out

- The factors computed with `exp` and `sqrt` (models.py:129-131, 185, 228-230, 259) are not modelled: u, p and the discount factor are real constructor inputs. The model never assumes 0 <= p <= 1.
- Floating-point rounding, overflow and NaN are not modelled: all quantities are exact reals. Python's float `**` is exact integer-power arithmetic here.
- Instruments.PerformanceInPercentage: a zero start level raises ZeroDivisionError in the program. The model requires a non-zero start level, both here and in every pricer whose payoff or knockout test uses the return.
- Pricers.BinomialTreePricer.constructor: requires u > 0, which exp guarantees in the program.
- Pricers.BinomialTreeQ3Pricer.constructor: requires u > 0 and a non-zero start level. The knockout test divides by the start level already at the root, since step 0 is always inside the window.
- The unused fields `contracts`, `costPerContract` and `unitsPerContract` are not stored. They only matter to the call constructor as written, which `Instruments.CallAsWritten` models.
- The abstract-base-class machinery (models.py:12-25, 35-42) becomes one datatype with a variant per instrument. `__repr__` (models.py:109-111) is not modelled: it only formats text.
- main.py is not part of this model. It builds scenarios, writes results to a file with a timestamp and prints them.
- Recursion depth and stack exhaustion are not modelled. The price range claims (put-call parity, American at least European) are not proved, because they need 0 <= p <= 1 and a non-negative discount, which the program never checks.
- The program does not validate numSteps, timeStep or p, and the model does not either. Python's integer steps are `int` here.
- Instruments.BoosterReturnMonotone: the note is monotone only when the barrier return is at least the barrier level and the participation rate is non-negative. Band order alone is not enough, as `Instruments.BoosterReturnNotMonotoneBelowBarrier` shows, so the lemma states those hypotheses.

## Findings

| source | as written | input that shows it | evidently intended | confidence | as-written member | corrected member |
|---|---|---|---|---|---|---|
| models.py:55-56 | `Call.__init__` passes its arguments to the base constructor without `term`. So `term` gets the strike, `strikePrice` gets `isLong` (True counts as 1), and `isLong` gets `contracts` (default 0, false). | `Call(u, EUROPEAN, 1, 100, True)` at level 150 pays -(150 - 1) = -149 | the long call pays max(150 - 100, 0) = 50 | not executed; high, the argument lists differ by one position | `Instruments.CallAsWritten` | `Instruments.MakeCall` |
