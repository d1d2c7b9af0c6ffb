# Two-tenant resource allocator, modelled in Dafny

The allocator splits two fungible resources, vCPUs and GB of RAM, between
tenant A and tenant B once per period. For each resource it runs the same six
steps:

1. floor pass: each tenant gets its floor, capped by its demand;
2. overcommit trim: if those exceed the capacity, the excess comes off B
   first and then off A;
3. surplus and gaps: the capacity left over and each tenant's unmet demand;
4. weighted split: A is offered the truncation of `left * aW / totalW` and B
   the rest, each increase capped by the tenant's gap;
5. rounding-stall bump: A may get one extra unit;
6. mop-up: what remains goes to A up to its demand, then to B.

`allocator.dfy` (module `Allocator`) models these steps as pure functions
(`FloorPass`, `Trim`, `Left`, `Gap`, `ShareA`, `TopUp`, `StallBump`,
`MopUp`, `Distribute`). It composes them into the per-resource `AllocOne`,
which returns a `Share` (A's part, B's part). `Allocate` applies `AllocOne`
to CPU and to RAM. The source writes the CPU and RAM blocks out twice, identical
up to the resource's name (the RAM block also omits three comments); the
model has one definition for both.

Demands, floors and capacities are natural numbers. Python integers are
unbounded, so no wrap-around is modelled. Weights are exact `real`s.
Python's `int()` on a float is `Truncate`, which truncates toward zero, so
the model follows the code for any real weight, negative ones included.
Conservation, the demand caps and work conservation hold for any real
weights. Non-negativity and the lower bounds assume non-negative weights,
because the code neither clamps nor rejects negative ones.

`properties.dfy` (module `AllocatorProperties`) proves the allocator's
promises. The upper bounds of the surplus pass hold for any offer to A
(`DistributeConserves`). Its lower bounds hold for any offer between zero and
the surplus (`DistributeBounds`). `ShareAWithinSurplus` shows the weighted
split with non-negative weights is such an offer, and the `AllocOne` lemmas
combine the two. `scenarios.dfy` (module
`AllocatorScenarios`) pins down worked examples as exact integers.

Behaviour of the code that is easy to misread:

- Weights (0, 0) are not a 1:1 split. At src/allocator.py:54-55 the divisor
  falls back to `1.0` while `a_w` stays 0, so A is offered nothing and B the
  whole surplus. A gets only what B's demand leaves, in the mop-up
  (`AllocOneZeroWeightsServeBFirst`, `ZeroWeightsNotEqualSplit`).
- The rounding-stall bump never fires. The comment at src/allocator.py:63
  says it gives A one unit "if rounding gave nothing". But `give_b` is
  `left - give_a` (line 56), so the two offers sum to the surplus, and while
  the surplus is positive they cannot both be zero (`StallBumpNeverFires`).
  The result is unaffected, because the mop-up at lines 69-75 hands out what
  is left anyway.
- With equal weights, truncation at src/allocator.py:55 rounds A's offer
  down to `left / 2`, so an odd unit of surplus goes to B
  (`ShareAEqualWeights`, `EqualWeightsOddSurplus`).
- With the driver's capacities and floors and weights 1.6 to 1.0, demands
  (24, 16) and (13, 12) give A 12 of the 20 spare vCPUs at line 55. The
  result is 19 vCPUs for A and 13 for B (`ScenarioPriorityWindow`).
- Floors are capped by demand before anything else (src/allocator.py:37-38).
  When the capped floors sum exactly to the capacity, they are the result
  (`AllocOneExactFit`). When a demand is below its floor, the unused part of
  the floor goes back into the surplus.

## Model

| member | source | states |
|---|---|---|
| `Allocator.Truncate` | src/allocator.py:55 | the result is the integer nearest zero within one unit of the real: at most `x` for non-negative `x`, at least `x` for negative `x` |
| `Allocator.FloorPass` | src/allocator.py:37-38 | each tenant's provisional grant is its floor capped by its demand; its properties are stated through `Floored` by `FlooredWithinDemand`, `AllocOneFloorGuarantee` and `AllocOneExactFit` |
| `Allocator.Trim` | src/allocator.py:40-47 | after the B-first trim A keeps `min(a, total)` and B gets `min(a + b, total) - min(a, total)`: B absorbs the excess before A loses anything |
| `Allocator.Floored` | src/allocator.py:37-47 | the floor pass followed by the B-first trim; `FlooredWithinDemand` proves it stays within demand and capacity |
| `AllocatorProperties.FlooredWithinDemand` | src/allocator.py:37-47 | the trimmed floor pass gives each tenant between 0 and its demand, and together no more than the capacity |
| `Allocator.Left` | src/allocator.py:49 | the capacity the share leaves unused, never negative; `TopUpWithinCapacity` and `DistributeConserves` state how the surplus pass uses it |
| `Allocator.Gap` | src/allocator.py:50-51 | a tenant's unmet demand, never negative; `DistributeBounds` and `AllocOneHonoursSplit` state that each offer is granted up to it |
| `Allocator.ShareA` | src/allocator.py:54-55 | A's offer of the surplus; `ShareAWithinSurplus`, `ShareAProportional`, `ShareAEqualWeights` and `ZeroWeightOffersAllToB` state its value |
| `AllocatorProperties.ShareAWithinSurplus` | src/allocator.py:53-56 | with non-negative weights A's offer lies between 0 and the surplus, so B's offer, the rest, does too |
| `AllocatorProperties.ShareAProportional` | src/allocator.py:54-56 | with non-negative weights of positive sum A's offer is the largest integer not above `left * aW / (aW + bW)`, and B's offer is the smallest integer not below `left * bW / (aW + bW)` |
| `AllocatorProperties.ShareAEqualWeights` | src/allocator.py:54-56 | equal positive weights offer A `left / 2` rounded down and B the rest, which is never less than A's offer |
| `AllocatorProperties.ZeroWeightOffersAllToB` | src/allocator.py:54-56 | a zero weight for A, including weights (0, 0), offers A nothing and B the whole surplus |
| `Allocator.TopUp` | src/allocator.py:58-61 | each tenant's increase is its offer capped by its gap; `TopUpWithinCapacity` and `TopUpWithinGaps` state the result |
| `AllocatorProperties.TopUpWithinCapacity` | src/allocator.py:58-61 | for any offers that sum to the surplus, the top-up keeps both tenants within demand and leaves a non-negative leftover equal to the capacity not handed out |
| `AllocatorProperties.TopUpWithinGaps` | src/allocator.py:50-61 | capping each offer by the tenant's gap keeps both tenants within demand, only adds, and leaves a non-negative leftover equal to the capacity not handed out |
| `Allocator.StallBump` | src/allocator.py:63-67 | the rounding-stall bump; `StallBumpNeverFires` proves it never changes the state |
| `AllocatorProperties.StallBumpNeverFires` | src/allocator.py:63-67 | whatever A is offered, when the surplus is positive the rounding-stall bump leaves the state unchanged |
| `Allocator.MopUp` | src/allocator.py:69-75 | the final hand-out of leftover capacity; `MopUpFavoursA` gives its result in closed form |
| `AllocatorProperties.MopUpFavoursA` | src/allocator.py:69-75 | the mop-up gives A as much of the leftover as its demand allows, then gives B as much of the rest as its demand allows |
| `Allocator.SurplusPassRuns` | src/allocator.py:49-53 | the guard of the surplus pass: capacity is left and some tenant still has a gap; `AllocOneTrimOrder`, `AllocOneExactFit` and `AllocOneZeroCapacity` state when it is false |
| `Allocator.Distribute` | src/allocator.py:49-75 | steps 3 to 6 for a given offer to A; `DistributeConserves` and `DistributeBounds` state what they hand out |
| `AllocatorProperties.DistributeConserves` | src/allocator.py:49-75 | for any offer to A, even a negative one or one above the surplus, the surplus pass never exceeds a demand and brings the total to `min(total, aNeed + bNeed)` |
| `AllocatorProperties.DistributeBounds` | src/allocator.py:49-75 | for any offer to A within the surplus, the surplus pass only adds, never exceeds a demand, brings the total to `min(total, aNeed + bNeed)`, and gives each tenant at least its offer capped by its gap |
| `Allocator.AllocOne` | src/allocator.py:36-75 | one resource's allocation, steps 1 to 6; the `AllocOne` lemmas below state its properties |
| `AllocatorProperties.AllocOneConserves` | src/allocator.py:36-75 | for any real weights `a <= aNeed`, `b <= bNeed` and `a + b <= total`; with non-negative weights also `0 <= a` and `0 <= b` |
| `AllocatorProperties.AllocOneWorkConserving` | src/allocator.py:49-75 | for any real weights, either the capacity is used up or both tenants get their whole demand; the amount handed out is `min(total, aNeed + bNeed)` |
| `AllocatorProperties.AllocOneHonoursSplit` | src/allocator.py:53-75 | with non-negative weights, A gets at least `s.a + min(give_a, a_gap)` and B at least `s.b + min(give_b, b_gap)`; when neither offer exceeds its gap the result is exactly the trimmed floors plus the offers |
| `AllocatorProperties.AllocOneTrimOrder` | src/allocator.py:40-53 | with non-negative weights A ends with at least `min(aNeed, aFloor, total)`; for any real weights, when the capped floors overcommit, A gets `min(min(aNeed, aFloor), total)`, B the rest of the capacity, and the surplus pass does not run |
| `AllocatorProperties.AllocOneFloorGuarantee` | src/allocator.py:37-75 | when the capped floors fit, nothing is trimmed and both tenants end with at least their capped floor |
| `AllocatorProperties.AllocOneExactFit` | src/allocator.py:37-53 | when the capped floors sum exactly to the capacity, there is no surplus pass and each tenant gets its capped floor, whatever the weights |
| `AllocatorProperties.AllocOneZeroCapacity` | src/allocator.py:41-53 | zero capacity gives both tenants 0 and skips the surplus pass, whatever the weights |
| `AllocatorProperties.AllocOneZeroWeightsServeBFirst` | src/allocator.py:54-75 | with weights (0, 0), B gets `min(bNeed, b + left)` after the trim, and A gets only what B leaves, up to its demand |
| `Allocator.Allocate` | src/allocator.py:15-115 | the per-resource algorithm applied to CPU and to RAM; `AllocateInvariants` and `AllocateResourcesIndependent` state its properties |
| `AllocatorProperties.AllocateInvariants` | src/allocator.py:15-115 | for any real weights both CPU and RAM results are within demand and within capacity; with non-negative weights all four are also non-negative |
| `AllocatorProperties.AllocateResourcesIndependent` | src/allocator.py:36-113 | calls that agree on the CPU inputs agree on the CPU result, and calls that agree on the RAM inputs agree on the RAM result: neither resource's leftovers reach the other |
| `AllocatorScenarios.ScenarioTenantBIdle` | src/allocator.py:15-115 | demands (10, 8) and (0, 0) with the driver's capacities and floors and weights 1:1 give A 10 vCPUs and 8 GB, and B nothing |
| `AllocatorScenarios.ScenarioPriorityWindow` | src/allocator.py:15-115 | demands (24, 16) and (13, 12) with weights 1.6:1.0 give A 19 vCPUs and 16 GB, and B 13 vCPUs and 12 GB |
| `AllocatorScenarios.ScenarioFloorsOvercommit` | src/allocator.py:40-47 | floors 20 and 20 on 32 units, with both demands at least 20, give A 20 and B 12, whatever the weights |
| `AllocatorScenarios.ZeroWeightsNotEqualSplit` | src/allocator.py:54-59 | with no floors, demands of 10 each and 10 units, weights (0, 0) give (0, 10) while weights (1, 1) give (5, 5) |
| `AllocatorScenarios.EqualWeightsOddSurplus` | src/allocator.py:55-56 | with weights 1:1 and 11 spare units, A gets 5 and B gets 6 |
| `AllocatorScenarios.NegativeWeightBreaksNonNegativity` | src/allocator.py:54-59 | with weights 2 and -1, a demand of 100 for A and 10 units, A gets 20 and B gets -10: the total is still the capacity, but the non-negative-weight assumption of the non-negativity results cannot be dropped |

## Left out

- src/simulate.py is not part of this model. It holds the per-minute driver
  loop, argument parsing, logging and CSV output, and `weights_for_minute`
  only looks up a constant pair. The first two scenarios use the driver's
  capacities and floors as literals.
- src/workloads.py is not part of this model. It draws demand from global
  random number generator state.
- src/metrics.py is not part of this model. Jain's index and per-tick cost
  are floating-point formulas. `make_tick_row` computes each tenant's SLA
  flag (its allocation covers its demand for both resources) and per-tick
  cost, rounds the values and collects them in a dict; nothing there feeds
  back into the allocator.
- src/plotting.py is not part of this model. It only renders charts and
  writes files.
- Floating point: `a_w / total_w` and the product with the surplus are exact
  real arithmetic here, not IEEE-754 doubles. A quotient that is an integer
  in exact arithmetic could round just below it in a double, and then the
  truncation differs by one.
- Non-finite weights: real weights exclude NaN and infinities. For those,
  `int()` at src/allocator.py:55 raises `ValueError` (NaN) or
  `OverflowError` (infinity). For example, `a_w = nan` gives `int(nan)`, and
  `a_w = inf` with a finite `b_w` makes the quotient NaN. No error path is
  modelled.
- Out-of-domain inputs: negative demands, floors or capacities are excluded
  by the `nat` types. Negative weights are modelled, and conservation, the
  demand caps and work conservation are proved for them too. Non-negativity
  and the lower bounds are not, because the code neither clamps nor rejects
  negative weights. With a negative weight, an offer can be negative, which
  drives that tenant's allocation below zero
  (`NegativeWeightBreaksNonNegativity`).
- Determinism needs no lemma: every member is a mathematical function of its
  arguments.
