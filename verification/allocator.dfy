/**
 The two-tenant allocator. Each period it splits two fungible resources
 (vCPUs and GB of RAM) between tenant A and tenant B. For each resource it
 honours demand-capped floors, trims B before A when those floors overcommit
 the capacity, splits the surplus by weight, and mops up what is left, A
 before B. The per-resource algorithm is `AllocOne`; `Allocate` applies it to
 CPU and to RAM.

 Demands, floors and capacities are natural numbers. Weights are exact reals
 and `int(...)` is truncation toward zero, so the functions are total for any
 real weights; the properties proved about them assume non-negative weights.
 Allocations are `int` because out-of-domain (negative) weights can drive the
 code's arithmetic below zero.
 */
module Allocator {

  function Min(x: int, y: int): int { if x <= y then x else y }
  function Max(x: int, y: int): int { if x <= y then y else x }

  /** What one resource's pass hands to tenant A and to tenant B. */
  datatype Share = Share(a: int, b: int)

  /** Working state of the surplus pass: the running share and the capacity not yet handed out. */
  datatype Stage = Stage(a: int, b: int, leftover: int)

  /** A tenant's demand for this period. */
  datatype Demand = Demand(cpu: nat, ram: nat)

  /** Minimum guarantees, in the order the caller passes them. */
  datatype Floors = Floors(aCpu: nat, aRam: nat, bCpu: nat, bRam: nat)

  /** Relative priority of A and B for the surplus split. */
  datatype Weights = Weights(a: real, b: real)

  /** The allocator's result for one period. */
  datatype Allocation = Allocation(aCpu: int, aRam: int, bCpu: int, bRam: int)

  /** Python's `int(x)` on a float: truncation toward zero. */
  function Truncate(x: real): (r: int)
    ensures 0.0 <= x ==> r as real <= x < r as real + 1.0
    ensures x < 0.0 ==> x <= r as real < x + 1.0
  {
    if x >= 0.0 then x.Floor else -((-x).Floor)
  }

  /** Step 1: each tenant provisionally gets its floor, capped by its demand. */
  function FloorPass(aNeed: nat, bNeed: nat, aFloor: nat, bFloor: nat): Share
  {
    Share(Min(aNeed, aFloor), Min(bNeed, bFloor))
  }

  /**
   Step 2: when the provisional share exceeds the capacity, the excess comes
   off B first and only what B cannot absorb comes off A. The result keeps as
   much of A as fits and gives B the rest of what fits.
   */
  function Trim(s: Share, total: nat): (r: Share)
    requires 0 <= s.a && 0 <= s.b
    ensures r.a == Min(s.a, total)
    ensures r.b == Min(s.a + s.b, total) - Min(s.a, total)
  {
    if s.a + s.b > total then
      var over := (s.a + s.b) - total;
      var trim := Min(over, s.b);
      var b := s.b - trim;
      var over' := over - trim;
      var a := if over' > 0 then s.a - Min(over', s.a) else s.a;
      Share(a, b)
    else
      s
  }

  /** Capacity not covered by `s`, never negative. */
  function Left(s: Share, total: nat): int
  {
    Max(0, total - (s.a + s.b))
  }

  /** How far an allocation falls short of a demand, never negative. */
  function Gap(need: nat, got: int): int
  {
    Max(0, need - got)
  }

  /**
   Step 4, A's part of the weighted split: truncation of `left * (aW / totalW)`,
   where `totalW` falls back to 1.0 when the weights do not sum to a positive
   number (so zero weights give A nothing, not half).
   */
  function ShareA(left: nat, aW: real, bW: real): int
  {
    var totalW := if aW + bW > 0.0 then aW + bW else 1.0;
    Truncate(left as real * (aW / totalW))
  }

  /** Step 4, applying the offers: each tenant's increase is capped by its gap. */
  function TopUp(s: Share, aNeed: nat, bNeed: nat, total: nat, giveA: int, giveB: int): Stage
  {
    var a := s.a + Min(giveA, Gap(aNeed, s.a));
    var b := s.b + Min(giveB, Gap(bNeed, s.b));
    Stage(a, b, Max(0, total - (a + b)))
  }

  /** Step 5: if neither offer was positive yet capacity remains, A gets one more unit. */
  function StallBump(st: Stage, aNeed: nat, giveA: int, giveB: int): Stage
  {
    if st.leftover > 0 && giveA == 0 && giveB == 0 && st.a < aNeed then
      Stage(st.a + 1, st.b, st.leftover - 1)
    else
      st
  }

  /** Step 6: the remaining capacity goes to A up to its demand, then to B. */
  function MopUp(st: Stage, aNeed: nat, bNeed: nat): Share
  {
    var take := if st.leftover > 0 && st.a < aNeed then Min(st.leftover, aNeed - st.a) else 0;
    var a := st.a + take;
    var leftover := st.leftover - take;
    var b := if leftover > 0 && st.b < bNeed then st.b + Min(leftover, bNeed - st.b) else st.b;
    Share(a, b)
  }

  /** The surplus pass runs only when capacity is left and some tenant still has a gap. */
  predicate SurplusPassRuns(s: Share, aNeed: nat, bNeed: nat, total: nat)
  {
    Left(s, total) > 0 && Gap(aNeed, s.a) + Gap(bNeed, s.b) > 0
  }

  /**
   Steps 3 to 6 after the trim, with A offered `giveA` of the surplus and B
   the rest, when `SurplusPassRuns`; otherwise the trimmed share is final.
   */
  function Distribute(s: Share, aNeed: nat, bNeed: nat, total: nat, giveA: int): Share
  {
    if SurplusPassRuns(s, aNeed, bNeed, total) then
      var giveB := Left(s, total) - giveA;
      MopUp(StallBump(TopUp(s, aNeed, bNeed, total, giveA, giveB), aNeed, giveA, giveB), aNeed, bNeed)
    else
      s
  }

  /** The trimmed floor pass, the starting point of the surplus pass. */
  function Floored(aNeed: nat, bNeed: nat, total: nat, aFloor: nat, bFloor: nat): Share
  {
    Trim(FloorPass(aNeed, bNeed, aFloor, bFloor), total)
  }

  /** One resource's allocation: steps 1 to 6. */
  function AllocOne(aNeed: nat, bNeed: nat, total: nat, aFloor: nat, bFloor: nat, aW: real, bW: real): Share
  {
    var s := Floored(aNeed, bNeed, total, aFloor, bFloor);
    Distribute(s, aNeed, bNeed, total, ShareA(Left(s, total), aW, bW))
  }

  /** The allocator: the per-resource algorithm for CPU, then for RAM, with independent state. */
  function Allocate(aNeed: Demand, bNeed: Demand, totalCpu: nat, totalRam: nat, floors: Floors, weights: Weights): Allocation
  {
    var cpu := AllocOne(aNeed.cpu, bNeed.cpu, totalCpu, floors.aCpu, floors.bCpu, weights.a, weights.b);
    var ram := AllocOne(aNeed.ram, bNeed.ram, totalRam, floors.aRam, floors.bRam, weights.a, weights.b);
    Allocation(cpu.a, ram.a, cpu.b, ram.b)
  }
}
