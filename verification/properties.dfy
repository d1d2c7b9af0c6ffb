/**
 What the allocator promises, proved about the model in `Allocator`.

 Conservation, the demand caps and work conservation hold for ANY offer to
 A (`DistributeConserves`), so for any real weights. The lower bounds hold
 for any offer between zero and the surplus (`DistributeBounds`); the
 weighted split with non-negative weights is such an offer
 (`ShareAWithinSurplus`), and the `AllocOne` lower bounds combine the two.
 */
module AllocatorProperties {
  import opened Allocator

  /** The demand-capped floors fit into the capacity: nothing is trimmed. */
  predicate FloorsFit(aNeed: nat, bNeed: nat, total: nat, aFloor: nat, bFloor: nat)
  {
    Min(aNeed, aFloor) + Min(bNeed, bFloor) <= total
  }

  // ---------------------------------------------------------------------------
  // The weighted split (step 4)
  // ---------------------------------------------------------------------------

  /** With non-negative weights A is offered between nothing and the whole surplus. */
  lemma ShareAWithinSurplus(left: nat, aW: real, bW: real)
    requires 0.0 <= aW && 0.0 <= bW
    ensures 0 <= ShareA(left, aW, bW) <= left
  {
    if aW + bW > 0.0 {
      QuotientAtMostOne(aW, aW + bW);
      TruncatedFraction(left, aW / (aW + bW));
    } else {
      assert aW == 0.0;
    }
  }

  /** Truncating a fraction of `n` gives an integer between 0 and `n`. */
  lemma TruncatedFraction(n: nat, q: real)
    requires 0.0 <= q <= 1.0
    ensures 0 <= Truncate(n as real * q) <= n
  {
    ProductBounds(n as real, q);
  }

  /** A part over a positive whole is a fraction between 0 and 1. */
  lemma QuotientAtMostOne(part: real, whole: real)
    requires 0.0 <= part <= whole && 0.0 < whole
    ensures 0.0 <= part / whole <= 1.0
  {
    var q := part / whole;
    assert q * whole == part;
    if q > 1.0 {
      assert q * whole > 1.0 * whole by {
        assert (q - 1.0) * whole > 0.0;
      }
    }
  }

  /** `0 <= x` and `0 <= q <= 1` keep `x * q` between 0 and `x`. */
  lemma ProductBounds(x: real, q: real)
    requires 0.0 <= x && 0.0 <= q <= 1.0
    ensures 0.0 <= x * q <= x
  {
    assert x * q <= x * 1.0 by {
      assert x * (1.0 - q) >= 0.0;
    }
  }

  /**
   With non-negative weights of positive sum, A's offer is the largest
   integer not above its exact proportional share, and B's offer, the rest,
   is the smallest integer not below B's exact proportional share.
   */
  lemma ShareAProportional(left: nat, aW: real, bW: real)
    requires 0.0 <= aW && 0.0 <= bW && aW + bW > 0.0
    ensures var g := ShareA(left, aW, bW);
      && g as real <= left as real * (aW / (aW + bW)) < g as real + 1.0
      && left as real * (bW / (aW + bW)) <= (left - g) as real < left as real * (bW / (aW + bW)) + 1.0
  {
    QuotientAtMostOne(aW, aW + bW);
    ProductBounds(left as real, aW / (aW + bW));
    var w := aW + bW;
    assert aW / w + bW / w == 1.0 by {
      assert aW / w + bW / w == (aW + bW) / w;
    }
    assert left as real * (aW / w) + left as real * (bW / w) == left as real * (aW / w + bW / w);
  }

  /** Equal positive weights offer A the lower half of the surplus and B the upper half. */
  lemma ShareAEqualWeights(left: nat, w: real)
    requires 0.0 < w
    ensures ShareA(left, w, w) == left / 2
    ensures left - ShareA(left, w, w) == left - left / 2 >= ShareA(left, w, w)
  {
    assert w / (w + w) == 0.5;
    var x := left as real * 0.5;
    assert (left / 2) as real <= x < (left / 2) as real + 1.0;
  }

  /** A weight of zero for A (in particular zero for both) offers B the whole surplus. */
  lemma ZeroWeightOffersAllToB(left: nat, bW: real)
    ensures ShareA(left, 0.0, bW) == 0
    ensures left - ShareA(left, 0.0, bW) == left
  {
  }

  // ---------------------------------------------------------------------------
  // The surplus pass (steps 4 to 6), for an arbitrary offer to A
  // ---------------------------------------------------------------------------

  /**
   Whatever the offers, as long as they sum to the surplus, capping each
   increase by its gap keeps both tenants within demand and the total within
   capacity.
   */
  lemma TopUpWithinCapacity(s: Share, aNeed: nat, bNeed: nat, total: nat, giveA: int)
    requires s.a <= aNeed && s.b <= bNeed && s.a + s.b <= total
    ensures var st := TopUp(s, aNeed, bNeed, total, giveA, Left(s, total) - giveA);
      && st.a <= aNeed && st.b <= bNeed
      && st.leftover == total - (st.a + st.b) >= 0
  {
  }

  /** With offers between zero and the surplus, the top-up also only adds. */
  lemma TopUpWithinGaps(s: Share, aNeed: nat, bNeed: nat, total: nat, giveA: int)
    requires 0 <= s.a <= aNeed && 0 <= s.b <= bNeed && s.a + s.b <= total
    requires 0 <= giveA <= Left(s, total)
    ensures var st := TopUp(s, aNeed, bNeed, total, giveA, Left(s, total) - giveA);
      && s.a <= st.a <= aNeed && s.b <= st.b <= bNeed
      && st.leftover == total - (st.a + st.b) >= 0
  {
  }

  /**
   The rounding-stall bump never fires: the two offers sum to the surplus,
   so while the surplus is positive they cannot both be zero, whatever the
   offer to A.
   */
  lemma StallBumpNeverFires(s: Share, aNeed: nat, bNeed: nat, total: nat, giveA: int)
    requires Left(s, total) > 0
    ensures var giveB := Left(s, total) - giveA;
      var st := TopUp(s, aNeed, bNeed, total, giveA, giveB);
      StallBump(st, aNeed, giveA, giveB) == st
  {
  }

  /**
   The mop-up serves A first: A ends with as much of the leftover as its
   demand allows, and B with as much of what remains as its demand allows.
   */
  lemma MopUpFavoursA(st: Stage, aNeed: nat, bNeed: nat)
    requires 0 <= st.leftover && st.a <= aNeed && st.b <= bNeed
    ensures var r := MopUp(st, aNeed, bNeed);
      && r.a == Min(aNeed, st.a + st.leftover)
      && r.b == Min(bNeed, st.b + st.leftover - (r.a - st.a))
  {
  }

  /**
   For any offer to A, even a negative one or one above the surplus, the
   surplus pass never exceeds a demand and hands out exactly as much as
   capacity and demand allow together.
   */
  lemma DistributeConserves(s: Share, aNeed: nat, bNeed: nat, total: nat, giveA: int)
    requires s.a <= aNeed && s.b <= bNeed && s.a + s.b <= total
    ensures var r := Distribute(s, aNeed, bNeed, total, giveA);
      && r.a <= aNeed && r.b <= bNeed
      && r.a + r.b == Min(total, aNeed + bNeed)
  {
    var left := Left(s, total);
    if SurplusPassRuns(s, aNeed, bNeed, total) {
      var giveB := left - giveA;
      var st := TopUp(s, aNeed, bNeed, total, giveA, giveB);
      TopUpWithinCapacity(s, aNeed, bNeed, total, giveA);
      StallBumpNeverFires(s, aNeed, bNeed, total, giveA);
      MopUpFavoursA(st, aNeed, bNeed);
    }
  }

  /**
   For an offer to A within the surplus, the surplus pass moreover only adds,
   and each tenant gets at least its offer, capped by its gap.
   */
  lemma DistributeBounds(s: Share, aNeed: nat, bNeed: nat, total: nat, giveA: int)
    requires 0 <= s.a <= aNeed && 0 <= s.b <= bNeed && s.a + s.b <= total
    requires 0 <= giveA <= Left(s, total)
    ensures var r := Distribute(s, aNeed, bNeed, total, giveA);
      && s.a <= r.a <= aNeed && s.b <= r.b <= bNeed
      && r.a + r.b == Min(total, aNeed + bNeed)
    ensures var left := Left(s, total);
      var r := Distribute(s, aNeed, bNeed, total, giveA);
      && r.a >= s.a + Min(giveA, aNeed - s.a)
      && r.b >= s.b + Min(left - giveA, bNeed - s.b)
  {
    var left := Left(s, total);
    DistributeConserves(s, aNeed, bNeed, total, giveA);
    if SurplusPassRuns(s, aNeed, bNeed, total) {
      var giveB := left - giveA;
      var st := TopUp(s, aNeed, bNeed, total, giveA, giveB);
      TopUpWithinGaps(s, aNeed, bNeed, total, giveA);
      StallBumpNeverFires(s, aNeed, bNeed, total, giveA);
      MopUpFavoursA(st, aNeed, bNeed);
    }
  }

  // ---------------------------------------------------------------------------
  // One resource (steps 1 to 6)
  // ---------------------------------------------------------------------------

  /** The trimmed floor pass stays within demand and capacity. */
  lemma FlooredWithinDemand(aNeed: nat, bNeed: nat, total: nat, aFloor: nat, bFloor: nat)
    ensures var s := Floored(aNeed, bNeed, total, aFloor, bFloor);
      && 0 <= s.a <= aNeed && 0 <= s.b <= bNeed && s.a + s.b <= total
  {
  }

  /**
   Conservation and no over-grant, for any real weights: neither tenant gets
   more than it asked for, and the two together get no more than the
   capacity. Non-negativity needs non-negative weights.
   */
  lemma AllocOneConserves(aNeed: nat, bNeed: nat, total: nat, aFloor: nat, bFloor: nat, aW: real, bW: real)
    ensures var r := AllocOne(aNeed, bNeed, total, aFloor, bFloor, aW, bW);
      && r.a <= aNeed && r.b <= bNeed
      && r.a + r.b <= total
    ensures 0.0 <= aW && 0.0 <= bW ==>
      var r := AllocOne(aNeed, bNeed, total, aFloor, bFloor, aW, bW);
      0 <= r.a && 0 <= r.b
  {
    AllocOneWorkConserving(aNeed, bNeed, total, aFloor, bFloor, aW, bW);
    if 0.0 <= aW && 0.0 <= bW {
      var s := Floored(aNeed, bNeed, total, aFloor, bFloor);
      FlooredWithinDemand(aNeed, bNeed, total, aFloor, bFloor);
      ShareAWithinSurplus(Left(s, total), aW, bW);
      DistributeBounds(s, aNeed, bNeed, total, ShareA(Left(s, total), aW, bW));
    }
  }

  /**
   Work conservation: no capacity stays idle while a tenant still wants more.
   Either the capacity is used up or both tenants are fully served; the total
   handed out is the smaller of capacity and combined demand. This holds for
   any real weights.
   */
  lemma AllocOneWorkConserving(aNeed: nat, bNeed: nat, total: nat, aFloor: nat, bFloor: nat, aW: real, bW: real)
    ensures var r := AllocOne(aNeed, bNeed, total, aFloor, bFloor, aW, bW);
      && (r.a + r.b == total || (r.a == aNeed && r.b == bNeed))
      && r.a + r.b == Min(total, aNeed + bNeed)
      && r.a <= aNeed && r.b <= bNeed
  {
    var s := Floored(aNeed, bNeed, total, aFloor, bFloor);
    FlooredWithinDemand(aNeed, bNeed, total, aFloor, bFloor);
    DistributeConserves(s, aNeed, bNeed, total, ShareA(Left(s, total), aW, bW));
  }

  /**
   The weighted split reaches the result: with non-negative weights each
   tenant gets at least its weighted offer capped by its gap, and when
   neither offer exceeds its gap the result is exactly the trimmed floors
   plus the two offers. When the surplus pass does not run, both offers are
   capped to nothing and the trimmed floors are the result.
   */
  lemma AllocOneHonoursSplit(aNeed: nat, bNeed: nat, total: nat, aFloor: nat, bFloor: nat, aW: real, bW: real)
    requires 0.0 <= aW && 0.0 <= bW
    ensures var s := Floored(aNeed, bNeed, total, aFloor, bFloor);
      var left := Left(s, total);
      var g := ShareA(left, aW, bW);
      var r := AllocOne(aNeed, bNeed, total, aFloor, bFloor, aW, bW);
      && r.a >= s.a + Min(g, aNeed - s.a)
      && r.b >= s.b + Min(left - g, bNeed - s.b)
      && (g <= aNeed - s.a && left - g <= bNeed - s.b ==> r == Share(s.a + g, s.b + left - g))
  {
    var s := Floored(aNeed, bNeed, total, aFloor, bFloor);
    var left := Left(s, total);
    var g := ShareA(left, aW, bW);
    FlooredWithinDemand(aNeed, bNeed, total, aFloor, bFloor);
    ShareAWithinSurplus(left, aW, bW);
    DistributeBounds(s, aNeed, bNeed, total, g);
    if left > 0 {
      TopUpWithinGaps(s, aNeed, bNeed, total, g);
      StallBumpNeverFires(s, aNeed, bNeed, total, g);
      MopUpFavoursA(TopUp(s, aNeed, bNeed, total, g, left - g), aNeed, bNeed);
    }
  }

  /**
   Trim order: A is cut only by what exceeds the capacity on its own, so it
   ends with at least its demand-capped floor or the whole capacity. When the
   capped floors overcommit the capacity the trimmed floors are final: A keeps
   what fits and B gets the remainder of the capacity.
   */
  lemma AllocOneTrimOrder(aNeed: nat, bNeed: nat, total: nat, aFloor: nat, bFloor: nat, aW: real, bW: real)
    ensures 0.0 <= aW && 0.0 <= bW ==>
      var r := AllocOne(aNeed, bNeed, total, aFloor, bFloor, aW, bW);
      r.a >= Min(Min(aNeed, aFloor), total)
    ensures !FloorsFit(aNeed, bNeed, total, aFloor, bFloor) ==>
      var r := AllocOne(aNeed, bNeed, total, aFloor, bFloor, aW, bW);
      var cappedA := Min(aNeed, aFloor);
      && r.a == Min(cappedA, total)
      && r.b == total - Min(cappedA, total)
      && !SurplusPassRuns(Floored(aNeed, bNeed, total, aFloor, bFloor), aNeed, bNeed, total)
  {
    var s := Floored(aNeed, bNeed, total, aFloor, bFloor);
    FlooredWithinDemand(aNeed, bNeed, total, aFloor, bFloor);
    if 0.0 <= aW && 0.0 <= bW {
      ShareAWithinSurplus(Left(s, total), aW, bW);
      DistributeBounds(s, aNeed, bNeed, total, ShareA(Left(s, total), aW, bW));
    }
  }

  /**
   Floor guarantee: when the demand-capped floors fit, nothing is trimmed and
   both tenants end with at least their demand-capped floor.
   */
  lemma AllocOneFloorGuarantee(aNeed: nat, bNeed: nat, total: nat, aFloor: nat, bFloor: nat, aW: real, bW: real)
    requires 0.0 <= aW && 0.0 <= bW
    requires FloorsFit(aNeed, bNeed, total, aFloor, bFloor)
    ensures Floored(aNeed, bNeed, total, aFloor, bFloor) == Share(Min(aNeed, aFloor), Min(bNeed, bFloor))
    ensures var r := AllocOne(aNeed, bNeed, total, aFloor, bFloor, aW, bW);
      r.a >= Min(aNeed, aFloor) && r.b >= Min(bNeed, bFloor)
  {
    var s := Floored(aNeed, bNeed, total, aFloor, bFloor);
    FlooredWithinDemand(aNeed, bNeed, total, aFloor, bFloor);
    ShareAWithinSurplus(Left(s, total), aW, bW);
    DistributeBounds(s, aNeed, bNeed, total, ShareA(Left(s, total), aW, bW));
  }

  /**
   When the demand-capped floors use the capacity exactly, no surplus pass
   runs and each tenant gets its demand-capped floor, whatever the weights.
   */
  lemma AllocOneExactFit(aNeed: nat, bNeed: nat, total: nat, aFloor: nat, bFloor: nat, aW: real, bW: real)
    requires Min(aNeed, aFloor) + Min(bNeed, bFloor) == total
    ensures !SurplusPassRuns(Floored(aNeed, bNeed, total, aFloor, bFloor), aNeed, bNeed, total)
    ensures AllocOne(aNeed, bNeed, total, aFloor, bFloor, aW, bW) == Share(Min(aNeed, aFloor), Min(bNeed, bFloor))
  {
  }

  /** Zero capacity gives both tenants nothing and skips the surplus pass, whatever the weights. */
  lemma AllocOneZeroCapacity(aNeed: nat, bNeed: nat, aFloor: nat, bFloor: nat, aW: real, bW: real)
    ensures !SurplusPassRuns(Floored(aNeed, bNeed, 0, aFloor, bFloor), aNeed, bNeed, 0)
    ensures AllocOne(aNeed, bNeed, 0, aFloor, bFloor, aW, bW) == Share(0, 0)
  {
  }

  /**
   Zero-sum weights are not a 1:1 split: B is offered the whole surplus and
   takes what its demand allows, and A gets only what B leaves, in the mop-up.
   */
  lemma AllocOneZeroWeightsServeBFirst(aNeed: nat, bNeed: nat, total: nat, aFloor: nat, bFloor: nat)
    ensures var s := Floored(aNeed, bNeed, total, aFloor, bFloor);
      var left := Left(s, total);
      var r := AllocOne(aNeed, bNeed, total, aFloor, bFloor, 0.0, 0.0);
      && r.b == Min(bNeed, s.b + left)
      && r.a == Min(aNeed, s.a + left - (r.b - s.b))
  {
    var s := Floored(aNeed, bNeed, total, aFloor, bFloor);
    var left := Left(s, total);
    FlooredWithinDemand(aNeed, bNeed, total, aFloor, bFloor);
    ZeroWeightOffersAllToB(left, 0.0);
    if SurplusPassRuns(s, aNeed, bNeed, total) {
      var st := TopUp(s, aNeed, bNeed, total, 0, left);
      TopUpWithinGaps(s, aNeed, bNeed, total, 0);
      StallBumpNeverFires(s, aNeed, bNeed, total, 0);
      MopUpFavoursA(st, aNeed, bNeed);
    }
  }

  // ---------------------------------------------------------------------------
  // Both resources
  // ---------------------------------------------------------------------------

  /**
   The allocation invariants, for CPU and for RAM: within demand and within
   capacity for any real weights, and non-negative for non-negative weights.
   */
  lemma AllocateInvariants(aNeed: Demand, bNeed: Demand, totalCpu: nat, totalRam: nat, floors: Floors, weights: Weights)
    ensures var r := Allocate(aNeed, bNeed, totalCpu, totalRam, floors, weights);
      && r.aCpu <= aNeed.cpu && r.bCpu <= bNeed.cpu && r.aCpu + r.bCpu <= totalCpu
      && r.aRam <= aNeed.ram && r.bRam <= bNeed.ram && r.aRam + r.bRam <= totalRam
    ensures 0.0 <= weights.a && 0.0 <= weights.b ==>
      var r := Allocate(aNeed, bNeed, totalCpu, totalRam, floors, weights);
      0 <= r.aCpu && 0 <= r.bCpu && 0 <= r.aRam && 0 <= r.bRam
  {
    AllocOneConserves(aNeed.cpu, bNeed.cpu, totalCpu, floors.aCpu, floors.bCpu, weights.a, weights.b);
    AllocOneConserves(aNeed.ram, bNeed.ram, totalRam, floors.aRam, floors.bRam, weights.a, weights.b);
  }

  /**
   CPU and RAM are computed independently: the CPU result depends only on
   the CPU inputs and the weights, and the RAM result only on the RAM inputs
   and the weights.
   */
  lemma AllocateResourcesIndependent(aNeed: Demand, bNeed: Demand, totalCpu: nat, totalRam: nat, floors: Floors,
                                     aNeed': Demand, bNeed': Demand, totalCpu': nat, totalRam': nat, floors': Floors,
                                     weights: Weights)
    ensures (&& aNeed.cpu == aNeed'.cpu && bNeed.cpu == bNeed'.cpu && totalCpu == totalCpu'
             && floors.aCpu == floors'.aCpu && floors.bCpu == floors'.bCpu) ==>
      var r := Allocate(aNeed, bNeed, totalCpu, totalRam, floors, weights);
      var r' := Allocate(aNeed', bNeed', totalCpu', totalRam', floors', weights);
      r.aCpu == r'.aCpu && r.bCpu == r'.bCpu
    ensures (&& aNeed.ram == aNeed'.ram && bNeed.ram == bNeed'.ram && totalRam == totalRam'
             && floors.aRam == floors'.aRam && floors.bRam == floors'.bRam) ==>
      var r := Allocate(aNeed, bNeed, totalCpu, totalRam, floors, weights);
      var r' := Allocate(aNeed', bNeed', totalCpu', totalRam', floors', weights);
      r.aRam == r'.aRam && r.bRam == r'.bRam
  {
  }
}
