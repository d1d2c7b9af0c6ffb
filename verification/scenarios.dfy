/**
 Worked examples of the allocator. The first two use the capacities and
 floors the simulation driver passes (32 vCPUs, 64 GB, floors 7/9 for A and
 5/7 for B); the others use small inputs of their own.
 */
module AllocatorScenarios {
  import opened Allocator

  /**
   B asks for nothing and gets nothing. For CPU, A's floor of 7 is topped up
   to its demand of 10 from the surplus. For RAM, A's floor of 9 exceeds its
   demand of 8, so the floor pass already caps A at 8; both gaps are then 0
   and the surplus pass is skipped.
   */
  lemma ScenarioTenantBIdle()
    ensures Allocate(Demand(10, 8), Demand(0, 0), 32, 64, Floors(7, 9, 5, 7), Weights(1.0, 1.0))
         == Allocation(10, 8, 0, 0)
  {
    assert 25.0 * (1.0 / 2.0) == 12.5;
    assert ShareA(25, 1.0, 1.0) == 12;
    assert AllocOne(10, 0, 32, 7, 5, 1.0, 1.0) == Share(10, 0);
    assert AllocOne(8, 0, 64, 9, 7, 1.0, 1.0) == Share(8, 0);
  }

  /**
   The priority window (weights 1.6 to 1.0): of the 20 spare vCPUs A is
   offered 12 and B 8, which fills B's gap exactly; RAM is plentiful and
   both tenants get their whole demand.
   */
  lemma ScenarioPriorityWindow()
    ensures ShareA(20, 1.6, 1.0) == 12
    ensures Allocate(Demand(24, 16), Demand(13, 12), 32, 64, Floors(7, 9, 5, 7), Weights(1.6, 1.0))
         == Allocation(19, 16, 13, 12)
  {
  }

  /** Floors of 20 and 20 on 32 vCPUs, both demands at least 20: B is trimmed by 8, A untouched. */
  lemma ScenarioFloorsOvercommit(aNeed: nat, bNeed: nat, aW: real, bW: real)
    requires aNeed >= 20 && bNeed >= 20
    ensures AllocOne(aNeed, bNeed, 32, 20, 20, aW, bW) == Share(20, 12)
  {
  }

  /**
   Zero weights are not the 1:1 split: with no floors, demands of 10 each
   and 10 units, weights 0/0 give B everything while weights 1/1 halve it.
   */
  lemma ZeroWeightsNotEqualSplit()
    ensures AllocOne(10, 10, 10, 0, 0, 0.0, 0.0) == Share(0, 10)
    ensures AllocOne(10, 10, 10, 0, 0, 1.0, 1.0) == Share(5, 5)
  {
    var s := Floored(10, 10, 10, 0, 0);
    assert s == Share(0, 0) && Left(s, 10) == 10;
    assert ShareA(10, 0.0, 0.0) == 0;
    assert Distribute(s, 10, 10, 10, 0) == Share(0, 10);
    assert 10.0 * (1.0 / 2.0) == 5.0;
    assert ShareA(10, 1.0, 1.0) == 5;
    assert Distribute(s, 10, 10, 10, 5) == Share(5, 5);
  }

  /** Equal weights and an odd surplus: truncation gives the odd unit to B at the split. */
  lemma EqualWeightsOddSurplus()
    ensures AllocOne(10, 10, 11, 0, 0, 1.0, 1.0) == Share(5, 6)
  {
  }

  /**
   Why non-negativity assumes non-negative weights: with weights 2 and -1,
   the offers are 20 and -10 of a 10-unit surplus, so A gets twice the
   capacity and B ends below zero. The two still sum to the capacity.
   */
  lemma NegativeWeightBreaksNonNegativity()
    ensures AllocOne(100, 0, 10, 0, 0, 2.0, -1.0) == Share(20, -10)
  {
    assert ShareA(10, 2.0, -1.0) == 20;
  }
}
