// Which messages the launches of the flags all-reduce take, sizes in packs, when the buffers
// were made for a message of `max`.
module FlagsSizes {
  import opened Arith
  import opened WireFormat
  import opened AllReduceSum
  import opened FlagsCompressed

  // --- The two-shot ---------------------------------------------------------------------------

  // The two-shot's check on its launch: the stage was sized for a message of `max` packs.
  predicate Fits(ranks: nat, max: nat, size: nat)
    requires 0 < ranks
  {
    2 * ranks * Largest(ranks, size) <= 2 * ranks * Largest(ranks, max)
  }

  // The largest partition is a quotient and a remainder together.
  lemma LargestIs(ranks: nat, size: nat)
    requires 0 < ranks
    ensures Largest(ranks, size) == size / ranks + size % ranks
  {
    DivBounds(size, ranks);
    assert ranks * (size / ranks) == (ranks - 1) * (size / ranks) + size / ranks;
  }

  // eligible() admits any size up to the maximum, yet not every one fits: at four
  // ranks and 16384 packs, 16383 packs need a partition of 4098.
  lemma EligibleMayNotFit()
    ensures Largest(4, 16384) == 4096 && Largest(4, 16383) == 4098 && !Fits(4, 16384, 16383)
  {
    LargestIs(4, 16384);
    LargestIs(4, 16383);
  }

  // Every eligible size fits exactly when the maximum is below the rank count, or its
  // remainder is one of the two largest.
  lemma EligibleFits(ranks: nat, max: nat)
    requires 1 < ranks
    ensures (forall size: nat | 0 < size <= max :: Fits(ranks, max, size))
            <==> (max < ranks || max % ranks >= ranks - 2)
  {
    LargestIs(ranks, max);
    if max < ranks || max % ranks >= ranks - 2 {
      forall size: nat | 0 < size <= max
        ensures Fits(ranks, max, size)
      {
        LargestIs(ranks, size);
        SmallerFits(ranks, max, size);
        MulMono(Largest(ranks, size), Largest(ranks, max), 2 * ranks);
      }
    } else {
      var d := max / ranks;
      DivBounds(max, ranks);
      assert d >= 1 by {
        DivGalois(1, max, ranks);
      }
      MulMono(1, d, ranks);
      var size := d * ranks - 1;
      assert size == (d - 1) * ranks + (ranks - 1);
      DivModUnique(size, ranks, d - 1, ranks - 1);
      LargestIs(ranks, size);
      assert Largest(ranks, max) + 1 <= Largest(ranks, size);
      MulMono(Largest(ranks, max) + 1, Largest(ranks, size), 2 * ranks);
      assert !Fits(ranks, max, size);
    }
  }

  lemma SmallerFits(ranks: nat, max: nat, size: nat)
    requires 1 < ranks && size <= max
    requires max < ranks || max % ranks >= ranks - 2
    ensures size / ranks + size % ranks <= max / ranks + max % ranks
  {
    DivBounds(size, ranks);
    DivBounds(max, ranks);
    if size / ranks >= max / ranks {
      DivGalois(size / ranks, max, ranks);
      MulMono(max / ranks, size / ranks, ranks);
      assert size / ranks == max / ranks;
    } else if max < ranks {
      DivModUnique(max, ranks, 0, max);
      DivModUnique(size, ranks, 0, size);
    }
  }

  // The two-shot's check is that its stage holds the call.
  lemma FitsIs(ranks: nat, max: nat, size: nat)
    requires 0 < ranks
    ensures Fits(ranks, max, size) <==> Largest(ranks, size) <= Largest(ranks, max)
  {
    if Largest(ranks, size) <= Largest(ranks, max) {
      MulMono(Largest(ranks, size), Largest(ranks, max), 2 * ranks);
    } else {
      MulMono(Largest(ranks, max) + 1, Largest(ranks, size), 2 * ranks);
    }
  }

  // --- The one-shot, on the two-shot's stage ------------------------------------------------------

  predicate OneShotFits(ranks: nat, max: nat, size: nat)
    requires 0 < ranks
  {
    ranks * size <= 2 * ranks * Largest(ranks, max)
  }

  // A message fits up to twice the largest partition.
  lemma OneShotFitsIs(ranks: nat, max: nat, size: nat)
    requires 0 < ranks
    ensures OneShotFits(ranks, max, size) <==> size <= 2 * Largest(ranks, max)
  {
    assert 2 * ranks * Largest(ranks, max) == ranks * (2 * Largest(ranks, max));
    if size <= 2 * Largest(ranks, max) {
      MulMono(size, 2 * Largest(ranks, max), ranks);
    } else {
      MulMono(2 * Largest(ranks, max) + 1, size, ranks);
    }
  }

  // So of four ranks' messages only the shortest maxima admit every size.
  lemma OneShotEligibleFits(max: nat)
    ensures (forall size: nat | 0 < size <= max :: OneShotFits(4, max, size)) <==> max < 4 || max == 6 || max == 7
  {
    LargestIs(4, max);
    forall size: nat
      ensures OneShotFits(4, max, size) <==> size <= 2 * (max / 4 + max % 4)
    {
      OneShotFitsIs(4, max, size);
    }
    if max >= 4 && max != 6 && max != 7 {
      assert !OneShotFits(4, max, max);
    }
  }

  // --- The compressed kernel ----------------------------------------------------------------------

  // z_block_slots: the blocks of the largest of four partitions.
  function ZBlockSlots(size: nat): nat {
    CeilDiv(Largest(4, size), BLOCK_PACKS)
  }

  predicate ZFits(max: nat, size: nat) {
    ZBlockSlots(size) <= ZBlockSlots(max)
  }

  // That is what the runs of compressed calls need of a message.
  lemma ZFitsIs(max: nat, m: Message)
    requires m.Ok() && m.ranks == 4
    ensures ZFits(max, m.size) <==> Blocks(m, 3) <= ZBlockSlots(max)
  {
  }

  // A smaller message may need more blocks: 119 packs two, 120 one.
  lemma ZEligibleMayNotFit()
    ensures ZBlockSlots(120) == 1 && ZBlockSlots(119) == 2 && !ZFits(120, 119)
  {
    LargestIs(4, 120);
    LargestIs(4, 119);
  }

  // Every eligible size fits exactly when the maximum leaves none of these remainders of the
  // 124 packs that four blocks hold.
  lemma ZEligibleFits(max: nat)
    requires 0 < max
    ensures (forall size: nat | 0 < size <= max :: ZFits(max, size)) <==> max % 124 !in {0, 120, 121}
  {
    if max % 124 in {0, 120, 121} {
      ZWitness(max);
    } else {
      forall size: nat | 0 < size <= max
        ensures ZFits(max, size)
      {
        ZSmaller(max, size);
      }
    }
  }

  // The largest message below with three packs over has the largest partition of all.
  lemma ZWitness(max: nat)
    requires 0 < max && max % 124 in {0, 120, 121}
    ensures 0 < max / 4 * 4 - 1 <= max && !ZFits(max, max / 4 * 4 - 1)
  {
    LargestIs(4, max);
    LargestIs(4, max / 4 * 4 - 1);
    assert Largest(4, max / 4 * 4 - 1) == max / 4 + 2;
  }

  lemma ZSmaller(max: nat, size: nat)
    requires 0 < size <= max && max % 124 !in {0, 120, 121}
    ensures ZFits(max, size)
  {
    LargestIs(4, max);
    LargestIs(4, size);
    if size / 4 == max / 4 {
      assert size % 4 <= max % 4;
    } else {
      assert size / 4 + size % 4 <= max / 4 + 2;
    }
  }
}
