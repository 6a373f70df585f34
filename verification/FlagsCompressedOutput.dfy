// What the warps of the compressed two-shot write: each CTA its range of blocks, its own
// partition's as it reduces them, the other owners' as they come in.
module FlagsCompressedOutput {
  import opened Arith
  import opened WireFormat
  import opened FlagsProtocol
  import opened AllReduceSum
  import opened FlagsKernels
  import opened FlagsOutput
  import opened FlagsCompressed

  // --- Packs and blocks --------------------------------------------------------------------

  function OwnerAt(m: Message, i: nat): (q: nat)
    requires 0 < m.ranks && i < m.size
    ensures q < m.ranks
  {
    OwnerIsRank(m.ranks, m.size, i);
    Owner(m.ranks, m.size, i)
  }

  function BlockAt(m: Message, i: nat): nat
    requires 0 < m.ranks && i < m.size
  {
    Area(BLOCK_PACKS, PartOffset(m, i))
  }

  function LaneAt(m: Message, i: nat): (lane: nat)
    requires 0 < m.ranks && i < m.size
    ensures lane < BLOCK_PACKS
  {
    Offset(BLOCK_PACKS, PartOffset(m, i))
  }

  predicate InBlock(m: Message, i: nat, q: nat, b: nat)
    requires 0 < m.ranks && i < m.size
  {
    OwnerAt(m, i) == q && BlockAt(m, i) == b
  }

  // Lane `lane` of a block is one pack of the output, if it is valid.
  lemma LanePack(m: Message, q: nat, b: nat, lane: nat)
    requires 0 < m.ranks && q < m.ranks && lane < BLOCK_PACKS
    ensures Valid(m, q, b, lane) ==>
              var at := PackAt(m.ranks, m.size, q, At(BLOCK_PACKS, b, lane));
              at < m.size && InBlock(m, at, q, b) && LaneAt(m, at) == lane
    ensures forall i: nat | i < m.size && InBlock(m, i, q, b) && LaneAt(m, i) == lane ::
              Valid(m, q, b, lane) && i == PackAt(m.ranks, m.size, q, At(BLOCK_PACKS, b, lane))
  {
    if Valid(m, q, b, lane) {
      PartCoordinates(m, q, At(BLOCK_PACKS, b, lane));
      AtInverse(BLOCK_PACKS, b, lane);
    }
    forall i: nat | i < m.size && InBlock(m, i, q, b) && LaneAt(m, i) == lane
      ensures Valid(m, q, b, lane) && i == PackAt(m.ranks, m.size, q, At(BLOCK_PACKS, b, lane))
    {
      var o, c, l := PackLane(m, i);
    }
  }

  // --- One block -----------------------------------------------------------------------------

  ghost predicate LaneIs<F>(fl: Floats<F>, m: Message, q: nat, b: nat, lane: nat, x: Pack)
    requires m.Ok() && q < m.ranks && Valid(m, q, b, lane)
  {
    var at := PackAt(m.ranks, m.size, q, At(BLOCK_PACKS, b, lane));
    at < m.size && x == m.Result(fl)[at]
  }

  // The valid lanes of a warp write their packs of block b of partition q.
  method WriteBlock<F(!new)>(ghost fl: Floats<F>, m: Message, q: nat, b: nat, vals: seq<Pack>, out: array<Pack>)
    requires m.Ok() && q < m.ranks && |vals| == BLOCK_PACKS && out.Length == m.size
    requires forall lane: nat | lane < BLOCK_PACKS && Valid(m, q, b, lane) :: LaneIs(fl, m, q, b, lane, vals[lane])
    modifies out
    ensures forall i: nat | i < m.size :: out[i] == if InBlock(m, i, q, b) then m.Result(fl)[i] else old(out[i])
  {
    for lane := 0 to BLOCK_PACKS
      invariant forall i: nat | i < m.size ::
                  out[i] == if InBlock(m, i, q, b) && LaneAt(m, i) < lane then m.Result(fl)[i] else old(out[i])
    {
      LanePack(m, q, b, lane);
      if Valid(m, q, b, lane) {
        assert LaneIs(fl, m, q, b, lane, vals[lane]);
        out[PackAt(m.ranks, m.size, q, At(BLOCK_PACKS, b, lane))] := vals[lane];
      }
    }
  }

  // The owner's lane: its own pack and its peers', summed in owner order and rounded once.
  method ReduceLane<F(!new)>(fl: Floats<F>, m: Message, lb: nat, ghost call: Call, rank: nat, got: map<nat, Pack>, b: nat, lane: nat)
    returns (x: Pack)
    requires NanOk(fl) && m.Ok() && IsTwoShotZ(fl, m, lb, call) && rank < m.ranks && GotCall(call, rank, got)
    requires Valid(m, rank, b, lane)
    ensures LaneIs(fl, m, rank, b, lane, x)
  {
    PartCoordinates(m, rank, At(BLOCK_PACKS, b, lane));
    var own := Sanitize(m.input[rank][PackAt(m.ranks, m.size, rank, At(BLOCK_PACKS, b, lane))]);
    var peers := PeerLanes(m, lb, rank, b, got, lane);
    var v: seq<Pack> := [own] + peers;
    var red := ReduceOwnerOrder(fl, v, 0);
    x := Sanitize(red);
    LaneReduced(fl, m, lb, call, rank, got, b, lane, own, v);
  }

  lemma LaneReduced<F(!new)>(fl: Floats<F>, m: Message, lb: nat, call: Call, rank: nat, got: map<nat, Pack>, b: nat, lane: nat,
                             own: Pack, v: seq<Pack>)
    requires NanOk(fl) && m.Ok() && IsTwoShotZ(fl, m, lb, call) && rank < m.ranks && GotCall(call, rank, got)
    requires Valid(m, rank, b, lane) && own == Input(m, rank, rank, At(BLOCK_PACKS, b, lane))
    requires v == [own] + PeerLanes(m, lb, rank, b, got, lane)
    ensures LaneIs(fl, m, rank, b, lane, Sanitize(SumPacks(fl, Rotated(v, 0))))
  {
    RotatedZero(v);
    ZReduced(fl, m, lb, call, rank, got, b, lane);
  }

  lemma RotatedZero(v: seq<Pack>)
    requires |v| > 0
    ensures Rotated(v, 0) == v
  {
    forall j | 0 <= j < |v|
      ensures Rotated(v, 0)[j] == v[j]
    {
      assert Around(0 + j, |v|) == j;
    }
  }

  method ReduceBlock<F(!new)>(fl: Floats<F>, m: Message, lb: nat, ghost call: Call, rank: nat, got: map<nat, Pack>, b: nat, out: array<Pack>)
    requires NanOk(fl) && m.Ok() && IsTwoShotZ(fl, m, lb, call) && rank < m.ranks && GotCall(call, rank, got)
    requires out.Length == m.size
    modifies out
    ensures forall i: nat | i < m.size :: out[i] == if InBlock(m, i, rank, b) then m.Result(fl)[i] else old(out[i])
  {
    var vals: seq<Pack> := seq(BLOCK_PACKS, _ => ZERO_PACK);
    for lane := 0 to BLOCK_PACKS
      invariant |vals| == BLOCK_PACKS
      invariant forall l: nat | l < lane && Valid(m, rank, b, l) :: LaneIs(fl, m, rank, b, l, vals[l])
      invariant forall i | 0 <= i < m.size :: out[i] == old(out[i])
    {
      if Valid(m, rank, b, lane) {
        var x := ReduceLane(fl, m, lb, call, rank, got, b, lane);
        vals := vals[lane := x];
      }
    }
    WriteBlock(fl, m, rank, b, vals, out);
  }

  // Another owner's block, decoded from what it sent.
  method GatherBlock<F(!new)>(ghost fl: Floats<F>, m: Message, lb: nat, ghost call: Call, rank: nat, got: map<nat, Pack>,
                              q: nat, b: nat, out: array<Pack>)
    requires NanOk(fl) && m.Ok() && IsTwoShotZ(fl, m, lb, call) && rank < m.ranks && GotCall(call, rank, got)
    requires q < m.ranks && q != rank && out.Length == m.size
    modifies out
    ensures forall i: nat | i < m.size :: out[i] == if InBlock(m, i, q, b) then m.Result(fl)[i] else old(out[i])
  {
    var vals := seq(BLOCK_PACKS, lane requires 0 <= lane < BLOCK_PACKS => Decoded(got, lb, m.ranks + q, b, lane));
    forall lane: nat | lane < BLOCK_PACKS && Valid(m, q, b, lane)
      ensures LaneIs(fl, m, q, b, lane, vals[lane])
    {
      ZGathered(fl, m, lb, call, rank, got, q, b, lane);
      ReducedLane(fl, m, q, b, lane);
    }
    WriteBlock(fl, m, q, b, vals, out);
  }

  // --- A warp ----------------------------------------------------------------------------------

  // Which of its CTA's blocks, or tasks, brings pack i.
  function TurnOf(m: Message, rank: nat, g: Range, i: nat): nat
    requires 1 < m.ranks && rank < m.ranks && i < m.size && InRange(g, BlockAt(m, i))
  {
    var q := OwnerAt(m, i);
    if q == rank then BlockAt(m, i) - g.lo
    else At(m.ranks - 1, BlockAt(m, i) - g.lo, if q > rank then q - rank - 1 else q + m.ranks - rank - 1)
  }

  // A warp of the CTA writes pack i.
  predicate WarpWrites(m: Message, rank: nat, g: Range, warp: nat, warps: nat, own: bool, i: nat)
    requires 1 < m.ranks && rank < m.ranks && i < m.size && 0 < warps
  {
    InRange(g, BlockAt(m, i)) && (own <==> OwnerAt(m, i) == rank) && Offset(warps, TurnOf(m, rank, g, i)) == warp
  }

  predicate WarpWrote(m: Message, rank: nat, g: Range, warp: nat, warps: nat, own: bool, upto: nat, i: nat)
    requires 1 < m.ranks && rank < m.ranks && i < m.size && 0 < warps
  {
    WarpWrites(m, rank, g, warp, warps, own, i) && TurnOf(m, rank, g, i) < upto
  }

  // One more turn of the warp is one more block.
  lemma NextTurn(m: Message, rank: nat, g: Range, warp: nat, warps: nat, own: bool, t: nat, q: nat, b: nat, i: nat)
    requires 1 < m.ranks && rank < m.ranks && i < m.size && 0 < warps && Offset(warps, t) == warp
    requires InRange(g, b) && q < m.ranks && (own <==> q == rank)
    requires if own then b == g.lo + t else TaskBlock(m.ranks, g, t) == b && TaskPeer(m.ranks, rank, t) == q
    ensures WarpWrote(m, rank, g, warp, warps, own, t + warps, i)
            <==> WarpWrote(m, rank, g, warp, warps, own, t, i) || InBlock(m, i, q, b)
  {
    if InRange(g, BlockAt(m, i)) && (own <==> OwnerAt(m, i) == rank) {
      var u := TurnOf(m, rank, g, i);
      if t < u < t + warps {
        OffsetBetween(warps, t, u);
      }
      if !own {
        TurnIsTask(m, rank, g, i, t);
      }
    }
  }

  lemma TurnIsTask(m: Message, rank: nat, g: Range, i: nat, t: nat)
    requires 1 < m.ranks && rank < m.ranks && i < m.size && InRange(g, BlockAt(m, i)) && OwnerAt(m, i) != rank
    ensures TurnOf(m, rank, g, i) < At(m.ranks - 1, g.n, 0)
    ensures TaskBlock(m.ranks, g, t) == BlockAt(m, i) && TaskPeer(m.ranks, rank, t) == OwnerAt(m, i) <==> t == TurnOf(m, rank, g, i)
  {
    var q, b := OwnerAt(m, i), BlockAt(m, i);
    var k := if q > rank then q - rank - 1 else q + m.ranks - rank - 1;
    AtInverse(m.ranks - 1, b - g.lo, k);
    AtBelow(m.ranks - 1, b - g.lo, k, g.n);
    AtOfArea(m.ranks - 1, t);
  }

  // The owner's loop: the blocks of the CTA's range that its partition has.
  method WarpReduces<F(!new)>(fl: Floats<F>, m: Message, lb: nat, ghost call: Call, rank: nat, got: map<nat, Pack>,
                              g: Range, warp: nat, warps: nat, out: array<Pack>)
    requires NanOk(fl) && m.Ok() && IsTwoShotZ(fl, m, lb, call) && rank < m.ranks && GotCall(call, rank, got)
    requires warp < warps && out.Length == m.size
    modifies out
    ensures forall i: nat | i < m.size ::
              out[i] == if WarpWrites(m, rank, g, warp, warps, true, i) then m.Result(fl)[i] else old(out[i])
  {
    var t := warp;
    while g.lo + t < g.lo + g.n && g.lo + t < Blocks(m, rank)
      invariant Offset(warps, t) == warp
      invariant forall i: nat | i < m.size ::
                  out[i] == if WarpWrote(m, rank, g, warp, warps, true, t, i) then m.Result(fl)[i] else old(out[i])
      decreases g.n - t
    {
      ReduceBlock(fl, m, lb, call, rank, got, g.lo + t, out);
      forall i: nat | i < m.size
        ensures WarpWrote(m, rank, g, warp, warps, true, t + warps, i)
                <==> WarpWrote(m, rank, g, warp, warps, true, t, i) || InBlock(m, i, rank, g.lo + t)
      {
        NextTurn(m, rank, g, warp, warps, true, t, rank, g.lo + t, i);
      }
      NextOffset(warps, t);
      t := t + warps;
    }
    forall i: nat | i < m.size
      ensures WarpWrote(m, rank, g, warp, warps, true, t, i) <==> WarpWrites(m, rank, g, warp, warps, true, i)
    {
      BlockBelow(m, i);
    }
  }

  lemma BlockBelow(m: Message, i: nat)
    requires 0 < m.ranks && i < m.size
    ensures BlockAt(m, i) < Blocks(m, OwnerAt(m, i))
  {
    var q, b, lane := PackLane(m, i);
    ValidBlock(m, q, b, lane);
  }

  // The gather loop: a block and a peer each turn.
  method WarpGathers<F(!new)>(ghost fl: Floats<F>, m: Message, lb: nat, ghost call: Call, rank: nat, got: map<nat, Pack>,
                              g: Range, warp: nat, warps: nat, out: array<Pack>)
    requires NanOk(fl) && m.Ok() && IsTwoShotZ(fl, m, lb, call) && rank < m.ranks && GotCall(call, rank, got)
    requires warp < warps && out.Length == m.size
    modifies out
    ensures forall i: nat | i < m.size ::
              out[i] == if WarpWrites(m, rank, g, warp, warps, false, i) then m.Result(fl)[i] else old(out[i])
  {
    var t, end := warp, At(m.ranks - 1, g.n, 0);
    while t < end
      invariant Offset(warps, t) == warp
      invariant forall i: nat | i < m.size ::
                  out[i] == if WarpWrote(m, rank, g, warp, warps, false, t, i) then m.Result(fl)[i] else old(out[i])
      decreases end - t
    {
      TaskIn(m.ranks, rank, g, t);
      var b, q := TaskBlock(m.ranks, g, t), TaskPeer(m.ranks, rank, t);
      if b < Blocks(m, q) {
        GatherBlock(fl, m, lb, call, rank, got, q, b, out);
      }
      forall i: nat | i < m.size
        ensures WarpWrote(m, rank, g, warp, warps, false, t + warps, i)
                <==> WarpWrote(m, rank, g, warp, warps, false, t, i) || InBlock(m, i, q, b)
        ensures InBlock(m, i, q, b) ==> b < Blocks(m, q)
      {
        NextTurn(m, rank, g, warp, warps, false, t, q, b, i);
        BlockBelow(m, i);
      }
      NextOffset(warps, t);
      t := t + warps;
    }
    forall i: nat | i < m.size
      ensures WarpWrote(m, rank, g, warp, warps, false, t, i) <==> WarpWrites(m, rank, g, warp, warps, false, i)
    {
      if InRange(g, BlockAt(m, i)) && OwnerAt(m, i) != rank {
        TurnIsTask(m, rank, g, i, t);
      }
    }
  }

  // --- The grid --------------------------------------------------------------------------------

  // All the warps of a CTA.
  method CtaWrites<F(!new)>(fl: Floats<F>, m: Message, lb: nat, ghost call: Call, rank: nat, got: map<nat, Pack>,
                            g: Range, warps: nat, out: array<Pack>)
    requires NanOk(fl) && m.Ok() && IsTwoShotZ(fl, m, lb, call) && rank < m.ranks && GotCall(call, rank, got)
    requires 0 < warps && out.Length == m.size
    modifies out
    ensures forall i: nat | i < m.size :: out[i] == if InRange(g, BlockAt(m, i)) then m.Result(fl)[i] else old(out[i])
  {
    for warp := 0 to warps
      invariant forall i: nat | i < m.size :: out[i] == if WarpsWrote(m, rank, g, warp, warps, i) then m.Result(fl)[i] else old(out[i])
    {
      WarpReduces(fl, m, lb, call, rank, got, g, warp, warps, out);
      WarpGathers(fl, m, lb, call, rank, got, g, warp, warps, out);
    }
  }

  predicate WarpsWrote(m: Message, rank: nat, g: Range, warp: nat, warps: nat, i: nat)
    requires 1 < m.ranks && rank < m.ranks && i < m.size && 0 < warps
  {
    InRange(g, BlockAt(m, i)) && Offset(warps, TurnOf(m, rank, g, i)) < warp
  }

  // The whole launch: however many CTAs and warps, the output is the result.
  method GridWrites<F(!new)>(fl: Floats<F>, m: Message, lb: nat, rank: nat, got: map<nat, Pack>, grid: nat, warps: nat, out: array<Pack>)
    requires NanOk(fl) && m.Ok() && 0 < lb && Blocks(m, m.ranks - 1) <= lb && rank < m.ranks
    requires GotCall(TwoShotZ(fl, m, lb), rank, got)
    requires 0 < grid && 0 < warps && out.Length == m.size
    modifies out
    ensures out[..] == m.Result(fl)
  {
    ghost var call := TwoShotZIs(fl, m, lb);
    var blocks := Blocks(m, m.ranks - 1);
    var per := CeilDiv(blocks, grid);
    AllBlocks(m, grid);
    for c := 0 to grid
      invariant forall i: nat | i < m.size && (exists o: nat :: o < c && InRange(CtaRange(blocks, per, o), BlockAt(m, i))) ::
                  out[i] == m.Result(fl)[i]
    {
      CtaWrites(fl, m, lb, call, rank, got, CtaRange(blocks, per, c), warps, out);
    }
    forall i: nat | i < m.size
      ensures out[i] == m.Result(fl)[i]
    {
      var p, o := BlockCta(blocks, grid, BlockAt(m, i));
      assert InRange(CtaRange(blocks, per, o), BlockAt(m, i));
    }
  }

  // Every pack's block is one of the grid's, which covers the longest partition.
  lemma AllBlocks(m: Message, grid: nat)
    requires m.Ok() && 0 < grid
    ensures 0 <= CeilDiv(Blocks(m, m.ranks - 1), grid)
    ensures forall i: nat | i < m.size :: BlockAt(m, i) < Blocks(m, m.ranks - 1)
  {
    CeilDivBounds(Blocks(m, m.ranks - 1), grid);
    if CeilDiv(Blocks(m, m.ranks - 1), grid) < 0 {
      MulMono(CeilDiv(Blocks(m, m.ranks - 1), grid), -1, grid);
    }
    forall i: nat | i < m.size
      ensures BlockAt(m, i) < Blocks(m, m.ranks - 1)
    {
      BlockBelow(m, i);
      BlocksFit(m, OwnerAt(m, i));
    }
  }
}
