// The compressed two-shot as a call of the flags protocol: partitions travel as
// blocks of 31 packs in the wire format, an owner decodes its peers' blocks,
// reduces, and sends the encoded result.
module FlagsCompressed {
  import opened Arith
  import opened WireFormat
  import WireKernel
  import opened FlagsProtocol
  import opened AllReduceSum
  import opened FlagsKernels

  // --- Blocks ------------------------------------------------------------------------

  // Lane `lane` of block b of partition q carries a pack.
  predicate Valid(m: Message, q: nat, b: nat, lane: nat)
    requires q < m.ranks
  {
    lane < BLOCK_PACKS && At(BLOCK_PACKS, b, lane) < PartLen(m.ranks, q, m.size)
  }

  // Blocks of partition q.
  function Blocks(m: Message, q: nat): nat
    requires q < m.ranks
  {
    PartFacts(m.ranks, m.size);
    CeilDiv(PartLen(m.ranks, q, m.size), BLOCK_PACKS)
  }

  // What sender s encodes of partition q's block b.
  ghost function InputBlock(m: Message, s: nat, q: nat, b: nat): (v: seq<Pack>)
    requires m.Ok() && s < m.ranks && q < m.ranks
    ensures |v| == LANES
  {
    seq(LANES, (lane: nat) requires lane < LANES =>
      if Valid(m, q, b, lane) then Input(m, s, q, At(BLOCK_PACKS, b, lane)) else ZERO_PACK)
  }

  // What owner q encodes of its reduced block b.
  ghost function ReducedBlock<F>(fl: Floats<F>, m: Message, q: nat, b: nat): (v: seq<Pack>)
    requires m.Ok() && q < m.ranks
    ensures |v| == LANES
  {
    seq(LANES, (lane: nat) requires lane < LANES =>
      if Valid(m, q, b, lane) then Reduce(fl, OwnerPacks(m, q, At(BLOCK_PACKS, b, lane))) else ZERO_PACK)
  }

  lemma CleanQuad(p: Pack)
    ensures Clean(p) <==> !Dirty(PackQuad(p))
  {
    forall w: nat | w < 4
      ensures WordOf(p, w) == SENTINEL <==> SentinelAt(PackQuad(p), w)
    {
      assert (4 * w) / 2 == 2 * w && (4 * w + 1) / 2 == 2 * w && (4 * w + 2) / 2 == 2 * w + 1 && (4 * w + 3) / 2 == 2 * w + 1;
    }
    if Clean(p) {
      assert WordOf(p, 0) != SENTINEL && WordOf(p, 1) != SENTINEL && WordOf(p, 2) != SENTINEL && WordOf(p, 3) != SENTINEL;
    }
  }

  lemma QuadRoundTrip(q: Quad)
    ensures PackQuad(QuadPack(q)) == q
  {
  }

  lemma ZeroPackClean()
    ensures Clean(ZERO_PACK)
  {
  }

  // A block of clean packs is stored without a sentinel word.
  lemma CleanStored(v: seq<Pack>, j: nat)
    requires |v| == LANES && j < |WireKernel.Sent(v)| && forall lane | 0 <= lane < LANES :: Clean(v[lane])
    ensures Clean(QuadPack(WireKernel.Sent(v)[j]))
  {
    forall k | 0 <= k < BLOCK_PACKS
      ensures !Dirty(PackQuad(v[k]))
    {
      CleanQuad(v[k]);
    }
    WireKernel.SentClean(v, j);
    QuadRoundTrip(WireKernel.Sent(v)[j]);
    CleanQuad(QuadPack(WireKernel.Sent(v)[j]));
  }

  lemma InputBlockClean(m: Message, s: nat, q: nat, b: nat)
    requires m.Ok() && s < m.ranks && q < m.ranks
    ensures forall lane | 0 <= lane < LANES :: Clean(InputBlock(m, s, q, b)[lane])
  {
    ZeroPackClean();
  }

  lemma ReducedBlockClean<F>(fl: Floats<F>, m: Message, q: nat, b: nat)
    requires m.Ok() && q < m.ranks
    ensures forall lane | 0 <= lane < LANES :: Clean(ReducedBlock(fl, m, q, b)[lane])
  {
    ZeroPackClean();
  }

  // --- Receiving ----------------------------------------------------------------------

  // Quad j of block b of area a.
  function QuadAt(lb: nat, a: nat, b: nat, j: nat): nat {
    At(LANES, At(lb, a, b), j)
  }

  function LookupQuad(got: map<nat, Pack>, addr: nat): Quad {
    if addr in got then PackQuad(got[addr]) else ZeroQuad()
  }

  // The slot's quads as the receiving warp holds them.
  function Held(got: map<nat, Pack>, lb: nat, a: nat, b: nat): (qs: seq<Quad>)
    ensures |qs| == LANES
  {
    seq(LANES, (j: nat) requires j < LANES => LookupQuad(got, QuadAt(lb, a, b, j)))
  }

  function AsPack(hs: seq<int>): Pack {
    if |hs| == 8 && forall i :: 0 <= i < 8 ==> 0 <= hs[i] < 65536 then hs else ZERO_PACK
  }

  // Lane `lane` of what the slot decodes to.
  function Decoded(got: map<nat, Pack>, lb: nat, a: nat, b: nat, lane: nat): Pack
    requires lane < BLOCK_PACKS
  {
    AsPack(Decode(Held(got, lb, a, b), lane))
  }

  // got holds the quads a sender of v stores in the slot.
  ghost predicate HasBlock(got: map<nat, Pack>, lb: nat, a: nat, b: nat, v: seq<Pack>)
    requires |v| == LANES
  {
    forall j: nat | j < |WireKernel.Sent(v)| ::
      QuadAt(lb, a, b, j) in got && got[QuadAt(lb, a, b, j)] == QuadPack(WireKernel.Sent(v)[j])
  }

  // Such a slot decodes to v.
  lemma DecodesBlock(got: map<nat, Pack>, lb: nat, a: nat, b: nat, v: seq<Pack>, lane: nat)
    requires |v| == LANES && HasBlock(got, lb, a, b, v) && lane < BLOCK_PACKS
    ensures Decoded(got, lb, a, b, lane) == v[lane]
  {
    var held := Held(got, lb, a, b);
    HeldIsSent(got, lb, a, b, WireKernel.Sent(v));
    WireKernel.HeldWhenAllIn(held, v);
    BlockRoundTrip(held, v, lane);
  }

  lemma HeldIsSent(got: map<nat, Pack>, lb: nat, a: nat, b: nat, sent: seq<Quad>)
    requires |sent| <= LANES
    requires forall j: nat | j < |sent| :: QuadAt(lb, a, b, j) in got && got[QuadAt(lb, a, b, j)] == QuadPack(sent[j])
    ensures forall j: nat :: j < |sent| ==> Held(got, lb, a, b)[j] == sent[j]
  {
    forall j: nat | j < |sent|
      ensures Held(got, lb, a, b)[j] == sent[j]
    {
      QuadRoundTrip(sent[j]);
    }
  }

  // What owner q computes for its block b from what it decodes.
  ghost function ComputedBlock<F>(fl: Floats<F>, m: Message, lb: nat, q: nat, b: nat, got: map<nat, Pack>): (v: seq<Pack>)
    requires m.Ok() && q < m.ranks
    ensures |v| == LANES
  {
    seq(LANES, (lane: nat) requires lane < LANES =>
      if Valid(m, q, b, lane) then Reduce(fl, [Input(m, q, q, At(BLOCK_PACKS, b, lane))] + PeerLanes(m, lb, q, b, got, lane))
      else ZERO_PACK)
  }

  function PeerLanes(m: Message, lb: nat, q: nat, b: nat, got: map<nat, Pack>, lane: nat): (v: seq<Pack>)
    requires q < m.ranks && lane < BLOCK_PACKS
    ensures |v| == m.ranks - 1
  {
    seq(m.ranks - 1, (k: nat) requires k < m.ranks - 1 => PeerLane(m, lb, q, b, got, lane, k))
  }

  function PeerLane(m: Message, lb: nat, q: nat, b: nat, got: map<nat, Pack>, lane: nat, k: nat): (p: Pack)
    requires q < m.ranks && lane < BLOCK_PACKS && k < m.ranks - 1
  {
    Decoded(got, lb, Around(q + 1 + k, m.ranks), b, lane)
  }

  ghost predicate HasPeers(m: Message, lb: nat, q: nat, b: nat, got: map<nat, Pack>)
    requires m.Ok() && q < m.ranks
  {
    forall s: nat | s < m.ranks && s != q :: HasBlock(got, lb, s, b, InputBlock(m, s, q, b))
  }

  lemma PeerLaneIs(m: Message, lb: nat, q: nat, b: nat, got: map<nat, Pack>, lane: nat, k: nat)
    requires m.Ok() && q < m.ranks && HasPeers(m, lb, q, b, got) && Valid(m, q, b, lane) && k < m.ranks - 1
    ensures PeerLane(m, lb, q, b, got, lane, k) == OwnerPacks(m, q, At(BLOCK_PACKS, b, lane))[k + 1]
  {
    var s := Around(q + 1 + k, m.ranks);
    var x := OwnerPack(m, q, At(BLOCK_PACKS, b, lane), k + 1, s);
    var p := PeerDecodes(m, lb, q, b, got, lane, s);
    SameLane(m, lb, q, b, got, lane, k, s);
  }

  lemma SameLane(m: Message, lb: nat, q: nat, b: nat, got: map<nat, Pack>, lane: nat, k: nat, s: nat)
    requires q < m.ranks && lane < BLOCK_PACKS && k < m.ranks - 1 && s == Around(q + 1 + k, m.ranks)
    ensures PeerLane(m, lb, q, b, got, lane, k) == Decoded(got, lb, s, b, lane)
  {
  }

  lemma PeerDecodes(m: Message, lb: nat, q: nat, b: nat, got: map<nat, Pack>, lane: nat, s: nat) returns (p: Pack)
    requires m.Ok() && q < m.ranks && HasPeers(m, lb, q, b, got) && Valid(m, q, b, lane) && s < m.ranks && s != q
    ensures p == Decoded(got, lb, s, b, lane) && p == Input(m, s, q, At(BLOCK_PACKS, b, lane))
  {
    var v := InputBlock(m, s, q, b);
    p := v[lane];
    assert HasBlock(got, lb, s, b, v);
    DecodesBlock(got, lb, s, b, v, lane);
  }

  lemma OwnerPack(m: Message, q: nat, i: nat, k: nat, s: nat) returns (p: Pack)
    requires m.Ok() && q < m.ranks && i < PartLen(m.ranks, q, m.size) && k < m.ranks && s == Around(q + k, m.ranks)
    ensures p == OwnerPacks(m, q, i)[k] && p == Input(m, s, q, i)
  {
    p := Input(m, s, q, i);
  }

  lemma PeerLanesAre(m: Message, lb: nat, q: nat, b: nat, got: map<nat, Pack>, lane: nat)
    requires m.Ok() && q < m.ranks && HasPeers(m, lb, q, b, got) && Valid(m, q, b, lane)
    ensures [Input(m, q, q, At(BLOCK_PACKS, b, lane))] + PeerLanes(m, lb, q, b, got, lane)
            == OwnerPacks(m, q, At(BLOCK_PACKS, b, lane))
  {
    var i := At(BLOCK_PACKS, b, lane);
    var all := OwnerPacks(m, q, i);
    forall k: nat | k < m.ranks - 1
      ensures PeerLanes(m, lb, q, b, got, lane)[k] == all[k + 1]
    {
      PeerLaneIs(m, lb, q, b, got, lane, k);
    }
    var own := OwnerPack(m, q, i, 0, q);
    FirstAndRest(Input(m, q, q, i), PeerLanes(m, lb, q, b, got, lane), all);
  }

  // The owner computes its reduced block.
  lemma ComputesBlock<F>(fl: Floats<F>, m: Message, lb: nat, q: nat, b: nat, got: map<nat, Pack>)
    requires m.Ok() && q < m.ranks && HasPeers(m, lb, q, b, got)
    ensures ComputedBlock(fl, m, lb, q, b, got) == ReducedBlock(fl, m, q, b)
  {
    forall lane: nat | lane < LANES
      ensures ComputedBlock(fl, m, lb, q, b, got)[lane] == ReducedBlock(fl, m, q, b)[lane]
    {
      if Valid(m, q, b, lane) {
        PeerLanesAre(m, lb, q, b, got, lane);
      }
    }
  }

  // --- The call -------------------------------------------------------------------------

  // The partition whose blocks area a of rank d's stage holds: d's own in a
  // reduce-scatter area, owner a - ranks's in an all-gather area.
  predicate AreaOk(m: Message, d: nat, a: nat) {
    d < m.ranks && a < 2 * m.ranks && a != d && a != m.ranks + d
  }

  function AreaPart(m: Message, d: nat, a: nat): nat {
    if a < m.ranks then d else a - m.ranks
  }

  function AreaSender(m: Message, a: nat): nat {
    if a < m.ranks then a else a - m.ranks
  }

  ghost function AreaBlock<F>(fl: Floats<F>, m: Message, d: nat, a: nat, b: nat): (v: seq<Pack>)
    requires m.Ok() && AreaOk(m, d, a)
    ensures |v| == LANES
  {
    if a < m.ranks then InputBlock(m, a, d, b) else ReducedBlock(fl, m, a - m.ranks, b)
  }

  ghost function AreaQuads<F>(fl: Floats<F>, m: Message, d: nat, a: nat, b: nat): nat
    requires m.Ok() && AreaOk(m, d, a)
  {
    |WireKernel.Sent(AreaBlock(fl, m, d, a, b))|
  }

  ghost predicate QuadUsed<F>(fl: Floats<F>, m: Message, d: nat, a: nat, b: nat, j: nat)
    requires m.Ok()
  {
    AreaOk(m, d, a) && b < Blocks(m, AreaPart(m, d, a)) && j < AreaQuads(fl, m, d, a, b)
  }

  ghost function AreaQuad<F>(fl: Floats<F>, m: Message, d: nat, a: nat, b: nat, j: nat): (p: Pack)
    requires m.Ok() && QuadUsed(fl, m, d, a, b, j)
  {
    QuadPack(WireKernel.Sent(AreaBlock(fl, m, d, a, b))[j])
  }

  // Where owner q finds its peers' quads of block b.
  ghost function BlockNeeds<F>(fl: Floats<F>, m: Message, lb: nat, q: nat, b: nat): set<nat>
    requires m.Ok() && q < m.ranks
  {
    set s: nat, j: nat | s < m.ranks && j < LANES && AreaOk(m, q, s) && j < AreaQuads(fl, m, q, s, b) :: QuadAt(lb, s, b, j)
  }

  function QuadOf(v: seq<Pack>, j: nat): Pack
    requires |v| == LANES
  {
    QuadPack(WireKernel.QuadOr(WireKernel.Sent(v), j))
  }

  ghost function ZSlot<F>(fl: Floats<F>, m: Message, lb: nat, d: nat, a: nat, b: nat, j: nat): Slot
    requires m.Ok() && QuadUsed(fl, m, d, a, b, j)
  {
    var pack := AreaQuad(fl, m, d, a, b, j);
    if a < m.ranks then Slot(a, {}, got => pack, pack)
    else
      var q := a - m.ranks;
      Slot(q, BlockNeeds(fl, m, lb, q, b), MakeQuad(fl, m, lb, q, b, j), pack)
  }

  // What owner q sends as quad j of block b.
  ghost function MakeQuad<F>(fl: Floats<F>, m: Message, lb: nat, q: nat, b: nat, j: nat): map<nat, Pack> -> Pack
    requires m.Ok() && q < m.ranks
  {
    got => QuadOf(ComputedBlock(fl, m, lb, q, b, got), j)
  }

  lemma MakeQuadIs<F>(fl: Floats<F>, m: Message, lb: nat, q: nat, b: nat, j: nat, got: map<nat, Pack>, v: seq<Pack>)
    requires m.Ok() && q < m.ranks && v == ComputedBlock(fl, m, lb, q, b, got)
    ensures MakeQuad(fl, m, lb, q, b, j)(got) == QuadOf(v, j)
  {
  }

  // A stage of `lb` block slots per area.
  ghost function StageQuads(m: Message, lb: nat): nat {
    At(LANES, At(lb, 2 * m.ranks, 0), 0)
  }

  ghost function TwoShotZ<F>(fl: Floats<F>, m: Message, lb: nat): Call
    requires m.Ok() && 0 < lb
  {
    var places := set d: nat, addr: nat
      | d < m.ranks && addr < StageQuads(m, lb)
        && QuadUsed(fl, m, d, Area(lb, Area(LANES, addr)), Offset(lb, Area(LANES, addr)), Offset(LANES, addr)) ::
      Place(d, addr);
    Call(map p | p in places ::
           ZSlot(fl, m, lb, p.dst, Area(lb, Area(LANES, p.addr)), Offset(lb, Area(LANES, p.addr)), Offset(LANES, p.addr)),
         Blocks(m, m.ranks - 1))
  }

  ghost predicate ZSlotAt<F>(fl: Floats<F>, m: Message, lb: nat, call: Call, d: nat, a: nat, b: nat, j: nat)
    requires m.Ok() && QuadUsed(fl, m, d, a, b, j)
  {
    var p := Place(d, QuadAt(lb, a, b, j));
    p in call.slots && call.slots[p] == ZSlot(fl, m, lb, d, a, b, j)
  }

  ghost predicate IsTwoShotZ<F>(fl: Floats<F>, m: Message, lb: nat, call: Call)
    requires m.Ok()
  {
    forall d, a, b, j | QuadUsed(fl, m, d, a, b, j) :: ZSlotAt(fl, m, lb, call, d, a, b, j)
  }

  // Two quads of a stage have one address only if they are the same quad of the same
  // block of the same area.
  lemma QuadAtInverse(m: Message, lb: nat, a: nat, b: nat, j: nat)
    requires a < 2 * m.ranks && b < lb && j < LANES
    ensures Area(lb, Area(LANES, QuadAt(lb, a, b, j))) == a
    ensures Offset(lb, Area(LANES, QuadAt(lb, a, b, j))) == b && Offset(LANES, QuadAt(lb, a, b, j)) == j
    ensures QuadAt(lb, a, b, j) < StageQuads(m, lb)
  {
    AtInverse(LANES, At(lb, a, b), j);
    AtInverse(lb, a, b);
    AtBelow(lb, a, b, 2 * m.ranks);
    AtBelow(LANES, At(lb, a, b), j, At(lb, 2 * m.ranks, 0));
  }

  // The last partition is the largest, so its block count covers the others.
  lemma BlocksFit(m: Message, q: nat)
    requires m.Ok() && q < m.ranks
    ensures Blocks(m, q) <= Blocks(m, m.ranks - 1)
    ensures 0 < Blocks(m, m.ranks - 1)
  {
    PartFacts(m.ranks, m.size);
  }

  lemma TwoShotZIs<F>(fl: Floats<F>, m: Message, lb: nat) returns (call: Call)
    requires m.Ok() && Blocks(m, m.ranks - 1) <= lb && 0 < lb
    ensures call == TwoShotZ(fl, m, lb) && IsTwoShotZ(fl, m, lb, call)
  {
    call := TwoShotZ(fl, m, lb);
    forall d, a, b, j | QuadUsed(fl, m, d, a, b, j)
      ensures ZSlotAt(fl, m, lb, call, d, a, b, j)
    {
      BlocksFit(m, AreaPart(m, d, a));
      QuadAtInverse(m, lb, a, b, j);
    }
  }

  lemma ZIn<F>(fl: Floats<F>, m: Message, lb: nat, p: Place) returns (a: nat, b: nat, j: nat)
    requires m.Ok() && 0 < lb && p in TwoShotZ(fl, m, lb).slots
    ensures QuadUsed(fl, m, p.dst, a, b, j) && p == Place(p.dst, QuadAt(lb, a, b, j))
    ensures p.addr < StageQuads(m, lb)
  {
    j := Offset(LANES, p.addr);
    a, b := Area(lb, Area(LANES, p.addr)), Offset(lb, Area(LANES, p.addr));
    AtOfArea(LANES, p.addr);
    AtOfArea(lb, Area(LANES, p.addr));
  }

  // --- The refill -------------------------------------------------------------------------

  // Quad t of the refill loop, for a call of n blocks per area.
  function RefillAt(lb: nat, n: nat, t: nat): nat
    requires 0 < n
  {
    At(At(LANES, lb, 0), Area(At(LANES, n, 0), t), Offset(At(LANES, n, 0), t))
  }

  // The words the refill of an n-block call writes.
  ghost function RefillWords(ranks: nat, lb: nat): nat -> set<(nat, nat)> {
    (n: nat) => if n == 0 then {}
                else set t: nat, w: nat | t < At(At(LANES, n, 0), 2 * ranks, 0) && w < 4 :: (RefillAt(lb, n, t), w)
  }

  // Quad j of block b, areas a apart by lb blocks.
  lemma {:induction false} AtAt(lb: nat, a: nat, b: nat, j: nat)
    ensures At(At(LANES, lb, 0), a, At(LANES, b, j)) == At(LANES, At(lb, a, b), j)
    decreases a
  {
    if a > 0 {
      AtAt(lb, a - 1, b, j);
      AtIs(LANES, lb, 0);
      AtIs(LANES, At(lb, a - 1, b), j);
      AtIs(LANES, At(lb, a, b), j);
    }
  }

  // The refill reaches every quad of the previous call's blocks.
  lemma RefillReaches(m: Message, lb: nat, n: nat, a: nat, b: nat, j: nat)
    requires a < 2 * m.ranks && b < n && j < LANES
    ensures forall w: nat | w < 4 :: (QuadAt(lb, a, b, j), w) in RefillWords(m.ranks, lb)(n)
  {
    var quads := At(LANES, n, 0);
    AtBelow(LANES, b, j, n);
    var t := At(quads, a, At(LANES, b, j));
    AtInverse(quads, a, At(LANES, b, j));
    AtBelow(quads, a, At(LANES, b, j), 2 * m.ranks);
    AtAt(lb, a, b, j);
    assert RefillAt(lb, n, t) == QuadAt(lb, a, b, j);
  }

  // The refill stays inside the stage.
  lemma RefillInside(ranks: nat, lb: nat, n: nat, t: nat)
    requires 0 < n <= lb && t < At(At(LANES, n, 0), 2 * ranks, 0)
    ensures RefillAt(lb, n, t) < At(LANES, At(lb, 2 * ranks, 0), 0)
  {
    var quads := At(LANES, n, 0);
    AtIs(LANES, n, 0);
    AtIs(LANES, lb, 0);
    AreaBelow(quads, t, 2 * ranks);
    AtBelow(At(LANES, lb, 0), Area(quads, t), Offset(quads, t), 2 * ranks);
    AtAt(lb, 2 * ranks, 0, 0);
  }

  // --- The call is well formed -----------------------------------------------------------

  lemma SentSome(v: seq<Pack>)
    requires |v| == LANES
    ensures 0 < |WireKernel.Sent(v)| <= LANES
  {
  }

  lemma AreaQuadClean<F>(fl: Floats<F>, m: Message, d: nat, a: nat, b: nat, j: nat)
    requires m.Ok() && QuadUsed(fl, m, d, a, b, j)
    ensures Clean(AreaQuad(fl, m, d, a, b, j))
  {
    if a < m.ranks {
      InputBlockClean(m, a, d, b);
      CleanStored(InputBlock(m, a, d, b), j);
    } else {
      ReducedBlockClean(fl, m, a - m.ranks, b);
      CleanStored(ReducedBlock(fl, m, a - m.ranks, b), j);
    }
  }

  lemma ZSlotSent<F>(fl: Floats<F>, m: Message, lb: nat, call: Call, d: nat, a: nat, b: nat, j: nat) returns (slot: Slot)
    requires m.Ok() && IsTwoShotZ(fl, m, lb, call) && QuadUsed(fl, m, d, a, b, j)
    ensures Place(d, QuadAt(lb, a, b, j)) in call.slots && call.slots[Place(d, QuadAt(lb, a, b, j))] == slot
    ensures slot.sender == AreaSender(m, a) < m.ranks && slot.sender != d
    ensures slot.pack == AreaQuad(fl, m, d, a, b, j) && Clean(slot.pack)
    ensures a < m.ranks ==> slot.needs == {} && slot.pack == slot.make(map[])
    ensures a >= m.ranks ==> slot == ZSlot(fl, m, lb, d, a, b, j)
  {
    assert ZSlotAt(fl, m, lb, call, d, a, b, j);
    slot := ZSlot(fl, m, lb, d, a, b, j);
    AreaQuadClean(fl, m, d, a, b, j);
  }

  // What an owner needs for a block is what its peers send of it.
  lemma NeedSent<F>(fl: Floats<F>, m: Message, lb: nat, call: Call, q: nat, b: nat, n: nat) returns (s: nat, j: nat)
    requires m.Ok() && IsTwoShotZ(fl, m, lb, call) && q < m.ranks && b < Blocks(m, q)
    requires n in BlockNeeds(fl, m, lb, q, b)
    ensures Place(q, n) in call.slots && call.slots[Place(q, n)].needs == {}
  {
    s, j :| s < m.ranks && j < LANES && AreaOk(m, q, s) && j < AreaQuads(fl, m, q, s, b) && n == QuadAt(lb, s, b, j);
    var slot := ZSlotSent(fl, m, lb, call, q, s, b, j);
  }

  lemma PeerBlockHeld<F>(fl: Floats<F>, m: Message, lb: nat, call: Call, q: nat, b: nat, s: nat, got: map<nat, Pack>)
    requires m.Ok() && IsTwoShotZ(fl, m, lb, call) && q < m.ranks && b < Blocks(m, q) && s < m.ranks && s != q
    requires forall j: nat | j < AreaQuads(fl, m, q, s, b) ::
               QuadAt(lb, s, b, j) in got && Place(q, QuadAt(lb, s, b, j)) in call.slots
               && got[QuadAt(lb, s, b, j)] == call.slots[Place(q, QuadAt(lb, s, b, j))].pack
    ensures HasBlock(got, lb, s, b, InputBlock(m, s, q, b))
  {
    forall j: nat | j < AreaQuads(fl, m, q, s, b)
      ensures QuadAt(lb, s, b, j) in got
        && got[QuadAt(lb, s, b, j)] == QuadPack(WireKernel.Sent(InputBlock(m, s, q, b))[j])
    {
      InputQuadSent(fl, m, lb, call, q, b, s, j);
    }
  }

  lemma InputQuadSent<F>(fl: Floats<F>, m: Message, lb: nat, call: Call, q: nat, b: nat, s: nat, j: nat)
    requires m.Ok() && IsTwoShotZ(fl, m, lb, call) && q < m.ranks && b < Blocks(m, q) && s < m.ranks && s != q
    requires j < AreaQuads(fl, m, q, s, b) && Place(q, QuadAt(lb, s, b, j)) in call.slots
    ensures call.slots[Place(q, QuadAt(lb, s, b, j))].pack == QuadPack(WireKernel.Sent(InputBlock(m, s, q, b))[j])
  {
    var slot := ZSlotSent(fl, m, lb, call, q, s, b, j);
  }

  lemma NeedsHold<F>(fl: Floats<F>, m: Message, lb: nat, call: Call, q: nat, b: nat)
    requires m.Ok() && IsTwoShotZ(fl, m, lb, call) && q < m.ranks && b < Blocks(m, q)
    ensures forall n: nat | n in BlockNeeds(fl, m, lb, q, b) ::
              Place(q, n) in call.slots && call.slots[Place(q, n)].needs == {}
    ensures HasPeers(m, lb, q, b, PacksAt(call, q, BlockNeeds(fl, m, lb, q, b)))
  {
    var needs := BlockNeeds(fl, m, lb, q, b);
    forall n: nat | n in needs
      ensures Place(q, n) in call.slots && call.slots[Place(q, n)].needs == {}
    {
      var s, j := NeedSent(fl, m, lb, call, q, b, n);
    }
    var got := PacksAt(call, q, needs);
    forall s: nat | s < m.ranks && s != q
      ensures HasBlock(got, lb, s, b, InputBlock(m, s, q, b))
    {
      SentSome(InputBlock(m, s, q, b));
      forall j: nat | j < AreaQuads(fl, m, q, s, b)
        ensures QuadAt(lb, s, b, j) in needs
      {
        assert AreaOk(m, q, s) && j < LANES;
      }
      PeerBlockHeld(fl, m, lb, call, q, b, s, got);
    }
  }

  // An owner's quads come out as meant.
  lemma ZMakes<F>(fl: Floats<F>, m: Message, lb: nat, call: Call, cfg: Config, d: nat, a: nat, b: nat, j: nat)
    requires m.Ok() && IsTwoShotZ(fl, m, lb, call) && QuadUsed(fl, m, d, a, b, j) && a >= m.ranks
    requires Place(d, QuadAt(lb, a, b, j)) in call.slots
    requires call.slots[Place(d, QuadAt(lb, a, b, j))] == ZSlot(fl, m, lb, d, a, b, j)
    ensures cfg.NeedsOk(call, Place(d, QuadAt(lb, a, b, j)))
  {
    var q := a - m.ranks;
    NeedsHold(fl, m, lb, call, q, b);
    var got := PacksAt(call, q, BlockNeeds(fl, m, lb, q, b));
    MadeQuad(fl, m, lb, d, a, b, j, got);
    NeedsAre(cfg, call, Place(d, QuadAt(lb, a, b, j)), q, BlockNeeds(fl, m, lb, q, b), got);
  }

  lemma MadeQuad<F>(fl: Floats<F>, m: Message, lb: nat, d: nat, a: nat, b: nat, j: nat, got: map<nat, Pack>)
    requires m.Ok() && QuadUsed(fl, m, d, a, b, j) && a >= m.ranks && HasPeers(m, lb, a - m.ranks, b, got)
    ensures ZSlot(fl, m, lb, d, a, b, j).make(got) == ZSlot(fl, m, lb, d, a, b, j).pack
  {
    ComputesBlock(fl, m, lb, a - m.ranks, b, got);
    SlotMakes(fl, m, lb, d, a, b, j);
    MakeQuadIs(fl, m, lb, a - m.ranks, b, j, got, ReducedBlock(fl, m, a - m.ranks, b));
    SlotPack(fl, m, lb, d, a, b, j);
    SentQuad(ReducedBlock(fl, m, a - m.ranks, b), j);
  }

  lemma SlotMakes<F>(fl: Floats<F>, m: Message, lb: nat, d: nat, a: nat, b: nat, j: nat)
    requires m.Ok() && QuadUsed(fl, m, d, a, b, j) && a >= m.ranks
    ensures ZSlot(fl, m, lb, d, a, b, j).make == MakeQuad(fl, m, lb, a - m.ranks, b, j)
  {
  }

  lemma SlotPack<F>(fl: Floats<F>, m: Message, lb: nat, d: nat, a: nat, b: nat, j: nat)
    requires m.Ok() && QuadUsed(fl, m, d, a, b, j) && a >= m.ranks
    ensures j < |WireKernel.Sent(ReducedBlock(fl, m, a - m.ranks, b))|
    ensures ZSlot(fl, m, lb, d, a, b, j).pack == QuadPack(WireKernel.Sent(ReducedBlock(fl, m, a - m.ranks, b))[j])
  {
    assert AreaBlock(fl, m, d, a, b) == ReducedBlock(fl, m, a - m.ranks, b);
  }

  lemma SentQuad(v: seq<Pack>, j: nat)
    requires |v| == LANES && j < |WireKernel.Sent(v)|
    ensures QuadOf(v, j) == QuadPack(WireKernel.Sent(v)[j])
  {
  }

  lemma NeedsAre(cfg: Config, call: Call, p: Place, q: nat, needs: set<nat>, got: map<nat, Pack>)
    requires p in call.slots && call.slots[p].sender == q && call.slots[p].needs == needs
    requires forall n: nat | n in needs :: Place(q, n) in call.slots && call.slots[Place(q, n)].needs == {}
    requires got == PacksAt(call, q, needs) && call.slots[p].make(got) == call.slots[p].pack
    ensures cfg.NeedsOk(call, p)
  {
  }

  lemma ZSlotsOk<F>(fl: Floats<F>, m: Message, lb: nat, call: Call, cfg: Config, d: nat, a: nat, b: nat, j: nat)
    requires m.Ok() && IsTwoShotZ(fl, m, lb, call) && cfg.ranks == m.ranks && cfg.region == RefillWords(m.ranks, lb)
    requires QuadUsed(fl, m, d, a, b, j) && call.used == Blocks(m, m.ranks - 1)
    ensures Place(d, QuadAt(lb, a, b, j)) in call.slots && cfg.SlotOk(call, Place(d, QuadAt(lb, a, b, j)))
  {
    var slot := ZSlotSent(fl, m, lb, call, d, a, b, j);
    BlocksFit(m, AreaPart(m, d, a));
    SentSome(AreaBlock(fl, m, d, a, b));
    RefillReaches(m, lb, call.used, a, b, j);
    if a < m.ranks {
      FreeNeeds(cfg, call, Place(d, QuadAt(lb, a, b, j)));
    } else {
      ZMakes(fl, m, lb, call, cfg, d, a, b, j);
    }
  }

  lemma ZFirst<F>(fl: Floats<F>, m: Message, d: nat, a: nat)
    requires m.Ok() && AreaOk(m, d, a) && AreaPart(m, d, a) == m.ranks - 1
    ensures QuadUsed(fl, m, d, a, 0, 0)
  {
    BlocksFit(m, m.ranks - 1);
    SentSome(AreaBlock(fl, m, d, a, 0));
  }

  lemma ZHears<F>(fl: Floats<F>, m: Message, lb: nat, call: Call, cfg: Config, r: nat, s: nat)
    requires m.Ok() && IsTwoShotZ(fl, m, lb, call) && cfg.ranks == m.ranks && r < m.ranks && s < m.ranks && r != s
    ensures cfg.Hears(call, r, s)
  {
    var last := m.ranks - 1;
    var a := if r == last then s else m.ranks + last;
    ZFirst(fl, m, r, a);
    var slot := ZSlotSent(fl, m, lb, call, r, a, 0, 0);
    var p := Place(r, QuadAt(lb, a, 0, 0));
    if slot.sender == s {
      HearsFrom(cfg, call, r, s, p);
    } else {
      ZFirst(fl, m, last, s);
      var need := ZSlotSent(fl, m, lb, call, last, s, 0, 0);
      assert QuadAt(lb, s, 0, 0) in BlockNeeds(fl, m, lb, last, 0);
      HearsThrough(cfg, call, r, s, p, QuadAt(lb, s, 0, 0));
    }
  }

  lemma TwoShotZOk<F>(fl: Floats<F>, m: Message, lb: nat, cfg: Config)
    requires m.Ok() && 0 < lb && Blocks(m, m.ranks - 1) <= lb
    requires cfg.ranks == m.ranks && cfg.region == RefillWords(m.ranks, lb)
    ensures cfg.CallOk(TwoShotZ(fl, m, lb))
  {
    var call := TwoShotZIs(fl, m, lb);
    forall p | p in call.slots
      ensures cfg.SlotOk(call, p)
    {
      var a, b, j := ZIn(fl, m, lb, p);
      ZSlotsOk(fl, m, lb, call, cfg, p.dst, a, b, j);
    }
    forall r: nat, s: nat | r < cfg.ranks && s < cfg.ranks && r != s
      ensures cfg.Hears(call, r, s)
    {
      ZHears(fl, m, lb, call, cfg, r, s);
    }
  }

  // --- The output ----------------------------------------------------------------------

  // What rank r's own stage gave it, by address.
  ghost function OwnGot(got: map<Place, Pack>, r: nat): map<nat, Pack> {
    map addr: nat | addr in (set p | p in got && p.dst == r :: p.addr) :: if Place(r, addr) in got then got[Place(r, addr)] else ZERO_PACK
  }

  ghost predicate GotCall(call: Call, r: nat, got: map<nat, Pack>) {
    forall addr: nat | Place(r, addr) in call.slots :: addr in got && got[addr] == call.slots[Place(r, addr)].pack
  }

  lemma OwnGotAll(call: Call, r: nat)
    ensures GotCall(call, r, OwnGot(Received(call, r), r))
  {
    var got := Received(call, r);
    forall addr: nat | Place(r, addr) in call.slots
      ensures addr in OwnGot(got, r) && OwnGot(got, r)[addr] == call.slots[Place(r, addr)].pack
    {
      assert Place(r, addr) in got;
    }
  }

  // The packs a rank reduces itself are the result's.
  lemma ZReduced<F(!new)>(fl: Floats<F>, m: Message, lb: nat, call: Call, r: nat, got: map<nat, Pack>, b: nat, lane: nat)
    requires NanOk(fl) && m.Ok() && IsTwoShotZ(fl, m, lb, call) && r < m.ranks && Valid(m, r, b, lane)
    requires GotCall(call, r, got)
    ensures PackAt(m.ranks, m.size, r, At(BLOCK_PACKS, b, lane)) < m.size
    ensures ComputedBlock(fl, m, lb, r, b, got)[lane] == m.Result(fl)[PackAt(m.ranks, m.size, r, At(BLOCK_PACKS, b, lane))]
  {
    ReducedLane(fl, m, r, b, lane);
    ValidBlock(m, r, b, lane);
    forall s: nat | s < m.ranks && s != r
      ensures HasBlock(got, lb, s, b, InputBlock(m, s, r, b))
    {
      AllHeld(fl, m, lb, call, r, got, s, b);
    }
    ComputesBlock(fl, m, lb, r, b, got);
  }

  // So are the packs it decodes from the other owners' blocks.
  lemma ZGathered<F>(fl: Floats<F>, m: Message, lb: nat, call: Call, r: nat, got: map<nat, Pack>, q: nat, b: nat, lane: nat)
    requires m.Ok() && IsTwoShotZ(fl, m, lb, call) && r < m.ranks && q < m.ranks && q != r && Valid(m, q, b, lane)
    requires GotCall(call, r, got)
    ensures Decoded(got, lb, m.ranks + q, b, lane) == ReducedBlock(fl, m, q, b)[lane]
  {
    ValidBlock(m, q, b, lane);
    GatherHeld(fl, m, lb, call, r, got, q, b);
    DecodesBlock(got, lb, m.ranks + q, b, ReducedBlock(fl, m, q, b), lane);
  }

  lemma GatherHeld<F>(fl: Floats<F>, m: Message, lb: nat, call: Call, r: nat, got: map<nat, Pack>, q: nat, b: nat)
    requires m.Ok() && IsTwoShotZ(fl, m, lb, call) && GotCall(call, r, got)
    requires r < m.ranks && q < m.ranks && q != r && b < Blocks(m, q)
    ensures HasBlock(got, lb, m.ranks + q, b, ReducedBlock(fl, m, q, b))
  {
    var a := m.ranks + q;
    assert AreaOk(m, r, a) && AreaPart(m, r, a) == q;
    AllHeld(fl, m, lb, call, r, got, a, b);
  }

  lemma ReducedLane<F(!new)>(fl: Floats<F>, m: Message, q: nat, b: nat, lane: nat)
    requires NanOk(fl) && m.Ok() && q < m.ranks && Valid(m, q, b, lane)
    ensures PackAt(m.ranks, m.size, q, At(BLOCK_PACKS, b, lane)) < m.size
    ensures ReducedBlock(fl, m, q, b)[lane] == m.Result(fl)[PackAt(m.ranks, m.size, q, At(BLOCK_PACKS, b, lane))]
  {
    var i := At(BLOCK_PACKS, b, lane);
    PartCoordinates(m, q, i);
    ReducedIsResult(fl, m, PackAt(m.ranks, m.size, q, i), q);
  }

  // The partition, block and lane of pack i.
  lemma PackLane(m: Message, i: nat) returns (q: nat, b: nat, lane: nat)
    requires 0 < m.ranks && i < m.size
    ensures q == Owner(m.ranks, m.size, i) < m.ranks && Valid(m, q, b, lane)
    ensures b == Area(BLOCK_PACKS, PartOffset(m, i)) && lane == Offset(BLOCK_PACKS, PartOffset(m, i))
    ensures i == PackAt(m.ranks, m.size, q, At(BLOCK_PACKS, b, lane))
  {
    PackOfOffset(m, i);
    PartOffsetIs(m, i);
    var idx := PartOffset(m, i);
    q, b, lane := Owner(m.ranks, m.size, i), Area(BLOCK_PACKS, idx), Offset(BLOCK_PACKS, idx);
    AtOfArea(BLOCK_PACKS, idx);
  }

  lemma PackOfOffset(m: Message, i: nat)
    requires 0 < m.ranks && i < m.size
    ensures 0 <= Owner(m.ranks, m.size, i) < m.ranks
    ensures PackAt(m.ranks, m.size, Owner(m.ranks, m.size, i), PartOffset(m, i)) == i
  {
    OwnerIsRank(m.ranks, m.size, i);
    var q := Owner(m.ranks, m.size, i);
    AtIs(m.size / m.ranks, q, PartOffset(m, i));
    AtIs(m.size / m.ranks, q, 0);
  }

  lemma ValidBlock(m: Message, q: nat, b: nat, lane: nat)
    requires q < m.ranks && Valid(m, q, b, lane)
    ensures b < Blocks(m, q)
  {
    AtIs(BLOCK_PACKS, b, lane);
  }

  lemma AllHeld<F>(fl: Floats<F>, m: Message, lb: nat, call: Call, r: nat, got: map<nat, Pack>, a: nat, b: nat)
    requires m.Ok() && IsTwoShotZ(fl, m, lb, call) && AreaOk(m, r, a) && b < Blocks(m, AreaPart(m, r, a))
    requires GotCall(call, r, got)
    ensures HasBlock(got, lb, a, b, AreaBlock(fl, m, r, a, b))
  {
    forall j: nat | j < AreaQuads(fl, m, r, a, b)
      ensures QuadAt(lb, a, b, j) in got
        && got[QuadAt(lb, a, b, j)] == QuadPack(WireKernel.Sent(AreaBlock(fl, m, r, a, b))[j])
    {
      var slot := ZSlotSent(fl, m, lb, call, r, a, b, j);
    }
  }

  // --- Runs ------------------------------------------------------------------------------

  ghost predicate ZJobsOk(ranks: nat, lb: nat, jobs: seq<Message>) {
    0 < lb && forall c | 0 <= c < |jobs| :: jobs[c].Ok() && jobs[c].ranks == ranks && Blocks(jobs[c], ranks - 1) <= lb
  }

  ghost function ZConfig<F>(fl: Floats<F>, ranks: nat, lb: nat, jobs: seq<Message>): Config
    requires ZJobsOk(ranks, lb, jobs)
  {
    Config(ranks, seq(|jobs|, c requires 0 <= c < |jobs| => TwoShotZ(fl, jobs[c], lb)), RefillWords(ranks, lb))
  }

  // Any sequence of compressed calls of any sizes is safe in every interleaving, and
  // each leaves every rank with exactly the quads meant for it.
  lemma AnyCompressedSafe<F>(fl: Floats<F>, ranks: nat, lb: nat, jobs: seq<Message>, run: seq<Action>, t: State)
    requires ZJobsOk(ranks, lb, jobs)
    requires Runs(ZConfig(fl, ranks, lb, jobs), Init(ZConfig(fl, ranks, lb, jobs)), run, t)
    ensures Shaped(ZConfig(fl, ranks, lb, jobs), t) && Safe(ZConfig(fl, ranks, lb, jobs), t)
    ensures forall r: nat, c: nat | r < ranks && c < t.ranks[r].done ::
              c < |jobs| && c < |t.ranks[r].log| && t.ranks[r].log[c] == Received(TwoShotZ(fl, jobs[c], lb), r)
  {
    var cfg := ZConfig(fl, ranks, lb, jobs);
    forall c | 0 <= c < |cfg.calls|
      ensures cfg.CallOk(cfg.calls[c])
    {
      TwoShotZOk(fl, jobs[c], lb, cfg);
    }
    EveryRunSafe(cfg, run, t);
    forall r: nat, c: nat | r < ranks && c < t.ranks[r].done
      ensures c < |jobs| && c < |t.ranks[r].log| && t.ranks[r].log[c] == Received(TwoShotZ(fl, jobs[c], lb), r)
    {
      assert LogOk(cfg, t.ranks[r], r);
      assert t.ranks[r].log[c] == Received(cfg.calls[c], r);
    }
  }

  // --- CTAs and warps ----------------------------------------------------------------------

  // The blocks of a CTA's range, and its tasks: a block and a peer each.
  datatype Range = Range(lo: nat, n: nat)

  function CtaRange(blocks: nat, per: nat, c: nat): (g: Range) {
    var lo := At(per, c, 0);
    var hi := if lo + per < blocks then lo + per else blocks;
    Range(lo, if hi > lo then hi - lo else 0)
  }

  function TaskBlock(ranks: nat, g: Range, t: nat): nat
    requires 1 < ranks
  {
    g.lo + Area(ranks - 1, t)
  }

  function TaskPeer(ranks: nat, rank: nat, t: nat): nat
    requires rank < ranks && 1 < ranks
  {
    Around(rank + 1 + Offset(ranks - 1, t), ranks)
  }

  predicate InRange(g: Range, b: nat) {
    g.lo <= b < g.lo + g.n
  }

  // The ranges of the areas of `per` blocks are disjoint and in order.
  lemma {:induction false} OneRange(blocks: nat, per: nat, b: nat, o: nat)
    requires 0 < per && b < blocks
    ensures InRange(CtaRange(blocks, per, o), b) <==> o == Area(per, b)
    decreases o
  {
    if o > 0 && b >= per {
      OneRange(blocks - per, per, b - per, o - 1);
    }
  }

  // Every block is in exactly one CTA's range.
  lemma BlockCta(blocks: nat, grid: nat, b: nat) returns (per: nat, c: nat)
    requires 0 < grid && b < blocks
    ensures per == CeilDiv(blocks, grid) && c < grid
    ensures forall o: nat | o < grid :: InRange(CtaRange(blocks, per, o), b) <==> o == c
  {
    CeilDivBounds(blocks, grid);
    if CeilDiv(blocks, grid) <= 0 {
      MulMono(CeilDiv(blocks, grid), 0, grid);
    }
    per := CeilDiv(blocks, grid);
    c := Area(per, b);
    AtIs(per, grid, 0);
    AreaBelow(per, b, grid);
    forall o: nat | o < grid
      ensures InRange(CtaRange(blocks, per, o), b) <==> o == c
    {
      OneRange(blocks, per, b, o);
    }
  }

  // A CTA's tasks meet each of its blocks once for every peer: task t is (block, peer)
  // for exactly one t, and each t below the bound is one.
  lemma TaskOnce(ranks: nat, rank: nat, g: Range, b: nat, q: nat) returns (t: nat)
    requires rank < ranks && 1 < ranks && q < ranks && q != rank && InRange(g, b)
    ensures t < At(ranks - 1, g.n, 0) && TaskBlock(ranks, g, t) == b && TaskPeer(ranks, rank, t) == q
    ensures forall u: nat | TaskBlock(ranks, g, u) == b && TaskPeer(ranks, rank, u) == q :: u == t
  {
    var k := if q > rank then q - rank - 1 else q + ranks - rank - 1;
    t := At(ranks - 1, b - g.lo, k);
    AtInverse(ranks - 1, b - g.lo, k);
    AtBelow(ranks - 1, b - g.lo, k, g.n);
    forall u: nat | TaskBlock(ranks, g, u) == b && TaskPeer(ranks, rank, u) == q
      ensures u == t
    {
      AtOfArea(ranks - 1, u);
    }
  }

  lemma TaskIn(ranks: nat, rank: nat, g: Range, t: nat)
    requires rank < ranks && 1 < ranks && t < At(ranks - 1, g.n, 0)
    ensures InRange(g, TaskBlock(ranks, g, t))
    ensures TaskPeer(ranks, rank, t) < ranks && TaskPeer(ranks, rank, t) != rank
  {
    AreaBelow(ranks - 1, t, g.n);
  }
}
