// The owner sum: every rank copies shard j to rank j, rank j sums the partials in
// rank order, rounds once and copies the result to every other rank. It runs on the
// ring's scratch slots and flags.
module CeOwner {
  import opened EpochStreams
  import opened CeRing
  import opened Terms

  // _slot_index: the receiver-side slot (and flag) index of the sender's shard.
  function SlotIndex(world: nat, sender: nat, receiver: nat): int
    requires sender < world && receiver < world
  {
    Wrap(sender - receiver, world) - 1
  }

  // The rank o places after r, and the sender behind a receiver's slot index.
  function Peer(world: nat, r: nat, o: nat): nat
    requires r < world && o < world
  {
    Wrap(r + o, world)
  }

  // Distinct senders have distinct slots at a receiver, and the slot names its sender.
  lemma SlotIndexInverse(world: nat, s: nat, r: nat)
    requires s < world && r < world && s != r
    ensures 0 <= SlotIndex(world, s, r) < world - 1
    ensures Peer(world, r, SlotIndex(world, s, r) + 1) == s
    ensures SlotIndex(world, r, s) == world - SlotIndex(world, s, r) - 2
  {
  }

  lemma PeerIndex(world: nat, r: nat, o: nat)
    requires r < world && 0 < o < world
    ensures Peer(world, r, o) < world && Peer(world, r, o) != r
    ensures SlotIndex(world, Peer(world, r, o), r) == o - 1
    ensures SlotIndex(world, r, Peer(world, r, o)) == world - o - 1
    ensures Peer(world, Peer(world, r, o), world - o) == r
  {
  }

  // Shard c summed in the wide type over ranks 0..n.
  ghost function WideSum<V(!new), W(!new)>(sums: Sums<V, W>, inp: (nat, nat) -> V, c: nat, n: nat): W {
    if n == 0 then sums.wide(inp(0, c)) else sums.addWide(WideSum(sums, inp, c, n - 1), sums.wide(inp(n, c)))
  }

  ghost function OwnerSum<V(!new), W(!new)>(sums: Sums<V, W>, world: nat, inp: (nat, nat) -> V, c: nat): V
    requires 0 < world
  {
    sums.round(WideSum(sums, inp, c, world - 1))
  }

  // sum_round as a function of the partials it reads.
  ghost function WideFold<V(!new), W(!new)>(sums: Sums<V, W>, xs: seq<V>): W
    requires |xs| > 0
  {
    if |xs| == 1 then sums.wide(xs[0]) else sums.addWide(WideFold(sums, xs[..|xs| - 1]), sums.wide(xs[|xs| - 1]))
  }

  ghost function SumRound<V(!new), W(!new)>(sums: Sums<V, W>, inp: (nat, nat) -> V): seq<V> -> V {
    xs => if |xs| > 0 then sums.round(WideFold(sums, xs)) else inp(0, 0)
  }

  ghost function Partials<V(!new)>(world: nat, inp: (nat, nat) -> V, c: nat): seq<V> {
    seq(world, r requires 0 <= r < world => inp(r, c))
  }

  lemma {:induction false} FoldIsSum<V(!new), W(!new)>(sums: Sums<V, W>, inp: (nat, nat) -> V, c: nat, n: nat)
    ensures WideFold(sums, Partials(n + 1, inp, c)) == WideSum(sums, inp, c, n)
  {
    if n > 0 {
      FoldIsSum(sums, inp, c, n - 1);
      assert Partials(n + 1, inp, c)[..n] == Partials(n, inp, c);
    }
  }

  // y adds shard c of every rank in rank order, once each, in the wide type, and rounds once.
  ghost predicate ShardSum<V(!new), W(!new)>(sums: Sums<V, W>, world: nat, inp: (nat, nat) -> V, c: nat, y: V) {
    exists sum: W :: SumsTo(sums.wide, sums.addWide, Partials(world, inp, c), sum) && y == sums.round(sum)
  }

  lemma {:induction false} WideSums<V(!new), W(!new)>(sums: Sums<V, W>, inp: (nat, nat) -> V, c: nat, n: nat)
    ensures SumsTo(sums.wide, sums.addWide, Partials(n + 1, inp, c), WideSum(sums, inp, c, n))
  {
    if n == 0 {
      SumOfOne(sums.wide, sums.addWide, inp(0, c));
      assert Partials(n + 1, inp, c) == [inp(0, c)];
    } else {
      WideSums(sums, inp, c, n - 1);
      SumOfMore(sums.wide, sums.addWide, Partials(n, inp, c), WideSum(sums, inp, c, n - 1), inp(n, c));
      assert Partials(n + 1, inp, c) == Partials(n, inp, c) + [inp(n, c)];
    }
  }

  // The owner sum is that sum.
  lemma OwnerSums<V(!new), W(!new)>(sums: Sums<V, W>, world: nat, inp: (nat, nat) -> V, c: nat)
    requires 0 < world
    ensures ShardSum(sums, world, inp, c, OwnerSum(sums, world, inp, c))
  {
    WideSums(sums, inp, c, world - 1);
  }

  // --- The program -----------------------------------------------------------------------

  function OwnerLen(world: nat): nat
    requires 0 < world
  {
    9 * (world - 1) + 1
  }

  // Flag of rank r by which rank q says r's slots in q are free.
  function FreeFlag(world: nat, r: nat, q: nat): int
    requires r < world && q < world
  {
    2 * (world - 1) + 1 + SlotIndex(world, r, q)
  }

  // The s-th of the other ranks in order.
  function Other(r: nat, m: nat): nat {
    if m < r then m else m + 1
  }

  ghost function PartialLocs(world: nat, r: nat): (args: seq<Loc>)
    requires r < world
    ensures |args| == world
  {
    seq(world, (s: nat) requires s < world =>
      if s == r then In(r) else (SlotIndexInverse(world, s, r); Slot(SlotIndex(world, s, r))))
  }

  // Operation i of rank r; n is world - 1.
  ghost function OwnerOp<V(!new), W(!new)>(sums: Sums<V, W>, world: nat, inp: (nat, nat) -> V, r: nat, i: nat): Op<V> {
    if !(r < world && 1 < world && i < OwnerLen(world)) then Wait(0)
    else
      var n := world - 1;
      if i < n then
        var q := Peer(world, r, i + 1);
        PeerIndex(world, r, i + 1);
        Set(q, FreeFlag(world, q, r))
      else if i < 2 * n then
        var q := Peer(world, r, i - n + 1);
        PeerIndex(world, r, i - n + 1);
        Wait(FreeFlag(world, r, q))
      else if i < 4 * n then
        var o := (i - 2 * n) / 2 + 1;
        var q := Peer(world, r, o);
        PeerIndex(world, r, o);
        if (i - 2 * n) % 2 == 0 then Put(q, SlotIndex(world, r, q), In(q)) else Set(q, SlotIndex(world, r, q))
      else if i < 5 * n then
        var s := Other(r, i - 4 * n);
        SlotIndexInverse(world, s, r);
        Wait(SlotIndex(world, s, r))
      else if i == 5 * n then Apply(r, PartialLocs(world, r), SumRound(sums, inp))
      else if i < 7 * n + 1 then
        var o := (i - (5 * n + 1)) / 2 + 1;
        var q := Peer(world, r, o);
        PeerIndex(world, r, o);
        if (i - (5 * n + 1)) % 2 == 0 then Put(q, n + SlotIndex(world, r, q), Out(r)) else Set(q, n + SlotIndex(world, r, q))
      else
        var o := (i - (7 * n + 1)) / 2 + 1;
        var s := Peer(world, r, o);
        PeerIndex(world, r, o);
        if (i - (7 * n + 1)) % 2 == 0 then Wait(n + SlotIndex(world, s, r))
        else Apply(s, [Slot(n + SlotIndex(world, s, r))], Copies(inp))
  }

  // Rank r's output once it has gathered from o peers.
  ghost function OwnerOut<V(!new), W(!new)>(sums: Sums<V, W>, world: nat, inp: (nat, nat) -> V, r: nat, o: nat): map<nat, V>
    requires r < world && o < world
  {
    if o == 0 then map[r := OwnerSum(sums, world, inp, r)]
    else OwnerOut(sums, world, inp, r, o - 1)[Peer(world, r, o) := OwnerSum(sums, world, inp, Peer(world, r, o))]
  }

  ghost function OwnerOutAt<V(!new), W(!new)>(sums: Sums<V, W>, world: nat, inp: (nat, nat) -> V, r: nat, i: nat): map<nat, V> {
    if !(r < world && 1 < world && i <= OwnerLen(world)) || i <= 5 * (world - 1) then map[]
    else OwnerOut(sums, world, inp, r, if i <= 7 * (world - 1) + 1 then 0 else (i - (7 * (world - 1) + 1)) / 2)
  }

  ghost function OwnerSlot<V(!new), W(!new)>(sums: Sums<V, W>, world: nat, inp: (nat, nat) -> V, r: nat, k: nat): V {
    if r < world && k < world - 1 then inp(Peer(world, r, k + 1), r)
    else if r < world && k < 2 * (world - 1) then OwnerSum(sums, world, inp, Peer(world, r, k - (world - 1) + 1))
    else inp(r, k)
  }

  function OwnerSetter(world: nat, r: nat, f: nat): nat {
    if r >= world then 0
    else if f < world - 1 then Peer(world, r, f + 1)
    else if f < 2 * (world - 1) then Peer(world, r, f - (world - 1) + 1)
    else Giver(world, r, f)
  }

  // A slot's index within its half, and from it the place of r among its sender's peers.
  function Half(world: nat, k: nat): nat
    requires 0 < world
  {
    if k < world - 1 then k else k - (world - 1)
  }

  function OwnerPutAt(world: nat, k: nat): int
    requires 0 < world
  {
    (if k < world - 1 then 2 * (world - 1) else 5 * (world - 1) + 1) + 2 * (world - Half(world, k) - 2)
  }

  function OwnerSetAt(world: nat, f: nat): int
    requires 0 < world
  {
    if f < 2 * (world - 1) then OwnerPutAt(world, f) + 1 else f - (2 * (world - 1) + 1)
  }

  function OwnerWaitAt(world: nat, r: nat, k: nat): int
    requires 0 < world
  {
    if r < world && k < world - 1 then
      var s := Peer(world, r, k + 1);
      4 * (world - 1) + (if s < r then s else s - 1)
    else 7 * (world - 1) + 1 + 2 * Half(world, k)
  }

  function NonNeg(x: int): nat {
    if x < 0 then 0 else x
  }

  ghost function OwnerPlan<V(!new), W(!new)>(sums: Sums<V, W>, world: nat, inp: (nat, nat) -> V): Plan<V>
    requires 1 < world
  {
    Plan(OwnerLen(world),
         (r, i) => OwnerOp(sums, world, inp, r, i), inp,
         (r, k) => OwnerSlot(sums, world, inp, r, k),
         (r, i) => OwnerOutAt(sums, world, inp, r, i),
         (r: nat, f: nat) => r < world && f != 2 * (world - 1) && f < 3 * world - 2,
         (r, f) => OwnerSetter(world, r, f),
         (r: nat, f: nat) => NonNeg(OwnerSetAt(world, f)),
         (r: nat, k: nat) => NonNeg(OwnerPutAt(world, k)),
         (r: nat, k: nat) => NonNeg((world - 1) + (world - Half(world, k) - 2)),
         (r: nat, k: nat) => NonNeg(OwnerWaitAt(world, r, k)))
  }

  // --- The operations, stretch by stretch ---------------------------------------------------

  ghost predicate OwnerIn<V(!new)>(sys: System<V>, world: nat, r: nat) {
    1 < world == sys.world && r < world && sys.slots == 2 * (world - 1)
  }

  lemma FreeSetOk<V(!new), W(!new)>(sums: Sums<V, W>, world: nat, inp: (nat, nat) -> V, sys: System<V>, r: nat, i: nat)
    requires OwnerIn(sys, world, r) && i < world - 1
    ensures sys.OpOk(OwnerPlan(sums, world, inp), r, i)
  {
    var p := OwnerPlan(sums, world, inp);
    var q := Peer(world, r, i + 1);
    PeerIndex(world, r, i + 1);
    SetIs(sys, p, r, i, q, FreeFlag(world, q, r));
  }

  lemma FreeWaitOk<V(!new), W(!new)>(sums: Sums<V, W>, world: nat, inp: (nat, nat) -> V, sys: System<V>, r: nat, i: nat)
    requires OwnerIn(sys, world, r) && world - 1 <= i < 2 * (world - 1)
    ensures sys.OpOk(OwnerPlan(sums, world, inp), r, i)
  {
    var p := OwnerPlan(sums, world, inp);
    var o := i - (world - 1) + 1;
    PeerIndex(world, r, o);
    WaitIs(sys, p, r, i, FreeFlag(world, r, Peer(world, r, o)));
  }

  lemma HalfIndex(i: nat, from: nat, o: nat, j: nat)
    requires 0 < o && i == from + 2 * (o - 1) + j && j < 2
    ensures (i - from) / 2 + 1 == o && (i - from) % 2 == j
  {
  }

  // Reduce-scatter copies.
  lemma ScatterPutOk<V(!new), W(!new)>(sums: Sums<V, W>, world: nat, inp: (nat, nat) -> V, sys: System<V>, r: nat, i: nat, o: nat)
    requires OwnerIn(sys, world, r) && 0 < o < world && i == 2 * (world - 1) + 2 * (o - 1)
    ensures sys.OpOk(OwnerPlan(sums, world, inp), r, i)
  {
    var p := OwnerPlan(sums, world, inp);
    var q := Peer(world, r, o);
    HalfIndex(i, 2 * (world - 1), o, 0);
    PeerIndex(world, r, o);
    PutIs(sys, p, r, i, q, SlotIndex(world, r, q), In(q));
  }

  lemma ScatterSetOk<V(!new), W(!new)>(sums: Sums<V, W>, world: nat, inp: (nat, nat) -> V, sys: System<V>, r: nat, i: nat, o: nat)
    requires OwnerIn(sys, world, r) && 0 < o < world && i == 2 * (world - 1) + 2 * (o - 1) + 1
    ensures sys.OpOk(OwnerPlan(sums, world, inp), r, i)
  {
    var p := OwnerPlan(sums, world, inp);
    var q := Peer(world, r, o);
    HalfIndex(i, 2 * (world - 1), o, 1);
    PeerIndex(world, r, o);
    SetIs(sys, p, r, i, q, SlotIndex(world, r, q));
  }

  lemma ScatterWaitOk<V(!new), W(!new)>(sums: Sums<V, W>, world: nat, inp: (nat, nat) -> V, sys: System<V>, r: nat, i: nat)
    requires OwnerIn(sys, world, r) && 4 * (world - 1) <= i < 5 * (world - 1)
    ensures sys.OpOk(OwnerPlan(sums, world, inp), r, i)
  {
    var p := OwnerPlan(sums, world, inp);
    var s := Other(r, i - 4 * (world - 1));
    SlotIndexInverse(world, s, r);
    WaitIs(sys, p, r, i, SlotIndex(world, s, r));
  }

  // The sum.
  lemma PartialMeant<V(!new), W(!new)>(sums: Sums<V, W>, world: nat, inp: (nat, nat) -> V, sys: System<V>, r: nat, s: nat)
    requires OwnerIn(sys, world, r) && s < world
    ensures sys.Readable(OwnerPlan(sums, world, inp), r, 5 * (world - 1), PartialLocs(world, r)[s])
    ensures sys.Meant(OwnerPlan(sums, world, inp), r, 5 * (world - 1), PartialLocs(world, r)[s]) == inp(s, r)
  {
    if s != r {
      SlotIndexInverse(world, s, r);
    }
  }

  lemma SumOk<V(!new), W(!new)>(sums: Sums<V, W>, world: nat, inp: (nat, nat) -> V, sys: System<V>, r: nat, i: nat)
    requires OwnerIn(sys, world, r) && i == 5 * (world - 1)
    ensures sys.OpOk(OwnerPlan(sums, world, inp), r, i)
  {
    var p := OwnerPlan(sums, world, inp);
    var args, xs := PartialLocs(world, r), Partials(world, inp, r);
    forall s | 0 <= s < world
      ensures sys.Readable(p, r, i, args[s]) && sys.Meant(p, r, i, args[s]) == xs[s]
    {
      PartialMeant(sums, world, inp, sys, r, s);
    }
    SumsUp(sums, world, inp, r);
    SumFacts(sums, world, inp, r);
    ApplyIs(sys, p, r, i, r, args, SumRound(sums, inp), xs);
  }

  lemma SumsUp<V(!new), W(!new)>(sums: Sums<V, W>, world: nat, inp: (nat, nat) -> V, r: nat)
    requires 1 < world && r < world
    ensures SumRound(sums, inp)(Partials(world, inp, r)) == OwnerSum(sums, world, inp, r)
  {
    FoldIsSum(sums, inp, r, world - 1);
  }

  lemma SumFacts<V(!new), W(!new)>(sums: Sums<V, W>, world: nat, inp: (nat, nat) -> V, r: nat)
    requires 1 < world && r < world
    ensures var p := OwnerPlan(sums, world, inp);
      && p.op(r, 5 * (world - 1)) == Apply(r, PartialLocs(world, r), SumRound(sums, inp))
      && p.out(r, 5 * (world - 1)) == map[]
      && p.out(r, 5 * (world - 1) + 1) == map[][r := OwnerSum(sums, world, inp, r)]
  {
  }

  // All-gather copies.
  lemma GatherPutOk<V(!new), W(!new)>(sums: Sums<V, W>, world: nat, inp: (nat, nat) -> V, sys: System<V>, r: nat, i: nat, o: nat)
    requires OwnerIn(sys, world, r) && 0 < o < world && i == 5 * (world - 1) + 1 + 2 * (o - 1)
    ensures sys.OpOk(OwnerPlan(sums, world, inp), r, i)
  {
    var p := OwnerPlan(sums, world, inp);
    var q := Peer(world, r, o);
    HalfIndex(i, 5 * (world - 1) + 1, o, 0);
    PeerIndex(world, r, o);
    assert p.out(r, i) == OwnerOut(sums, world, inp, r, 0);
    PutIs(sys, p, r, i, q, world - 1 + SlotIndex(world, r, q), Out(r));
  }

  lemma GatherSetOk<V(!new), W(!new)>(sums: Sums<V, W>, world: nat, inp: (nat, nat) -> V, sys: System<V>, r: nat, i: nat, o: nat)
    requires OwnerIn(sys, world, r) && 0 < o < world && i == 5 * (world - 1) + 1 + 2 * (o - 1) + 1
    ensures sys.OpOk(OwnerPlan(sums, world, inp), r, i)
  {
    var p := OwnerPlan(sums, world, inp);
    var q := Peer(world, r, o);
    HalfIndex(i, 5 * (world - 1) + 1, o, 1);
    PeerIndex(world, r, o);
    SetIs(sys, p, r, i, q, world - 1 + SlotIndex(world, r, q));
  }

  lemma GatherOuts<V(!new), W(!new)>(sums: Sums<V, W>, world: nat, inp: (nat, nat) -> V, r: nat, i: nat, o: nat, j: nat)
    requires 1 < world && r < world && 0 < o < world && i == 7 * (world - 1) + 1 + 2 * (o - 1) + j && j < 2
    ensures OwnerPlan(sums, world, inp).out(r, i) == OwnerOut(sums, world, inp, r, o - 1)
    ensures OwnerPlan(sums, world, inp).out(r, i + 1) == OwnerOut(sums, world, inp, r, if j == 1 then o else o - 1)
  {
    HalfIndex(i, 7 * (world - 1) + 1, o, j);
  }

  lemma GatherWaitOk<V(!new), W(!new)>(sums: Sums<V, W>, world: nat, inp: (nat, nat) -> V, sys: System<V>, r: nat, i: nat, o: nat)
    requires OwnerIn(sys, world, r) && 0 < o < world && i == 7 * (world - 1) + 1 + 2 * (o - 1)
    ensures sys.OpOk(OwnerPlan(sums, world, inp), r, i)
  {
    var p := OwnerPlan(sums, world, inp);
    HalfIndex(i, 7 * (world - 1) + 1, o, 0);
    PeerIndex(world, r, o);
    GatherOuts(sums, world, inp, r, i, o, 0);
    WaitIs(sys, p, r, i, world - 1 + SlotIndex(world, Peer(world, r, o), r));
  }

  lemma GatherCopyOk<V(!new), W(!new)>(sums: Sums<V, W>, world: nat, inp: (nat, nat) -> V, sys: System<V>, r: nat, i: nat, o: nat)
    requires OwnerIn(sys, world, r) && 0 < o < world && i == 7 * (world - 1) + 1 + 2 * (o - 1) + 1
    ensures sys.OpOk(OwnerPlan(sums, world, inp), r, i)
  {
    var p := OwnerPlan(sums, world, inp);
    var s := Peer(world, r, o);
    GatherCopyOp(sums, world, inp, r, i, o);
    GatherOuts(sums, world, inp, r, i, o, 1);
    GatherCame(sums, world, inp, sys, r, i, o);
    CopyIs(sys, p, r, i, s, Slot(world - 1 + o - 1), Copies(inp), OwnerSum(sums, world, inp, s));
  }

  lemma GatherCopyOp<V(!new), W(!new)>(sums: Sums<V, W>, world: nat, inp: (nat, nat) -> V, r: nat, i: nat, o: nat)
    requires 1 < world && r < world && 0 < o < world && i == 7 * (world - 1) + 1 + 2 * (o - 1) + 1
    ensures OwnerPlan(sums, world, inp).op(r, i) == Apply(Peer(world, r, o), [Slot(world - 1 + o - 1)], Copies(inp))
  {
    HalfIndex(i, 7 * (world - 1) + 1, o, 1);
    PeerIndex(world, r, o);
  }

  lemma GatherCame<V(!new), W(!new)>(sums: Sums<V, W>, world: nat, inp: (nat, nat) -> V, sys: System<V>, r: nat, i: nat, o: nat)
    requires OwnerIn(sys, world, r) && 0 < o < world && i == 7 * (world - 1) + 1 + 2 * (o - 1) + 1
    ensures sys.Readable(OwnerPlan(sums, world, inp), r, i, Slot(world - 1 + o - 1))
    ensures sys.Meant(OwnerPlan(sums, world, inp), r, i, Slot(world - 1 + o - 1)) == OwnerSum(sums, world, inp, Peer(world, r, o))
  {
    PeerIndex(world, r, o);
  }

  lemma OwnerOpOk<V(!new), W(!new)>(sums: Sums<V, W>, world: nat, inp: (nat, nat) -> V, sys: System<V>, r: nat, i: nat)
    requires OwnerIn(sys, world, r) && i < OwnerLen(world)
    ensures sys.OpOk(OwnerPlan(sums, world, inp), r, i)
  {
    var n := world - 1;
    if i < n {
      FreeSetOk(sums, world, inp, sys, r, i);
    } else if i < 2 * n {
      FreeWaitOk(sums, world, inp, sys, r, i);
    } else if i < 4 * n {
      var o := (i - 2 * n) / 2 + 1;
      if (i - 2 * n) % 2 == 0 { ScatterPutOk(sums, world, inp, sys, r, i, o); } else { ScatterSetOk(sums, world, inp, sys, r, i, o); }
    } else if i < 5 * n {
      ScatterWaitOk(sums, world, inp, sys, r, i);
    } else if i == 5 * n {
      SumOk(sums, world, inp, sys, r, i);
    } else if i < 7 * n + 1 {
      var o := (i - (5 * n + 1)) / 2 + 1;
      if (i - (5 * n + 1)) % 2 == 0 { GatherPutOk(sums, world, inp, sys, r, i, o); } else { GatherSetOk(sums, world, inp, sys, r, i, o); }
    } else {
      var o := (i - (7 * n + 1)) / 2 + 1;
      if (i - (7 * n + 1)) % 2 == 0 { GatherWaitOk(sums, world, inp, sys, r, i, o); } else { GatherCopyOk(sums, world, inp, sys, r, i, o); }
    }
  }

  // --- Slots and flags -------------------------------------------------------------------

  // A slot's sender, and which of its peers the receiver is.
  function SlotSender(world: nat, r: nat, k: nat): nat
    requires r < world && k < 2 * (world - 1)
  {
    Peer(world, r, Half(world, k) + 1)
  }

  lemma SlotSenderFacts(world: nat, r: nat, k: nat)
    requires 1 < world && r < world && k < 2 * (world - 1)
    ensures var s, o := SlotSender(world, r, k), world - Half(world, k) - 1;
      && s < world && s != r && 0 < o < world && Peer(world, s, o) == r
      && SlotIndex(world, s, r) == Half(world, k) && SlotIndex(world, r, s) == o - 1
  {
    PeerIndex(world, r, Half(world, k) + 1);
  }

  lemma SlotPut<V(!new), W(!new)>(sums: Sums<V, W>, world: nat, inp: (nat, nat) -> V, r: nat, k: nat)
    requires 1 < world && r < world && k < 2 * (world - 1)
    ensures var p := OwnerPlan(sums, world, inp);
      p.op(SlotSender(world, r, k), p.putAt(r, k)) == Put(r, k, if k < world - 1 then In(r) else Out(SlotSender(world, r, k)))
  {
    SlotSenderFacts(world, r, k);
    var o := world - Half(world, k) - 1;
    HalfIndex(OwnerPutAt(world, k), if k < world - 1 then 2 * (world - 1) else 5 * (world - 1) + 1, o, 0);
  }

  lemma SlotReady<V(!new), W(!new)>(sums: Sums<V, W>, world: nat, inp: (nat, nat) -> V, r: nat, k: nat)
    requires 1 < world && r < world && k < 2 * (world - 1)
    ensures var p := OwnerPlan(sums, world, inp);
      p.op(SlotSender(world, r, k), p.readyAt(r, k)) == Wait(FreeFlag(world, SlotSender(world, r, k), r))
  {
    SlotSenderFacts(world, r, k);
  }

  lemma SlotWait<V(!new), W(!new)>(sums: Sums<V, W>, world: nat, inp: (nat, nat) -> V, r: nat, k: nat)
    requires 1 < world && r < world && k < 2 * (world - 1)
    ensures var p := OwnerPlan(sums, world, inp);
      p.waitAt(r, k) < p.len && p.op(r, p.waitAt(r, k)) == Wait(k)
  {
    SlotSenderFacts(world, r, k);
    if k >= world - 1 {
      HalfIndex(OwnerWaitAt(world, r, k), 7 * (world - 1) + 1, Half(world, k) + 1, 0);
    }
  }

  lemma SlotFlags<V(!new), W(!new)>(sums: Sums<V, W>, world: nat, inp: (nat, nat) -> V, r: nat, k: nat)
    requires 1 < world && r < world && k < 2 * (world - 1)
    ensures var p := OwnerPlan(sums, world, inp);
      var s := SlotSender(world, r, k);
      && p.sets(r, k) && p.setter(r, k) == s && p.readyAt(r, k) < p.putAt(r, k) < p.setAt(r, k)
      && FreeFlag(world, s, r) >= 2 * (world - 1) && p.sets(s, FreeFlag(world, s, r)) && p.setter(s, FreeFlag(world, s, r)) == r
  {
    SlotSenderFacts(world, r, k);
    SlotTimes(world, k);
    ConsentSetter(world, SlotSender(world, r, k), r);
  }

  lemma SlotTimes(world: nat, k: nat)
    requires 1 < world && k < 2 * (world - 1)
    ensures 0 <= (world - 1) + (world - Half(world, k) - 2) < OwnerPutAt(world, k) < OwnerSetAt(world, k)
  {
  }

  // The flag by which r consents to s's copies is r's to set.
  lemma ConsentSetter(world: nat, s: nat, r: nat)
    requires 1 < world && s < world && r < world && s != r
    ensures 2 * (world - 1) < FreeFlag(world, s, r) < 3 * world - 2 && OwnerSetter(world, s, FreeFlag(world, s, r)) == r
  {
    SlotIndexInverse(world, s, r);
  }

  lemma OwnerSlotOk<V(!new), W(!new)>(sums: Sums<V, W>, world: nat, inp: (nat, nat) -> V, sys: System<V>, r: nat, k: nat)
    requires OwnerIn(sys, world, r) && k < 2 * (world - 1)
    ensures sys.SlotOk(OwnerPlan(sums, world, inp), r, k)
  {
    SlotSenderFacts(world, r, k);
    SlotPut(sums, world, inp, r, k);
    SlotReady(sums, world, inp, r, k);
    SlotWait(sums, world, inp, r, k);
    SlotFlags(sums, world, inp, r, k);
    var s := SlotSender(world, r, k);
    SlotIs(sys, OwnerPlan(sums, world, inp), r, k, s, if k < world - 1 then In(r) else Out(s), FreeFlag(world, s, r));
  }

  // The one setting of each flag.
  lemma ScatterFlagOk<V(!new), W(!new)>(sums: Sums<V, W>, world: nat, inp: (nat, nat) -> V, sys: System<V>, r: nat, f: nat)
    requires OwnerIn(sys, world, r) && f < world - 1
    ensures sys.SetOk(OwnerPlan(sums, world, inp), r, f)
  {
    var p := OwnerPlan(sums, world, inp);
    var s, o := Peer(world, r, f + 1), world - f - 1;
    PeerIndex(world, r, f + 1);
    PeerIndex(world, s, o);
    HalfIndex(p.setAt(r, f), 2 * (world - 1), o, 1);
    assert p.op(s, p.setAt(r, f)) == Set(r, f);
  }

  lemma GatherFlagOk<V(!new), W(!new)>(sums: Sums<V, W>, world: nat, inp: (nat, nat) -> V, sys: System<V>, r: nat, f: nat)
    requires OwnerIn(sys, world, r) && world - 1 <= f < 2 * (world - 1)
    ensures sys.SetOk(OwnerPlan(sums, world, inp), r, f)
  {
    var p := OwnerPlan(sums, world, inp);
    var h := f - (world - 1);
    var s, o := Peer(world, r, h + 1), world - h - 1;
    PeerIndex(world, r, h + 1);
    PeerIndex(world, s, o);
    HalfIndex(p.setAt(r, f), 5 * (world - 1) + 1, o, 1);
    assert p.op(s, p.setAt(r, f)) == Set(r, f);
  }

  lemma FreeFlagOk<V(!new), W(!new)>(sums: Sums<V, W>, world: nat, inp: (nat, nat) -> V, calls: seq<Plan<V>>, r: nat, f: nat)
    requires 1 < world && r < world && f >= 2 * (world - 1)
    ensures RingSystem(world, calls).SetOk(OwnerPlan(sums, world, inp), r, f)
  {
    var p := OwnerPlan(sums, world, inp);
    if p.sets(r, f) {
      var o := f - (2 * (world - 1) + 1);
      var q := Giver(world, r, f);
      assert Peer(world, q, o + 1) == r;
      PeerIndex(world, q, o + 1);
      assert p.op(q, o) == Set(r, FreeFlag(world, r, q));
    }
  }

  lemma OwnerPlanOk<V(!new), W(!new)>(sums: Sums<V, W>, world: nat, inp: (nat, nat) -> V, calls: seq<Plan<V>>)
    requires 1 < world
    ensures RingSystem(world, calls).PlanOk(OwnerPlan(sums, world, inp))
  {
    var p := OwnerPlan(sums, world, inp);
    var sys := RingSystem(world, calls);
    forall r: nat, f: nat | r < world
      ensures sys.SetOk(p, r, f)
    {
      if f < world - 1 {
        ScatterFlagOk(sums, world, inp, sys, r, f);
      } else if f < 2 * (world - 1) {
        GatherFlagOk(sums, world, inp, sys, r, f);
      } else {
        FreeFlagOk(sums, world, inp, calls, r, f);
      }
    }
    forall r: nat, k: nat | r < world && k < sys.slots
      ensures sys.SlotOk(p, r, k)
    {
      OwnerSlotOk(sums, world, inp, sys, r, k);
    }
    forall r: nat, i: nat | r < world && i < p.len
      ensures sys.OpOk(p, r, i)
    {
      OwnerOpOk(sums, world, inp, sys, r, i);
    }
  }

  // --- Results ------------------------------------------------------------------------------

  lemma {:induction false} OwnerGathers<V(!new), W(!new)>(sums: Sums<V, W>, world: nat, inp: (nat, nat) -> V, r: nat, o: nat, c: nat)
    requires 1 < world && r < world && c < world && o < world && Wrap(c - r, world) <= o
    ensures c in OwnerOut(sums, world, inp, r, o) && OwnerOut(sums, world, inp, r, o)[c] == OwnerSum(sums, world, inp, c)
    decreases o
  {
    if o > 0 && Peer(world, r, o) != c {
      OwnerGathers(sums, world, inp, r, o - 1, c);
    }
  }

  // Every rank ends an owner-sum call with every shard summed in rank order, rounded once.
  lemma OwnerEnds<V(!new), W(!new)>(sums: Sums<V, W>, world: nat, inp: (nat, nat) -> V, r: nat, c: nat)
    requires 1 < world && r < world && c < world
    ensures var p := OwnerPlan(sums, world, inp);
      c in p.out(r, p.len) && p.out(r, p.len)[c] == OwnerSum(sums, world, inp, c)
      && ShardSum(sums, world, inp, c, p.out(r, p.len)[c])
  {
    OwnerSums(sums, world, inp, c);
    OwnerGathers(sums, world, inp, r, world - 1, c);
  }
}
