// The copy-engine ring and the owner sum as programs over the shared scratch and
// flags, and the two host emulations they agree with.
module CeRing {
  import opened EpochStreams
  import opened Terms

  // Message shards are values V: `add` adds two in the message type; the owner sum
  // widens, adds and rounds once. None of it is interpreted.
  datatype Sums<!V, !W> = Sums(add: (V, V) -> V, wide: V -> W, addWide: (W, W) -> W, round: W -> V)

  // x mod n for x at most once around either way, Python's % included.
  function Wrap(x: int, n: nat): (y: int)
    requires 0 <= x + n && x < 2 * n
  {
    if x < 0 then x + n else if x >= n then x - n else x
  }

  lemma WrapIsMod(x: int, n: nat)
    requires 0 < n && 0 <= x + n && x < 2 * n
    ensures Wrap(x, n) == x % n
  {
    var q := if x < 0 then -1 else if x >= n then 1 else 0;
    assert x == q * n + Wrap(x, n);
  }

  function Next(world: nat, r: nat): nat
    requires r < world
  {
    Wrap(r + 1, world)
  }

  function Prev(world: nat, r: nat): nat
    requires r < world
  {
    Wrap(r - 1, world)
  }

  // --- The ring ----------------------------------------------------------------------

  // ring_steps: the shards rank r sends and receives at step k.
  function RingSend(world: nat, r: nat, k: nat): nat
    requires r < world && k < 2 * (world - 1)
  {
    if k < world - 1 then Wrap(r - k, world) else Wrap(r + 1 - (k - (world - 1)), world)
  }

  function RingRecv(world: nat, r: nat, k: nat): nat
    requires r < world && k < 2 * (world - 1)
  {
    if k < world - 1 then Wrap(r - k - 1, world) else Wrap(r - (k - (world - 1)), world)
  }

  // As the program computes them.
  lemma RingStepsAre(world: nat, r: nat, k: nat)
    requires r < world && k < 2 * (world - 1)
    ensures RingSend(world, r, k) == (if k < world - 1 then r - k else r + 1 - (k - (world - 1))) % world
    ensures RingRecv(world, r, k) == (if k < world - 1 then r - k - 1 else r - (k - (world - 1))) % world
  {
    WrapIsMod(if k < world - 1 then r - k else r + 1 - (k - (world - 1)), world);
    WrapIsMod(if k < world - 1 then r - k - 1 else r - (k - (world - 1)), world);
  }

  // What rank r sends at a step is what it received at the step before, and what its
  // successor receives.
  lemma RingLinks(world: nat, r: nat, k: nat)
    requires r < world && k < 2 * (world - 1)
    ensures RingSend(world, r, k) < world && RingRecv(world, r, k) < world
    ensures RingSend(world, r, k) == RingRecv(world, Next(world, r), k)
    ensures k > 0 ==> RingSend(world, r, k) == RingRecv(world, r, k - 1)
    ensures k == 0 ==> RingSend(world, r, k) == r
  {
  }

  // Shard c summed over ranks c, c + 1, ..., c + n, each adding its own to what came.
  ghost function Partial<V(!new), W(!new)>(sums: Sums<V, W>, world: nat, inp: (nat, nat) -> V, c: nat, n: nat): V
    requires c < world && n < world
  {
    if n == 0 then inp(c, c) else sums.add(inp(Wrap(c + n, world), c), Partial(sums, world, inp, c, n - 1))
  }

  ghost function RingSum<V(!new), W(!new)>(sums: Sums<V, W>, world: nat, inp: (nat, nat) -> V, c: nat): V
    requires c < world
  {
    Partial(sums, world, inp, c, world - 1)
  }

  // Shard c of rank c + n, of rank c + n - 1, ..., of rank c.
  ghost function RingOperands<V(!new)>(world: nat, inp: (nat, nat) -> V, c: nat, n: nat): (xs: seq<V>)
    requires c < world && n < world
    ensures |xs| == n + 1
  {
    seq(n + 1, j requires 0 <= j <= n => inp((c + n - j) % world, c))
  }

  // y adds shard c of every rank, once each, rank c's first; each rank adds its own to what came.
  ghost predicate RingShard<V(!new), W(!new)>(sums: Sums<V, W>, world: nat, inp: (nat, nat) -> V, c: nat, y: V)
    requires c < world
  {
    SumsBack((v: V) => v, sums.add, RingOperands(world, inp, c, world - 1), y)
  }

  lemma {:induction false} PartialSums<V(!new), W(!new)>(sums: Sums<V, W>, world: nat, inp: (nat, nat) -> V, c: nat, n: nat)
    requires c < world && n < world
    ensures SumsBack((v: V) => v, sums.add, RingOperands(world, inp, c, n), Partial(sums, world, inp, c, n))
    decreases n
  {
    var own := (v: V) => v;
    WrapIsMod(c + n, world);
    if n == 0 {
      SumOfOne(own, sums.add, inp(c, c));
      assert RingOperands(world, inp, c, n) == [inp(c, c)];
    } else {
      var x := inp(Wrap(c + n, world), c);
      PartialSums(sums, world, inp, c, n - 1);
      SumOfMoreBack(own, sums.add, RingOperands(world, inp, c, n - 1), Partial(sums, world, inp, c, n - 1), x);
      assert RingOperands(world, inp, c, n) == [x] + RingOperands(world, inp, c, n - 1);
    }
  }

  function Capped(k: nat, world: nat): nat
    requires 0 < world
  {
    if k < world - 1 then k else world - 1
  }

  // What step k leaves in the shard it receives.
  ghost function StepValue<V(!new), W(!new)>(sums: Sums<V, W>, world: nat, inp: (nat, nat) -> V, r: nat, k: nat): V
    requires r < world && k < 2 * (world - 1)
  {
    RingLinks(world, r, k);
    Partial(sums, world, inp, RingRecv(world, r, k), Capped(k + 1, world))
  }

  // Rank r's output after n steps.
  ghost function RingOut<V(!new), W(!new)>(sums: Sums<V, W>, world: nat, inp: (nat, nat) -> V, r: nat, n: nat): map<nat, V>
    requires r < world && n <= 2 * (world - 1)
  {
    if n == 0 then map[]
    else RingOut(sums, world, inp, r, n - 1)[RingRecv(world, r, n - 1) := StepValue(sums, world, inp, r, n - 1)]
  }

  function RingReady(world: nat): nat
    requires 0 < world
  {
    2 * (world - 1)
  }

  // The add and the copy as functions of what they read; they read two and one.
  ghost function AddTwo<V(!new), W(!new)>(sums: Sums<V, W>, inp: (nat, nat) -> V, xs: seq<V>): V {
    if |xs| == 2 then sums.add(xs[0], xs[1]) else inp(0, 0)
  }

  ghost function CopyOne<V(!new)>(inp: (nat, nat) -> V, xs: seq<V>): V {
    if |xs| == 1 then xs[0] else inp(0, 0)
  }

  ghost function Adds<V(!new), W(!new)>(sums: Sums<V, W>, inp: (nat, nat) -> V): seq<V> -> V {
    xs => AddTwo(sums, inp, xs)
  }

  ghost function Copies<V(!new)>(inp: (nat, nat) -> V): seq<V> -> V {
    xs => CopyOne(inp, xs)
  }

  // Flag f of rank r: the successor's consent, or the predecessor's copy.
  function RingSetter(world: nat, r: nat, f: nat): nat
    requires 0 < world
  {
    if r >= world then 0 else if f == RingReady(world) then Next(world, r) else Prev(world, r)
  }

  // Operation i of rank r: the handshake, then four operations a step.
  ghost function RingOp<V(!new), W(!new)>(sums: Sums<V, W>, world: nat, inp: (nat, nat) -> V, r: nat, i: nat): Op<V> {
    if !(r < world && i < 2 + 8 * (world - 1)) then Wait(0)
    else if i == 0 then Set(Prev(world, r), RingReady(world))
    else if i == 1 then Wait(RingReady(world))
    else
      var k := (i - 2) / 4;
      if (i - 2) % 4 == 0 then
        Put(Next(world, r), k, if k == 0 then In(RingSend(world, r, k)) else Out(RingSend(world, r, k)))
      else if (i - 2) % 4 == 1 then Set(Next(world, r), k)
      else if (i - 2) % 4 == 2 then Wait(k)
      else if k < world - 1 then
        Apply(RingRecv(world, r, k), [In(RingRecv(world, r, k)), Slot(k)], Adds(sums, inp))
      else Apply(RingRecv(world, r, k), [Slot(k)], Copies(inp))
  }

  ghost function RingSlot<V(!new), W(!new)>(sums: Sums<V, W>, world: nat, inp: (nat, nat) -> V, r: nat, k: nat): V {
    if r < world && k < 2 * (world - 1) then
      RingLinks(world, r, k);
      Partial(sums, world, inp, RingRecv(world, r, k), Capped(k, world))
    else inp(r, k)
  }

  ghost function RingOutAt<V(!new), W(!new)>(sums: Sums<V, W>, world: nat, inp: (nat, nat) -> V, r: nat, i: nat): map<nat, V> {
    if r < world && 2 <= i <= 2 + 8 * (world - 1) then RingOut(sums, world, inp, r, (i - 2) / 4) else map[]
  }

  ghost function RingPlan<V(!new), W(!new)>(sums: Sums<V, W>, world: nat, inp: (nat, nat) -> V): Plan<V>
    requires 1 < world
  {
    Plan(2 + 8 * (world - 1),
         (r, i) => RingOp(sums, world, inp, r, i), inp,
         (r, k) => RingSlot(sums, world, inp, r, k),
         (r, i) => RingOutAt(sums, world, inp, r, i),
         (r: nat, f: nat) => r < world && f <= RingReady(world),
         (r, f) => RingSetter(world, r, f),
         (r: nat, f: nat) => if f == RingReady(world) then 0 else 3 + 4 * f,
         (r: nat, k: nat) => 2 + 4 * k,
         (r: nat, k: nat) => 1,
         (r: nat, k: nat) => 4 + 4 * k)
  }

  // Who sets a flag that is no slot's: the ring's ready flag, then one per receiver.
  function Giver(world: nat, r: nat, f: nat): nat {
    if r >= world || f < 2 * (world - 1) || f >= 2 * (world - 1) + world then 0
    else if f == 2 * (world - 1) then Next(world, r)
    else Wrap(r - 1 - (f - (2 * (world - 1) + 1)), world)
  }

  ghost function RingSystem<V(!new)>(world: nat, calls: seq<Plan<V>>): System<V>
    requires 1 < world
  {
    System(world, 2 * (world - 1), (r, f) => Giver(world, r, f), calls)
  }

  lemma RingIndex(i: nat, k: nat, j: nat)
    requires i == 2 + 4 * k + j && j < 4
    ensures (i - 2) / 4 == k && (i - 2) % 4 == j
    ensures (i + 1 - 2) / 4 == if j == 3 then k + 1 else k
  {
  }

  lemma RingOutIs<V(!new), W(!new)>(sums: Sums<V, W>, world: nat, inp: (nat, nat) -> V, r: nat, i: nat, k: nat, j: nat)
    requires 1 < world && r < world && i == 2 + 4 * k + j && j < 4 && k < 2 * (world - 1)
    ensures RingPlan(sums, world, inp).out(r, i) == RingOut(sums, world, inp, r, k)
    ensures RingPlan(sums, world, inp).out(r, i + 1) == RingOut(sums, world, inp, r, if j == 3 then k + 1 else k)
  {
    RingIndex(i, k, j);
  }

  // The operations of the handshake.
  lemma RingHandshakeOk<V(!new), W(!new)>(sums: Sums<V, W>, world: nat, inp: (nat, nat) -> V, sys: System<V>, r: nat, i: nat)
    requires 1 < world && r < world && i < 2 && sys.world == world
    ensures sys.OpOk(RingPlan(sums, world, inp), r, i)
  {
    var p := RingPlan(sums, world, inp);
    if i == 0 {
      SetIs(sys, p, r, i, Prev(world, r), RingReady(world));
    } else {
      WaitIs(sys, p, r, i, RingReady(world));
    }
  }

  // The four of step k.
  lemma RingPutOk<V(!new), W(!new)>(sums: Sums<V, W>, world: nat, inp: (nat, nat) -> V, sys: System<V>, r: nat, i: nat, k: nat)
    requires 1 < world && r < world && k < 2 * (world - 1) && i == 2 + 4 * k
    requires sys.world == world && sys.slots == 2 * (world - 1)
    ensures sys.OpOk(RingPlan(sums, world, inp), r, i)
  {
    var p := RingPlan(sums, world, inp);
    var src := if k == 0 then In(RingSend(world, r, k)) else Out(RingSend(world, r, k));
    RingIndex(i, k, 0);
    RingOutIs(sums, world, inp, r, i, k, 0);
    RingLinks(world, r, k);
    assert p.op(r, i) == Put(Next(world, r), k, src);
    assert RingSlot(sums, world, inp, Next(world, r), k) == Partial(sums, world, inp, RingSend(world, r, k), Capped(k, world));
    if k > 0 {
      assert RingOut(sums, world, inp, r, k)[RingSend(world, r, k)] == StepValue(sums, world, inp, r, k - 1);
    }
    PutIs(sys, p, r, i, Next(world, r), k, src);
  }

  lemma RingSetOk<V(!new), W(!new)>(sums: Sums<V, W>, world: nat, inp: (nat, nat) -> V, sys: System<V>, r: nat, i: nat, k: nat)
    requires 1 < world && r < world && k < 2 * (world - 1) && i == 2 + 4 * k + 1 && sys.world == world
    ensures sys.OpOk(RingPlan(sums, world, inp), r, i)
  {
    var p := RingPlan(sums, world, inp);
    RingIndex(i, k, 1);
    RingOutIs(sums, world, inp, r, i, k, 1);
    SetIs(sys, p, r, i, Next(world, r), k);
  }

  lemma RingWaitOk<V(!new), W(!new)>(sums: Sums<V, W>, world: nat, inp: (nat, nat) -> V, sys: System<V>, r: nat, i: nat, k: nat)
    requires 1 < world && r < world && k < 2 * (world - 1) && i == 2 + 4 * k + 2 && sys.world == world
    ensures sys.OpOk(RingPlan(sums, world, inp), r, i)
  {
    var p := RingPlan(sums, world, inp);
    RingIndex(i, k, 2);
    RingOutIs(sums, world, inp, r, i, k, 2);
    WaitIs(sys, p, r, i, k);
  }

  lemma RingAddOk<V(!new), W(!new)>(sums: Sums<V, W>, world: nat, inp: (nat, nat) -> V, sys: System<V>, r: nat, i: nat, k: nat)
    requires 1 < world && r < world && k < world - 1 && i == 2 + 4 * k + 3
    requires sys.world == world && sys.slots == 2 * (world - 1)
    ensures sys.OpOk(RingPlan(sums, world, inp), r, i)
  {
    var c, came := RingArrives(sums, world, inp, sys, r, i, k);
    RingLastOp(sums, world, inp, r, i, k);
    RingAdds(sums, world, inp, r, k);
    AddIs(sys, RingPlan(sums, world, inp), r, i, c, In(c), Slot(k), Adds(sums, inp), inp(r, c), came);
  }

  lemma RingCopyOk<V(!new), W(!new)>(sums: Sums<V, W>, world: nat, inp: (nat, nat) -> V, sys: System<V>, r: nat, i: nat, k: nat)
    requires 1 < world && r < world && world - 1 <= k < 2 * (world - 1) && i == 2 + 4 * k + 3
    requires sys.world == world && sys.slots == 2 * (world - 1)
    ensures sys.OpOk(RingPlan(sums, world, inp), r, i)
  {
    var c, came := RingArrives(sums, world, inp, sys, r, i, k);
    RingLastOp(sums, world, inp, r, i, k);
    CopyIs(sys, RingPlan(sums, world, inp), r, i, c, Slot(k), Copies(inp), came);
  }

  // What the last operation of step k does with what arrived.
  lemma RingArrives<V(!new), W(!new)>(sums: Sums<V, W>, world: nat, inp: (nat, nat) -> V, sys: System<V>, r: nat, i: nat, k: nat)
    returns (c: nat, came: V)
    requires 1 < world && r < world && k < 2 * (world - 1) && i == 2 + 4 * k + 3
    requires sys.world == world && sys.slots == 2 * (world - 1)
    ensures c == RingRecv(world, r, k) < world && came == Partial(sums, world, inp, c, Capped(k, world))
    ensures sys.Readable(RingPlan(sums, world, inp), r, i, Slot(k))
    ensures sys.Meant(RingPlan(sums, world, inp), r, i, Slot(k)) == came
  {
    RingLinks(world, r, k);
    c := RingRecv(world, r, k);
    came := Partial(sums, world, inp, c, Capped(k, world));
  }

  lemma RingLastOp<V(!new), W(!new)>(sums: Sums<V, W>, world: nat, inp: (nat, nat) -> V, r: nat, i: nat, k: nat)
    requires 1 < world && r < world && k < 2 * (world - 1) && i == 2 + 4 * k + 3
    ensures var c := RingRecv(world, r, k);
      RingPlan(sums, world, inp).op(r, i)
      == if k < world - 1 then Apply(c, [In(c), Slot(k)], Adds(sums, inp)) else Apply(c, [Slot(k)], Copies(inp))
    ensures RingPlan(sums, world, inp).out(r, i + 1)
            == RingPlan(sums, world, inp).out(r, i)[RingRecv(world, r, k) := StepValue(sums, world, inp, r, k)]
  {
    RingIndex(i, k, 3);
    RingLastOut(sums, world, inp, r, i, k);
  }

  lemma RingLastOut<V(!new), W(!new)>(sums: Sums<V, W>, world: nat, inp: (nat, nat) -> V, r: nat, i: nat, k: nat)
    requires 1 < world && r < world && k < 2 * (world - 1) && i == 2 + 4 * k + 3
    ensures RingPlan(sums, world, inp).out(r, i + 1)
            == RingPlan(sums, world, inp).out(r, i)[RingRecv(world, r, k) := StepValue(sums, world, inp, r, k)]
  {
    RingOutIs(sums, world, inp, r, i, k, 3);
    RingOutNext(sums, world, inp, r, k);
  }

  lemma RingAdds<V(!new), W(!new)>(sums: Sums<V, W>, world: nat, inp: (nat, nat) -> V, r: nat, k: nat)
    requires 1 < world && r < world && k < world - 1
    ensures RingRecv(world, r, k) < world
    ensures StepValue(sums, world, inp, r, k)
            == sums.add(inp(r, RingRecv(world, r, k)), Partial(sums, world, inp, RingRecv(world, r, k), k))
  {
    RingLinks(world, r, k);
    assert Wrap(RingRecv(world, r, k) + k + 1, world) == r;
  }

  lemma RingStepOk<V(!new), W(!new)>(sums: Sums<V, W>, world: nat, inp: (nat, nat) -> V, sys: System<V>, r: nat, i: nat, k: nat, j: nat)
    requires 1 < world && r < world && i == 2 + 4 * k + j && j < 4 && k < 2 * (world - 1)
    requires sys.world == world && sys.slots == 2 * (world - 1)
    ensures sys.OpOk(RingPlan(sums, world, inp), r, i)
  {
    if j == 0 {
      RingPutOk(sums, world, inp, sys, r, i, k);
    } else if j == 1 {
      RingSetOk(sums, world, inp, sys, r, i, k);
    } else if j == 2 {
      RingWaitOk(sums, world, inp, sys, r, i, k);
    } else if k < world - 1 {
      RingAddOk(sums, world, inp, sys, r, i, k);
    } else {
      RingCopyOk(sums, world, inp, sys, r, i, k);
    }
  }

  lemma RingOpOk<V(!new), W(!new)>(sums: Sums<V, W>, world: nat, inp: (nat, nat) -> V, sys: System<V>, r: nat, i: nat)
    requires 1 < world && r < world && i < 2 + 8 * (world - 1)
    requires sys.world == world && sys.slots == 2 * (world - 1)
    ensures sys.OpOk(RingPlan(sums, world, inp), r, i)
  {
    if i < 2 {
      RingHandshakeOk(sums, world, inp, sys, r, i);
    } else {
      RingStepOk(sums, world, inp, sys, r, i, (i - 2) / 4, (i - 2) % 4);
    }
  }

  lemma RingSlotOk<V(!new), W(!new)>(sums: Sums<V, W>, world: nat, inp: (nat, nat) -> V, sys: System<V>, r: nat, k: nat)
    requires 1 < world && r < world && k < 2 * (world - 1)
    requires sys.world == world && sys.slots == 2 * (world - 1)
    ensures sys.SlotOk(RingPlan(sums, world, inp), r, k)
  {
    var p := RingPlan(sums, world, inp);
    var s := Prev(world, r);
    RingIndex(2 + 4 * k, k, 0);
    RingIndex(4 + 4 * k, k, 2);
    assert p.op(s, 2 + 4 * k).Put? && p.op(s, 1) == Wait(RingReady(world)) && p.op(r, 4 + 4 * k) == Wait(k);
  }

  lemma RingFlagSetOk<V(!new), W(!new)>(sums: Sums<V, W>, world: nat, inp: (nat, nat) -> V, calls: seq<Plan<V>>, r: nat, f: nat)
    requires 1 < world && r < world
    ensures RingSystem(world, calls).SetOk(RingPlan(sums, world, inp), r, f)
  {
    if f < RingReady(world) {
      RingIndex(3 + 4 * f, f, 1);
    }
  }

  lemma RingPlanOk<V(!new), W(!new)>(sums: Sums<V, W>, world: nat, inp: (nat, nat) -> V, calls: seq<Plan<V>>)
    requires 1 < world
    ensures RingSystem(world, calls).PlanOk(RingPlan(sums, world, inp))
  {
    var p := RingPlan(sums, world, inp);
    var sys := RingSystem(world, calls);
    forall r: nat, f: nat | r < world
      ensures sys.SetOk(p, r, f)
    {
      RingFlagSetOk(sums, world, inp, calls, r, f);
    }
    forall r: nat, k: nat | r < world && k < sys.slots
      ensures sys.SlotOk(p, r, k)
    {
      RingSlotOk(sums, world, inp, sys, r, k);
    }
    forall r: nat, i: nat | r < world && i < p.len
      ensures sys.OpOk(p, r, i)
    {
      RingOpOk(sums, world, inp, sys, r, i);
    }
  }

  // --- The ring's result ---------------------------------------------------------------

  // After the reduce-scatter and n gather steps, a rank's own shard and the n received
  // hold the whole sum.
  lemma {:induction false} RingGathers<V(!new), W(!new)>(sums: Sums<V, W>, world: nat, inp: (nat, nat) -> V, r: nat, n: nat, c: nat)
    requires 1 < world && r < world && c < world && n <= world - 1
    requires c == Next(world, r) || Wrap(r - c, world) < n
    ensures c in RingOut(sums, world, inp, r, world - 1 + n)
    ensures RingOut(sums, world, inp, r, world - 1 + n)[c] == RingSum(sums, world, inp, c)
    decreases n
  {
    if n > 0 {
      GatherOrder(world, r, n, c);
      if RingRecv(world, r, world - 1 + (n - 1)) != c {
        RingGathers(sums, world, inp, r, n - 1, c);
      }
      HasShard(sums, world, inp, r, world - 1 + (n - 1), world - 1 + n, c);
    } else {
      OwnShardLast(world, r, c);
      HasShard(sums, world, inp, r, world - 2, world - 1, c);
    }
  }

  // A step brings a whole shard, and leaves those it had.
  lemma HasShard<V(!new), W(!new)>(sums: Sums<V, W>, world: nat, inp: (nat, nat) -> V, r: nat, k: nat, next: nat, c: nat)
    requires 1 < world && r < world && c < world && world - 2 <= k < 2 * (world - 1) && next == k + 1
    requires RingRecv(world, r, k) != c ==>
               c in RingOut(sums, world, inp, r, k) && RingOut(sums, world, inp, r, k)[c] == RingSum(sums, world, inp, c)
    ensures c in RingOut(sums, world, inp, r, next) && RingOut(sums, world, inp, r, next)[c] == RingSum(sums, world, inp, c)
  {
    RingOutNext(sums, world, inp, r, k);
    GatherValue(sums, world, inp, r, k);
  }

  // The n-th gather step brings shard c, or c came before.
  lemma GatherOrder(world: nat, r: nat, n: nat, c: nat)
    requires 1 < world && r < world && c < world && 0 < n <= world - 1
    requires c == Next(world, r) || Wrap(r - c, world) < n
    ensures RingRecv(world, r, world - 1 + (n - 1)) == c || c == Next(world, r) || Wrap(r - c, world) < n - 1
  {
  }

  lemma OwnShardLast(world: nat, r: nat, c: nat)
    requires 1 < world && r < world && c < world && (c == Next(world, r) || Wrap(r - c, world) < 0)
    ensures RingRecv(world, r, world - 2) == c
  {
  }

  // From the last reduce step on, what a rank receives is a whole sum.
  lemma GatherValue<V(!new), W(!new)>(sums: Sums<V, W>, world: nat, inp: (nat, nat) -> V, r: nat, k: nat)
    requires 1 < world && r < world && world - 2 <= k < 2 * (world - 1)
    ensures StepValue(sums, world, inp, r, k) == RingSum(sums, world, inp, RingRecv(world, r, k))
  {
  }

  lemma RingOutNext<V(!new), W(!new)>(sums: Sums<V, W>, world: nat, inp: (nat, nat) -> V, r: nat, k: nat)
    requires r < world && k < 2 * (world - 1)
    ensures RingOut(sums, world, inp, r, k + 1) == RingOut(sums, world, inp, r, k)[RingRecv(world, r, k) := StepValue(sums, world, inp, r, k)]
  {
  }

  // Every rank ends a ring call with every shard summed in rank order from its own rank.
  lemma RingEnds<V(!new), W(!new)>(sums: Sums<V, W>, world: nat, inp: (nat, nat) -> V, r: nat, c: nat)
    requires 1 < world && r < world && c < world
    ensures var p := RingPlan(sums, world, inp);
      c in p.out(r, p.len) && p.out(r, p.len)[c] == RingSum(sums, world, inp, c)
      && RingShard(sums, world, inp, c, p.out(r, p.len)[c])
  {
    PartialSums(sums, world, inp, c, world - 1);
    RingGathers(sums, world, inp, r, world - 1, c);
  }
}
