// The host-staged all-reduce: ranks publish into shared slots, wait at barriers
// whose flags must equal the call's 32-bit generation, and reduce in rank order.
// Scatter slots and the gather buffer alternate with the generation's parity; the
// copy-engine slots do not.
module HostShm {
  import opened Arith
  import opened Terms

  const GENERATIONS := 0x1_0000_0000

  // Units X are reduced in a wide type from zero, in rank order, rounded once.
  datatype Sums<!X, !W> = Sums(zero: W, up: X -> W, add: (W, W) -> W, down: W -> X)

  datatype Algo = OneShot | TwoShot | Dma

  // cuts are where the ranks' sub-chunks start, and the end.
  datatype Call<!X> = Call(algo: Algo, units: nat, cuts: seq<nat>, inp: (nat, nat) -> X)

  datatype System<!X, !W> = System(world: nat, sums: Sums<X, W>, calls: seq<Call<X>>)

  // --- Layout --------------------------------------------------------------------------

  // Call c runs as generation c + 1.
  function Parity(c: nat): nat {
    (c + 1) % 2
  }

  // Slot numbers after the header.
  function ScatterSlot(world: nat, p: nat, r: nat): nat {
    (if p == 0 then 0 else world) + r
  }

  function GatherSlot(world: nat, p: nat): nat {
    2 * world + p
  }

  function DmaSlot(world: nat, r: nat): nat {
    2 * world + 2 + r
  }

  // Where rank r publishes in call c.
  function PubSlot(world: nat, algo: Algo, c: nat, r: nat): nat {
    if algo == Dma then DmaSlot(world, r) else ScatterSlot(world, Parity(c), r)
  }

  // Where rank r's sub-chunk of n units starts, for r = 0..world.
  function Cuts(n: nat, world: nat): (cuts: seq<nat>)
    requires 0 < world
  {
    seq(world + 1, (r: nat) => n * r / world)
  }

  ghost predicate CutsOk<X>(call: Call<X>, world: nat) {
    && |call.cuts| == world + 1 && call.cuts[0] == 0 && call.cuts[world] == call.units
    && forall r, q | 0 <= r <= q <= world :: call.cuts[r] <= call.cuts[q]
  }

  lemma CutsAreOk(n: nat, world: nat)
    requires 0 < world
    ensures var cuts := Cuts(n, world);
      cuts[0] == 0 && cuts[world] == n && forall r, q | 0 <= r <= q <= world :: cuts[r] <= cuts[q]
    // Each owner's share is n / world, or one more.
    ensures forall r | 0 <= r < world :: n / world <= Cuts(n, world)[r + 1] - Cuts(n, world)[r] <= n / world + 1
  {
    forall r: nat | r < world
      ensures n / world <= n * (r + 1) / world - n * r / world <= n / world + 1
    {
      EvenShare(n, world, r);
    }
    DivModUnique(n * world, world, n, 0);
    DivModUnique(n * 0, world, 0, 0);
    forall r, q | 0 <= r <= q <= world
      ensures n * r / world <= n * q / world
    {
      MulMono(r, q, n);
      DivBounds(n * r, world);
      DivGalois(n * r / world, n * q, world);
    }
  }

  lemma EvenShare(n: nat, world: nat, r: nat)
    requires 0 < world
    ensures n / world <= n * (r + 1) / world - n * r / world <= n / world + 1
  {
    var a, q, d := n * r, n * r / world, n / world;
    assert n * (r + 1) == a + n;
    DivBounds(a, world);
    DivBounds(n, world);
    assert (q + d) * world == q * world + d * world && (q + d + 2) * world == q * world + d * world + 2 * world;
    DivGalois(q + d, a + n, world);
    DivGalois(q + d + 2, a + n, world);
  }

  predicate Owns<X>(call: Call<X>, r: nat, i: nat) {
    r + 1 < |call.cuts| && call.cuts[r] <= i < call.cuts[r + 1]
  }

  // Every unit has one owner.
  lemma {:induction false} OwnerOf<X>(call: Call<X>, world: nat, i: nat, n: nat) returns (r: nat)
    requires CutsOk(call, world) && 0 < n <= world && i < call.cuts[n]
    ensures r < n && Owns(call, r, i)
    decreases n
  {
    if call.cuts[n - 1] <= i {
      r := n - 1;
    } else {
      r := OwnerOf(call, world, i, n - 1);
    }
  }

  lemma OneOwner<X>(call: Call<X>, world: nat, i: nat, r: nat, q: nat)
    requires CutsOk(call, world) && Owns(call, r, i) && Owns(call, q, i)
    ensures r == q
  {
  }

  // --- The sum -----------------------------------------------------------------------------

  ghost function Acc<X(!new), W(!new)>(sums: Sums<X, W>, x: nat -> X, n: nat): W {
    if n == 0 then sums.zero else sums.add(Acc(sums, x, n - 1), sums.up(x(n - 1)))
  }

  // Unit i of call c on every rank.
  ghost function Result<X(!new), W(!new)>(sys: System<X, W>, c: nat, i: nat): X
    requires c < |sys.calls|
  {
    sys.sums.down(Acc(sys.sums, (r: nat) => sys.calls[c].inp(r, i), sys.world))
  }

  // The reduce loop of a block over its units lo..hi-1: src[q] is where it reads rank q.
  method ReduceUnits<X(!new), W(!new)>(sums: Sums<X, W>, world: nat, src: (nat, nat) -> X, lo: nat, hi: nat, out: array<X>)
    requires lo <= hi <= out.Length
    modifies out
    ensures forall i: nat | i < out.Length ::
              out[i] == if lo <= i < hi then sums.down(Acc(sums, (q: nat) => src(q, i), world)) else old(out[i])
    ensures forall i: nat | lo <= i < hi :: UnitSum(sums, world, (q: nat) => src(q, i), out[i])
  {
    for i := lo to hi
      invariant forall j: nat | j < out.Length ::
                  out[j] == if lo <= j < i then sums.down(Acc(sums, (q: nat) => src(q, j), world)) else old(out[j])
    {
      var acc := sums.zero;
      ghost var x := (q: nat) => src(q, i);
      for r := 0 to world
        invariant acc == Acc(sums, x, r)
      {
        acc := sums.add(acc, sums.up(src(r, i)));
      }
      out[i] := sums.down(acc);
    }
    forall i: nat | lo <= i < hi
      ensures UnitSum(sums, world, (q: nat) => src(q, i), out[i])
    {
      AccSums(sums, (q: nat) => src(q, i), world);
    }
  }

  // An operand of the sum: the accumulator's zero, or a rank's unit.
  datatype Operand<!X> = Zero | Unit(x: X)

  ghost function Value<X(!new), W(!new)>(sums: Sums<X, W>): Operand<X> -> W {
    (o: Operand<X>) => if o.Zero? then sums.zero else sums.up(o.x)
  }

  // Zero, then the first n ranks' units in rank order.
  ghost function Operands<X(!new)>(x: nat -> X, n: nat): (xs: seq<Operand<X>>)
    ensures |xs| == n + 1
  {
    seq(n + 1, j requires 0 <= j <= n => if j == 0 then Zero else Unit(x(j - 1)))
  }

  // y adds zero and every rank's unit from the left, once each, and rounds once.
  ghost predicate UnitSum<X(!new), W(!new)>(sums: Sums<X, W>, world: nat, x: nat -> X, y: X) {
    exists sum: W :: SumsTo(Value(sums), sums.add, Operands(x, world), sum) && y == sums.down(sum)
  }

  lemma {:induction false} AccSums<X(!new), W(!new)>(sums: Sums<X, W>, x: nat -> X, n: nat)
    ensures SumsTo(Value(sums), sums.add, Operands(x, n), Acc(sums, x, n))
  {
    if n == 0 {
      SumOfOne(Value(sums), sums.add, Zero);
      assert Operands(x, n) == [Zero];
    } else {
      AccSums(sums, x, n - 1);
      SumOfMore(Value(sums), sums.add, Operands(x, n - 1), Acc(sums, x, n - 1), Unit(x(n - 1)));
      assert Operands(x, n) == Operands(x, n - 1) + [Unit(x(n - 1))];
    }
  }

  // The result of a call is that sum.
  lemma ResultSums<X(!new), W(!new)>(sys: System<X, W>, c: nat, i: nat)
    requires c < |sys.calls|
    ensures UnitSum(sys.sums, sys.world, (r: nat) => sys.calls[c].inp(r, i), Result(sys, c, i))
  {
    AccSums(sys.sums, (r: nat) => sys.calls[c].inp(r, i), sys.world);
  }

  // --- Steps ----------------------------------------------------------------------------------

  datatype Phase = Publish | Arrive0 | Wait0 | Reduce | Arrive1 | Wait1 | Gather | End

  function Order(ph: Phase): nat {
    match ph
    case Publish => 0 case Arrive0 => 1 case Wait0 => 2 case Reduce => 3
    case Arrive1 => 4 case Wait1 => 5 case Gather => 6 case End => 7
  }

  function NextPhase(algo: Algo, ph: Phase): Phase {
    match ph
    case Publish => Arrive0 case Arrive0 => Wait0 case Wait0 => Reduce
    case Reduce => if algo == OneShot then End else Arrive1
    case Arrive1 => Wait1 case Wait1 => Gather case Gather => End case End => End
  }

  // done is seq[0]: the calls finished; did, the units or peers of the phase done.
  datatype Rank<!X> = Rank(done: nat, phase: Phase, did: set<nat>, out: map<nat, X>, log: seq<map<nat, X>>)

  // flags by (barrier, parity, rank), zero at first.
  datatype State<!X> = State(ranks: seq<Rank<X>>, flags: map<(nat, nat, nat), nat>, mem: map<(nat, nat), X>)

  datatype Action = Work(r: nat, i: nat) | Next(r: nat)

  ghost function Init<X(!new), W(!new)>(sys: System<X, W>): State<X> {
    State(seq(sys.world, r => Rank(0, Publish, {}, map[], [])), map[], map[])
  }

  ghost function Flag<X(!new)>(s: State<X>, bar: nat, p: nat, r: nat): nat {
    if (bar, p, r) in s.flags then s.flags[(bar, p, r)] else 0
  }

  ghost predicate Active<X(!new), W(!new)>(sys: System<X, W>, s: State<X>, r: nat) {
    1 < sys.world == |s.ranks| && r < sys.world && s.ranks[r].done < |sys.calls|
  }

  // The units, or peers, a phase goes over.
  ghost predicate InPhase<X(!new)>(world: nat, call: Call<X>, r: nat, ph: Phase, i: nat) {
    match ph
    case Publish => i < call.units && (call.algo == OneShot || !Owns(call, r, i))
    case Reduce => i < call.units && (call.algo == OneShot || Owns(call, r, i))
    case Gather => i < call.units && !Owns(call, r, i)
    case Wait0 => i < world && i != r
    case Wait1 => i < world && i != r
    case _ => false
  }

  function Barrier(ph: Phase): nat {
    if ph == Wait0 || ph == Arrive0 then 0 else 1
  }

  // What rank r reads as rank q's unit i: its own input, or q's slot.
  ghost function Partial<X(!new), W(!new)>(sys: System<X, W>, s: State<X>, c: nat, r: nat, i: nat): nat -> X
    requires c < |sys.calls|
  {
    var call := sys.calls[c];
    (q: nat) => if q == r || (PubSlot(sys.world, call.algo, c, q), i) !in s.mem then call.inp(r, i)
         else s.mem[(PubSlot(sys.world, call.algo, c, q), i)]
  }

  // The slots a reduce reads have all been written.
  ghost predicate Published<X(!new), W(!new)>(sys: System<X, W>, s: State<X>, c: nat, r: nat, i: nat)
    requires c < |sys.calls|
  {
    forall q: nat | q < sys.world && q != r :: (PubSlot(sys.world, sys.calls[c].algo, c, q), i) in s.mem
  }

  ghost predicate Enabled<X(!new), W(!new)>(sys: System<X, W>, s: State<X>, a: Action) {
    Active(sys, s, a.r)
    && var rank := s.ranks[a.r];
    var c := rank.done;
    var call := sys.calls[c];
    match a
    case Work(r, i) =>
      InPhase(sys.world, call, r, rank.phase, i) && i !in rank.did
      && (rank.phase == Wait0 || rank.phase == Wait1 ==> Flag(s, Barrier(rank.phase), Parity(c), i) == (c + 1) % GENERATIONS)
      && (rank.phase == Reduce ==> Published(sys, s, c, r, i))
      && (rank.phase == Gather ==> (GatherSlot(sys.world, Parity(c)), i) in s.mem)
    case Next(r) => forall i: nat | InPhase(sys.world, call, r, rank.phase, i) :: i in rank.did
  }

  ghost function Do<X(!new), W(!new)>(sys: System<X, W>, s: State<X>, a: Action): State<X>
    requires Enabled(sys, s, a)
  {
    var rank := s.ranks[a.r];
    var c := rank.done;
    var call := sys.calls[c];
    match a
    case Work(r, i) =>
      var did := rank.(did := rank.did + {i});
      (match rank.phase
       case Publish => s.(ranks := s.ranks[r := did], mem := s.mem[(PubSlot(sys.world, call.algo, c, r), i) := call.inp(r, i)])
       case Reduce =>
         var x := sys.sums.down(Acc(sys.sums, Partial(sys, s, c, r, i), sys.world));
         s.(ranks := s.ranks[r := did.(out := rank.out[i := x])],
            mem := if call.algo == OneShot then s.mem else s.mem[(GatherSlot(sys.world, Parity(c)), i) := x])
       case Gather => s.(ranks := s.ranks[r := did.(out := rank.out[i := s.mem[(GatherSlot(sys.world, Parity(c)), i)]])])
       case _ => s.(ranks := s.ranks[r := did]))
    case Next(r) =>
      if rank.phase == End then s.(ranks := s.ranks[r := Rank(c + 1, Publish, {}, map[], rank.log + [rank.out])])
      else
        var next := rank.(phase := NextPhase(call.algo, rank.phase), did := {});
        if rank.phase == Arrive0 || rank.phase == Arrive1 then
          s.(ranks := s.ranks[r := next], flags := s.flags[(Barrier(rank.phase), Parity(c), r) := (c + 1) % GENERATIONS])
        else s.(ranks := s.ranks[r := next])
  }

  // --- Generations ------------------------------------------------------------------------------

  predicate Uses<X>(call: Call<X>, bar: nat) {
    bar == 0 || call.algo != OneShot
  }

  // The last generation up to n of parity p whose call uses the barrier, or 0.
  ghost function Last<X(!new), W(!new)>(sys: System<X, W>, bar: nat, n: nat, p: nat): (g: nat)
    requires n <= |sys.calls|
    ensures g <= n
  {
    if n == 0 then 0
    else if n % 2 == p && Uses(sys.calls[n - 1], bar) then n
    else Last(sys, bar, n - 1, p)
  }

  // At call c the flags of barrier 1, left by the last two-shot of its parity, differ
  // from its generation.
  ghost predicate Fresh<X(!new), W(!new)>(sys: System<X, W>, c: nat) {
    c < |sys.calls| && Uses(sys.calls[c], 1) ==> Last(sys, 1, c, Parity(c)) % GENERATIONS != (c + 1) % GENERATIONS
  }

  ghost predicate Ok<X(!new), W(!new)>(sys: System<X, W>) {
    1 < sys.world && forall c: nat | c < |sys.calls| :: Fresh(sys, c) && CutsOk(sys.calls[c], sys.world)
  }

  // --- Invariant -----------------------------------------------------------------------------------

  // Rank r has left phase ph of call c.
  ghost predicate After<X(!new)>(s: State<X>, r: nat, c: nat, ph: Phase) {
    r < |s.ranks| && (s.ranks[r].done > c || (s.ranks[r].done == c && Order(s.ranks[r].phase) > Order(ph)))
  }

  // Rank r has done item i of phase ph of call c.
  ghost predicate Did<X(!new)>(s: State<X>, r: nat, c: nat, ph: Phase, i: nat) {
    After(s, r, c, ph) || (r < |s.ranks| && s.ranks[r].done == c && s.ranks[r].phase == ph && i in s.ranks[r].did)
  }

  // Generations rank r has announced at a barrier.
  ghost function Announced<X(!new)>(s: State<X>, r: nat, bar: nat): nat
    requires r < |s.ranks|
  {
    s.ranks[r].done + if After(s, r, s.ranks[r].done, if bar == 0 then Arrive0 else Arrive1) then 1 else 0
  }

  ghost predicate RankOk<X(!new), W(!new)>(sys: System<X, W>, rank: Rank<X>, r: nat)
    requires 0 < sys.world
  {
    && rank.done <= |sys.calls| && |rank.log| == rank.done
    && (rank.done == |sys.calls| ==> rank.phase == Publish && rank.did == {})
    && (rank.done < |sys.calls| ==> OutOk(sys, rank, r))
    && (forall c: nat | c < rank.done :: LogOk(sys, c, rank.log[c]))
  }

  ghost predicate LogOk<X(!new), W(!new)>(sys: System<X, W>, c: nat, out: map<nat, X>) {
    c < |sys.calls| && forall i: nat | i < sys.calls[c].units :: i in out && out[i] == Result(sys, c, i)
  }

  // What a rank has written so far is the result, and each phase it has left it finished.
  ghost predicate OutOk<X(!new), W(!new)>(sys: System<X, W>, rank: Rank<X>, r: nat)
    requires rank.done < |sys.calls| && 0 < sys.world
  {
    var call := sys.calls[rank.done];
    && (call.algo == OneShot ==> Order(rank.phase) <= 3 || rank.phase == End)
    && (forall i: nat | i in rank.out :: rank.out[i] == Result(sys, rank.done, i))
    && (forall i: nat | i in rank.did :: InPhase(sys.world, call, r, rank.phase, i))
    && (forall ph: Phase, i: nat | (ph == Reduce || ph == Gather) && InPhase(sys.world, call, r, ph, i)
          && (ph == Gather ==> call.algo != OneShot)
          && (Order(rank.phase) > Order(ph) || (rank.phase == ph && i in rank.did)) :: i in rank.out)
  }

  ghost predicate RanksOk<X(!new), W(!new)>(sys: System<X, W>, s: State<X>) {
    1 < sys.world == |s.ranks| && forall r: nat | r < sys.world :: RankOk(sys, s.ranks[r], r)
  }

  ghost predicate FlagOk<X(!new), W(!new)>(sys: System<X, W>, s: State<X>, bar: nat, p: nat, r: nat)
    requires r < |s.ranks|
  {
    Announced(s, r, bar) <= |sys.calls| && Flag(s, bar, p, r) == Last(sys, bar, Announced(s, r, bar), p) % GENERATIONS
  }

  ghost predicate FlagsOk<X(!new), W(!new)>(sys: System<X, W>, s: State<X>) {
    |s.ranks| == sys.world && forall bar: nat, p: nat, r: nat | bar < 2 && p < 2 && r < sys.world :: FlagOk(sys, s, bar, p, r)
  }

  // Past a barrier's wait for a peer, the peer has announced this call there.
  ghost predicate WaitOk<X(!new), W(!new)>(sys: System<X, W>, s: State<X>, c: nat, r: nat, q: nat)
    requires c < |sys.calls|
  {
    && (Did(s, r, c, Wait0, q) ==> After(s, q, c, Arrive0))
    && (Uses(sys.calls[c], 1) && Did(s, r, c, Wait1, q) ==> After(s, q, c, Arrive1))
  }

  ghost predicate WaitsOk<X(!new), W(!new)>(sys: System<X, W>, s: State<X>) {
    forall c: nat, r: nat, q: nat | c < |sys.calls| && r < sys.world && q < sys.world && r != q :: WaitOk(sys, s, c, r, q)
  }

  // A published unit stays in its slot: until the next call in a copy-engine slot, the
  // one after in the others.
  ghost predicate PubOk<X(!new), W(!new)>(sys: System<X, W>, s: State<X>, c: nat, q: nat, i: nat)
    requires c < |sys.calls| && q < |s.ranks| && 0 < sys.world
  {
    var call := sys.calls[c];
    var at := (PubSlot(sys.world, call.algo, c, q), i);
    InPhase(sys.world, call, q, Publish, i) && Did(s, q, c, Publish, i)
    && s.ranks[q].done <= (if call.algo == Dma then c else c + 1)
    ==> at in s.mem && s.mem[at] == call.inp(q, i)
  }

  ghost predicate PubsOk<X(!new), W(!new)>(sys: System<X, W>, s: State<X>) {
    1 < sys.world == |s.ranks|
    && forall c: nat, q: nat, i: nat | c < |sys.calls| && q < sys.world :: PubOk(sys, s, c, q, i)
  }

  // A reduced unit stays in the gather buffer while no rank is two calls on.
  ghost predicate GatherOk<X(!new), W(!new)>(sys: System<X, W>, s: State<X>, c: nat, q: nat, i: nat)
    requires c < |sys.calls| && 0 < sys.world
  {
    var call := sys.calls[c];
    var at := (GatherSlot(sys.world, Parity(c)), i);
    call.algo != OneShot && InPhase(sys.world, call, q, Reduce, i) && Did(s, q, c, Reduce, i)
    && (forall o: nat | o < |s.ranks| :: s.ranks[o].done <= c + 1)
    ==> at in s.mem && s.mem[at] == Result(sys, c, i)
  }

  ghost predicate GathersOk<X(!new), W(!new)>(sys: System<X, W>, s: State<X>) {
    1 < sys.world == |s.ranks|
    && forall c: nat, q: nat, i: nat | c < |sys.calls| && q < sys.world :: GatherOk(sys, s, c, q, i)
  }

  ghost predicate Inv<X(!new), W(!new)>(sys: System<X, W>, s: State<X>) {
    RanksOk(sys, s) && FlagsOk(sys, s) && WaitsOk(sys, s) && PubsOk(sys, s) && GathersOk(sys, s)
  }

  lemma InitInv<X(!new), W(!new)>(sys: System<X, W>)
    requires 1 < sys.world
    ensures Inv(sys, Init(sys))
  {
  }

  // --- Ranks stay close -----------------------------------------------------------------------

  // A rank past the first barrier's waits is followed there by every peer.
  lemma PastWait0<X(!new), W(!new)>(sys: System<X, W>, s: State<X>, c: nat, r: nat, q: nat)
    requires WaitsOk(sys, s) && c < |sys.calls| && r < sys.world && q < sys.world && r != q && After(s, r, c, Wait0)
    ensures After(s, q, c, Arrive0)
  {
    assert WaitOk(sys, s, c, r, q);
  }

  lemma PastWait1<X(!new), W(!new)>(sys: System<X, W>, s: State<X>, c: nat, r: nat, q: nat)
    requires WaitsOk(sys, s) && c < |sys.calls| && r < sys.world && q < sys.world && r != q
    requires Uses(sys.calls[c], 1) && After(s, r, c, Wait1)
    ensures After(s, q, c, Arrive1)
  {
    assert WaitOk(sys, s, c, r, q);
  }

  lemma Close<X(!new), W(!new)>(sys: System<X, W>, s: State<X>, r: nat, q: nat)
    requires RanksOk(sys, s) && WaitsOk(sys, s) && r < sys.world && q < sys.world
    ensures s.ranks[r].done <= s.ranks[q].done + 1
  {
    var c := s.ranks[r].done;
    assert RankOk(sys, s.ranks[r], r);
    if r != q && c > 0 {
      PastWait0(sys, s, c - 1, r, q);
    }
  }

  // --- Flags ------------------------------------------------------------------------------------

  lemma LastSkips<X(!new), W(!new)>(sys: System<X, W>, bar: nat, n: nat, p: nat)
    requires 0 < n <= |sys.calls| && (n % 2 != p || !Uses(sys.calls[n - 1], bar))
    ensures Last(sys, bar, n, p) == Last(sys, bar, n - 1, p)
  {
  }

  // The first barrier's flag of a peer that has not arrived is two generations old.
  lemma OldFlag0<X(!new), W(!new)>(sys: System<X, W>, c: nat)
    requires c < |sys.calls|
    ensures Last(sys, 0, c, Parity(c)) == if c == 0 then 0 else c - 1
  {
    if c > 0 {
      LastSkips(sys, 0, c, Parity(c));
      if c > 1 {
        assert (c - 1) % 2 == Parity(c);
      }
    }
  }

  // A peer's flag shows this call's generation once it has arrived, and its next
  // arrival does not disturb it: the wait cannot miss it.
  lemma SeenFlag<X(!new), W(!new)>(sys: System<X, W>, s: State<X>, bar: nat, r: nat, q: nat)
    requires RanksOk(sys, s) && FlagsOk(sys, s) && WaitsOk(sys, s) && Active(sys, s, r) && q < sys.world && bar < 2
    requires Uses(sys.calls[s.ranks[r].done], bar)
    requires After(s, q, s.ranks[r].done, if bar == 0 then Arrive0 else Arrive1)
    ensures Flag(s, bar, Parity(s.ranks[r].done), q) == (s.ranks[r].done + 1) % GENERATIONS
  {
    var c := s.ranks[r].done;
    var n := Announced(s, q, bar);
    Close(sys, s, q, r);
    assert FlagOk(sys, s, bar, Parity(c), q);
    if n == c + 2 {
      LastSkips(sys, bar, n, Parity(c));
    }
    assert Last(sys, bar, c + 1, Parity(c)) == c + 1;
  }

  // Whatever a peer that has not arrived shows, it was left there before this call.
  lemma UnseenFlag<X(!new), W(!new)>(sys: System<X, W>, s: State<X>, bar: nat, r: nat, q: nat)
    requires RanksOk(sys, s) && FlagsOk(sys, s) && WaitsOk(sys, s) && Active(sys, s, r) && q < sys.world && q != r && bar < 2
    requires bar == 1 ==> After(s, r, s.ranks[r].done, Wait0)
    requires !After(s, q, s.ranks[r].done, if bar == 0 then Arrive0 else Arrive1)
    ensures Flag(s, bar, Parity(s.ranks[r].done), q) == Last(sys, bar, s.ranks[r].done, Parity(s.ranks[r].done)) % GENERATIONS
  {
    var c := s.ranks[r].done;
    var n := Announced(s, q, bar);
    assert FlagOk(sys, s, bar, Parity(c), q);
    if bar == 0 {
      if c > 0 {
        PastWait0(sys, s, c - 1, r, q);
      }
    } else {
      PastWait0(sys, s, c, r, q);
    }
    assert n == c;
  }

  // A served wait was served by this call's announcement.
  lemma ServedWait<X(!new), W(!new)>(sys: System<X, W>, s: State<X>, bar: nat, r: nat, q: nat)
    requires RanksOk(sys, s) && FlagsOk(sys, s) && WaitsOk(sys, s) && Active(sys, s, r) && q < sys.world && q != r && bar < 2
    requires bar == 1 ==> After(s, r, s.ranks[r].done, Wait0) && Uses(sys.calls[s.ranks[r].done], 1) && Fresh(sys, s.ranks[r].done)
    requires Flag(s, bar, Parity(s.ranks[r].done), q) == (s.ranks[r].done + 1) % GENERATIONS
    ensures After(s, q, s.ranks[r].done, if bar == 0 then Arrive0 else Arrive1)
  {
    var c := s.ranks[r].done;
    if !After(s, q, c, if bar == 0 then Arrive0 else Arrive1) {
      UnseenFlag(sys, s, bar, r, q);
      if bar == 0 {
        OldFlag0(sys, c);
        NextGeneration(c);
      }
    }
  }

  lemma NextGeneration(c: nat)
    ensures c > 0 ==> (c - 1) % GENERATIONS != (c + 1) % GENERATIONS
    ensures c == 0 ==> 0 != (c + 1) % GENERATIONS
  {
  }

  // --- Every step keeps the invariant: a unit or a peer of a phase --------------------------------

  ghost predicate Works<X(!new), W(!new)>(sys: System<X, W>, s: State<X>, r: nat, i: nat, t: State<X>) {
    Enabled(sys, s, Work(r, i)) && t == Do(sys, s, Work(r, i))
  }

  lemma WorkDid<X(!new), W(!new)>(sys: System<X, W>, s: State<X>, r: nat, i: nat, t: State<X>, q: nat, c: nat, ph: Phase, j: nat)
    requires Works(sys, s, r, i, t)
    ensures Did(t, q, c, ph, j) <==> Did(s, q, c, ph, j) || (q == r && c == s.ranks[r].done && ph == s.ranks[r].phase && j == i)
    ensures After(t, q, c, ph) == After(s, q, c, ph)
    ensures |t.ranks| == |s.ranks| && (q < |s.ranks| ==> t.ranks[q].done == s.ranks[q].done)
  {
    WorkRank(sys, s, r, i, t);
  }

  lemma WorkRank<X(!new), W(!new)>(sys: System<X, W>, s: State<X>, r: nat, i: nat, t: State<X>)
    requires Works(sys, s, r, i, t)
    ensures r < |s.ranks| && t.ranks == s.ranks[r := t.ranks[r]]
    ensures t.ranks[r].done == s.ranks[r].done && t.ranks[r].phase == s.ranks[r].phase && t.ranks[r].did == s.ranks[r].did + {i}
  {
  }

  lemma WorkFlags<X(!new), W(!new)>(sys: System<X, W>, s: State<X>, r: nat, i: nat, t: State<X>)
    requires Works(sys, s, r, i, t) && FlagsOk(sys, s)
    ensures FlagsOk(sys, t)
  {
    forall bar: nat, p: nat, q: nat | bar < 2 && p < 2 && q < sys.world
      ensures FlagOk(sys, t, bar, p, q)
    {
      assert FlagOk(sys, s, bar, p, q);
      assert Announced(t, q, bar) == Announced(s, q, bar);
      assert t.flags == s.flags;
    }
  }

  lemma WorkWaits<X(!new), W(!new)>(sys: System<X, W>, s: State<X>, r: nat, i: nat, t: State<X>)
    requires Works(sys, s, r, i, t) && RanksOk(sys, s) && FlagsOk(sys, s) && WaitsOk(sys, s)
    requires s.ranks[r].phase == Wait1 ==> Fresh(sys, s.ranks[r].done)
    ensures WaitsOk(sys, t)
  {
    forall c: nat, o: nat, q: nat | c < |sys.calls| && o < sys.world && q < sys.world && o != q
      ensures WaitOk(sys, t, c, o, q)
    {
      assert WaitOk(sys, s, c, o, q);
      WorkDid(sys, s, r, i, t, o, c, Wait0, q);
      WorkDid(sys, s, r, i, t, o, c, Wait1, q);
      WorkDid(sys, s, r, i, t, q, c, Arrive0, 0);
      WorkDid(sys, s, r, i, t, q, c, Arrive1, 0);
      if o == r && c == s.ranks[r].done && q == i && (s.ranks[r].phase == Wait0 || s.ranks[r].phase == Wait1) {
        ServedWait(sys, s, Barrier(s.ranks[r].phase), r, q);
      }
    }
  }

  // Slots of different ranks, parities and kinds are different.
  lemma SlotsApart(world: nat, a: Algo, b: Algo, c: nat, d: nat, r: nat, q: nat)
    requires r < world && q < world
    ensures PubSlot(world, a, c, r) == PubSlot(world, b, d, q)
            <==> r == q && (if a == Dma then b == Dma else b != Dma && Parity(c) == Parity(d))
    ensures PubSlot(world, a, c, r) != GatherSlot(world, Parity(d))
    ensures PubSlot(world, a, c, r) < 3 * world + 2 && GatherSlot(world, Parity(d)) < 3 * world + 2
    ensures GatherSlot(world, Parity(c)) == GatherSlot(world, Parity(d)) <==> Parity(c) == Parity(d)
  {
  }

  lemma WorkPubs<X(!new), W(!new)>(sys: System<X, W>, s: State<X>, r: nat, i: nat, t: State<X>)
    requires Works(sys, s, r, i, t) && PubsOk(sys, s)
    ensures PubsOk(sys, t)
  {
    forall c: nat, q: nat, j: nat | c < |sys.calls| && q < sys.world
      ensures PubOk(sys, t, c, q, j)
    {
      WorkPub(sys, s, r, i, t, c, q, j);
    }
  }

  lemma WorkPub<X(!new), W(!new)>(sys: System<X, W>, s: State<X>, r: nat, i: nat, t: State<X>, c: nat, q: nat, j: nat)
    requires Works(sys, s, r, i, t) && PubsOk(sys, s) && c < |sys.calls| && q < sys.world
    ensures |t.ranks| == sys.world && PubOk(sys, t, c, q, j)
  {
    assert PubOk(sys, s, c, q, j);
    WorkDid(sys, s, r, i, t, q, c, Publish, j);
    var n := s.ranks[r].done;
    SlotsApart(sys.world, sys.calls[c].algo, sys.calls[n].algo, c, n, q, r);
  }

  // What a reduce reads is what the peers published for this call.
  lemma ReadsPublished<X(!new), W(!new)>(sys: System<X, W>, s: State<X>, r: nat, i: nat, q: nat)
    requires RanksOk(sys, s) && WaitsOk(sys, s) && PubsOk(sys, s) && Active(sys, s, r) && q < sys.world && q != r
    requires s.ranks[r].phase == Reduce && InPhase(sys.world, sys.calls[s.ranks[r].done], r, Reduce, i)
    requires CutsOk(sys.calls[s.ranks[r].done], sys.world)
    ensures var c := s.ranks[r].done;
      var at := (PubSlot(sys.world, sys.calls[c].algo, c, q), i);
      at in s.mem && s.mem[at] == sys.calls[c].inp(q, i)
  {
    var c := s.ranks[r].done;
    var call := sys.calls[c];
    PastWait0(sys, s, c, r, q);
    Close(sys, s, q, r);
    assert PubOk(sys, s, c, q, i);
    if call.algo != OneShot && Owns(call, q, i) {
      OneOwner(call, sys.world, i, r, q);
    }
    if call.algo == Dma && s.ranks[q].done > c {
      PastWait1(sys, s, c, q, r);
    }
  }

  lemma AccSame<X(!new), W(!new)>(sums: Sums<X, W>, x: nat -> X, y: nat -> X, n: nat)
    requires forall q: nat | q < n :: x(q) == y(q)
    ensures Acc(sums, x, n) == Acc(sums, y, n)
  {
  }

  lemma ReducesResult<X(!new), W(!new)>(sys: System<X, W>, s: State<X>, r: nat, i: nat)
    requires RanksOk(sys, s) && WaitsOk(sys, s) && PubsOk(sys, s) && Active(sys, s, r)
    requires s.ranks[r].phase == Reduce && InPhase(sys.world, sys.calls[s.ranks[r].done], r, Reduce, i)
    requires CutsOk(sys.calls[s.ranks[r].done], sys.world)
    ensures Published(sys, s, s.ranks[r].done, r, i)
    ensures sys.sums.down(Acc(sys.sums, Partial(sys, s, s.ranks[r].done, r, i), sys.world)) == Result(sys, s.ranks[r].done, i)
  {
    var c := s.ranks[r].done;
    var x := Partial(sys, s, c, r, i);
    var y := (q: nat) => sys.calls[c].inp(q, i);
    forall q: nat | q < sys.world
      ensures x(q) == y(q)
      ensures q != r ==> (PubSlot(sys.world, sys.calls[c].algo, c, q), i) in s.mem
    {
      if q != r {
        ReadsPublished(sys, s, r, i, q);
      }
    }
    AccSame(sys.sums, x, y, sys.world);
  }

  // What a gather reads is the owner's result.
  lemma GathersResult<X(!new), W(!new)>(sys: System<X, W>, s: State<X>, r: nat, i: nat)
    requires RanksOk(sys, s) && WaitsOk(sys, s) && GathersOk(sys, s) && Active(sys, s, r)
    requires s.ranks[r].phase == Gather && InPhase(sys.world, sys.calls[s.ranks[r].done], r, Gather, i)
    requires CutsOk(sys.calls[s.ranks[r].done], sys.world)
    ensures var at := (GatherSlot(sys.world, Parity(s.ranks[r].done)), i);
      at in s.mem && s.mem[at] == Result(sys, s.ranks[r].done, i)
  {
    var c := s.ranks[r].done;
    var call := sys.calls[c];
    assert RankOk(sys, s.ranks[r], r);
    var q := OwnerOf(call, sys.world, i, sys.world);
    PastWait1(sys, s, c, r, q);
    assert GatherOk(sys, s, c, q, i);
    forall o: nat | o < |s.ranks|
      ensures s.ranks[o].done <= c + 1
    {
      Close(sys, s, o, r);
    }
  }

  lemma WorkGathers<X(!new), W(!new)>(sys: System<X, W>, s: State<X>, r: nat, i: nat, t: State<X>)
    requires Works(sys, s, r, i, t) && RanksOk(sys, s) && WaitsOk(sys, s) && PubsOk(sys, s) && GathersOk(sys, s)
    requires CutsOk(sys.calls[s.ranks[r].done], sys.world)
    ensures GathersOk(sys, t)
  {
    forall c: nat, q: nat, j: nat | c < |sys.calls| && q < sys.world
      ensures GatherOk(sys, t, c, q, j)
    {
      WorkGather(sys, s, r, i, t, c, q, j);
    }
  }

  lemma WorkDone<X(!new), W(!new)>(sys: System<X, W>, s: State<X>, r: nat, i: nat, t: State<X>)
    requires Works(sys, s, r, i, t)
    ensures |t.ranks| == |s.ranks| && forall o: nat | o < |s.ranks| :: t.ranks[o].done == s.ranks[o].done
  {
  }

  // A gathered unit some rank may still read keeps its cell, unless it is written now.
  lemma GatherCellKept<X(!new), W(!new)>(sys: System<X, W>, s: State<X>, r: nat, i: nat, t: State<X>, c: nat, q: nat, j: nat)
    requires Works(sys, s, r, i, t) && c < |sys.calls|
    requires s.ranks[r].done <= c + 1 && c <= s.ranks[r].done + 1
    ensures var at := (GatherSlot(sys.world, Parity(c)), j);
      (at in s.mem ==> at in t.mem && t.mem[at] == s.mem[at])
      || (s.ranks[r].phase == Reduce && c == s.ranks[r].done && j == i)
  {
    var n := s.ranks[r].done;
    SlotsApart(sys.world, sys.calls[n].algo, sys.calls[n].algo, n, c, r, r);
  }

  lemma WorkGather<X(!new), W(!new)>(sys: System<X, W>, s: State<X>, r: nat, i: nat, t: State<X>, c: nat, q: nat, j: nat)
    requires Works(sys, s, r, i, t) && RanksOk(sys, s) && WaitsOk(sys, s) && PubsOk(sys, s) && GathersOk(sys, s)
    requires CutsOk(sys.calls[s.ranks[r].done], sys.world) && c < |sys.calls| && q < sys.world
    ensures GatherOk(sys, t, c, q, j)
  {
    WorkDid(sys, s, r, i, t, q, c, Reduce, j);
    WorkDone(sys, s, r, i, t);
    var n := s.ranks[r].done;
    if sys.calls[c].algo != OneShot && InPhase(sys.world, sys.calls[c], q, Reduce, j) && Did(t, q, c, Reduce, j)
      && forall o: nat | o < |t.ranks| :: t.ranks[o].done <= c + 1 {
      Close(sys, s, q, r);
      if s.ranks[r].phase == Reduce && c == n && j == i {
        ReducesResult(sys, s, r, i);
      } else {
        assert GatherOk(sys, s, c, q, j);
        GatherCellKept(sys, s, r, i, t, c, q, j);
      }
    }
  }

  lemma WorkRanks<X(!new), W(!new)>(sys: System<X, W>, s: State<X>, r: nat, i: nat, t: State<X>)
    requires Works(sys, s, r, i, t) && RanksOk(sys, s) && WaitsOk(sys, s) && PubsOk(sys, s) && GathersOk(sys, s)
    requires CutsOk(sys.calls[s.ranks[r].done], sys.world)
    ensures RanksOk(sys, t)
  {
    assert RankOk(sys, s.ranks[r], r);
    if s.ranks[r].phase == Reduce {
      ReducesResult(sys, s, r, i);
    } else if s.ranks[r].phase == Gather {
      GathersResult(sys, s, r, i);
    }
    assert RankOk(sys, t.ranks[r], r);
    forall q: nat | q < sys.world
      ensures RankOk(sys, t.ranks[q], q)
    {
      assert RankOk(sys, s.ranks[q], q);
    }
  }

  // --- Every step keeps the invariant: the end of a phase ----------------------------------------

  ghost predicate Moves<X(!new), W(!new)>(sys: System<X, W>, s: State<X>, r: nat, t: State<X>) {
    Enabled(sys, s, Next(r)) && t == Do(sys, s, Next(r)) && RankOk(sys, s.ranks[r], r)
  }

  // Ending a phase does no further item of one that goes over items.
  lemma MoveDid<X(!new), W(!new)>(sys: System<X, W>, s: State<X>, r: nat, t: State<X>, q: nat, c: nat, ph: Phase, j: nat)
    requires Moves(sys, s, r, t) && c < |sys.calls| && InPhase(sys.world, sys.calls[c], q, ph, j)
    requires ph == Publish || ph == Wait0 || ph == Reduce || sys.calls[c].algo != OneShot
    ensures Did(t, q, c, ph, j) <==> Did(s, q, c, ph, j)
  {
    MoveTo(sys, s, r, t);
  }

  lemma MoveTo<X(!new), W(!new)>(sys: System<X, W>, s: State<X>, r: nat, t: State<X>)
    requires Moves(sys, s, r, t)
    ensures r < |s.ranks| && t.ranks == s.ranks[r := t.ranks[r]] && t.ranks[r].did == {}
    ensures if s.ranks[r].phase == End then t.ranks[r].done == s.ranks[r].done + 1 && t.ranks[r].phase == Publish
            else t.ranks[r].done == s.ranks[r].done && t.ranks[r].phase == NextPhase(sys.calls[s.ranks[r].done].algo, s.ranks[r].phase)
  {
  }

  lemma MoveAfter<X(!new), W(!new)>(sys: System<X, W>, s: State<X>, r: nat, t: State<X>, q: nat, c: nat, ph: Phase)
    requires Moves(sys, s, r, t)
    ensures After(s, q, c, ph) ==> After(t, q, c, ph)
    ensures |t.ranks| == |s.ranks| && (q < |s.ranks| ==> t.ranks[q].done >= s.ranks[q].done)
  {
  }

  lemma MoveAnnounced<X(!new), W(!new)>(sys: System<X, W>, s: State<X>, r: nat, t: State<X>, bar: nat)
    requires Moves(sys, s, r, t) && bar < 2
    ensures Announced(t, r, bar)
            == if s.ranks[r].phase == (if bar == 0 then Arrive0 else Arrive1) || (bar == 1 && s.ranks[r].phase == Reduce && sys.calls[s.ranks[r].done].algo == OneShot)
               then s.ranks[r].done + 1 else Announced(s, r, bar)
  {
  }

  lemma MoveFlags<X(!new), W(!new)>(sys: System<X, W>, s: State<X>, r: nat, t: State<X>)
    requires Moves(sys, s, r, t) && FlagsOk(sys, s)
    ensures FlagsOk(sys, t)
  {
    forall bar: nat, p: nat, q: nat | bar < 2 && p < 2 && q < sys.world
      ensures FlagOk(sys, t, bar, p, q)
    {
      assert FlagOk(sys, s, bar, p, q);
      if q == r {
        MoveFlag(sys, s, r, t, bar, p);
      } else {
        assert Announced(t, q, bar) == Announced(s, q, bar);
      }
    }
  }

  lemma MoveFlag<X(!new), W(!new)>(sys: System<X, W>, s: State<X>, r: nat, t: State<X>, bar: nat, p: nat)
    requires Moves(sys, s, r, t) && bar < 2 && p < 2 && FlagOk(sys, s, bar, p, r)
    ensures r < |t.ranks| && FlagOk(sys, t, bar, p, r)
  {
    var c := s.ranks[r].done;
    MoveAnnounced(sys, s, r, t, bar);
    if s.ranks[r].phase == (if bar == 0 then Arrive0 else Arrive1) {
      assert Announced(s, r, bar) == c;
      assert Uses(sys.calls[c], bar);
      if p != Parity(c) {
        LastSkips(sys, bar, c + 1, p);
      }
    } else if bar == 1 && s.ranks[r].phase == Reduce && sys.calls[c].algo == OneShot {
      assert Announced(s, r, bar) == c;
      LastSkips(sys, bar, c + 1, p);
    }
  }

  lemma MoveWaits<X(!new), W(!new)>(sys: System<X, W>, s: State<X>, r: nat, t: State<X>)
    requires Moves(sys, s, r, t) && WaitsOk(sys, s)
    ensures WaitsOk(sys, t)
  {
    forall c: nat, o: nat, q: nat | c < |sys.calls| && o < sys.world && q < sys.world && o != q
      ensures WaitOk(sys, t, c, o, q)
    {
      assert WaitOk(sys, s, c, o, q);
      MoveDid(sys, s, r, t, o, c, Wait0, q);
      MoveAfter(sys, s, r, t, q, c, Arrive0);
      if Uses(sys.calls[c], 1) {
        MoveDid(sys, s, r, t, o, c, Wait1, q);
        MoveAfter(sys, s, r, t, q, c, Arrive1);
      }
    }
  }

  lemma MoveMem<X(!new), W(!new)>(sys: System<X, W>, s: State<X>, r: nat, t: State<X>)
    requires Moves(sys, s, r, t) && PubsOk(sys, s) && GathersOk(sys, s)
    ensures PubsOk(sys, t) && GathersOk(sys, t)
  {
    assert t.mem == s.mem;
    forall c: nat, q: nat, j: nat | c < |sys.calls| && q < sys.world
      ensures |t.ranks| == sys.world && PubOk(sys, t, c, q, j) && GatherOk(sys, t, c, q, j)
    {
      assert PubOk(sys, s, c, q, j) && GatherOk(sys, s, c, q, j);
      MoveAfter(sys, s, r, t, q, c, Publish);
      if InPhase(sys.world, sys.calls[c], q, Publish, j) {
        MoveDid(sys, s, r, t, q, c, Publish, j);
      }
      if InPhase(sys.world, sys.calls[c], q, Reduce, j) {
        MoveDid(sys, s, r, t, q, c, Reduce, j);
      }
      forall o: nat | o < |s.ranks|
        ensures t.ranks[o].done >= s.ranks[o].done
      {
        MoveAfter(sys, s, r, t, o, c, Publish);
      }
    }
  }

  // A finished call's output is the whole result.
  lemma OutComplete<X(!new), W(!new)>(sys: System<X, W>, rank: Rank<X>, r: nat)
    requires 0 < sys.world && r < sys.world && rank.done < |sys.calls| && OutOk(sys, rank, r) && rank.phase == End
    ensures LogOk(sys, rank.done, rank.out)
  {
    var call := sys.calls[rank.done];
    forall i: nat | i < call.units
      ensures i in rank.out
    {
      if call.algo == OneShot || Owns(call, r, i) {
        assert InPhase(sys.world, call, r, Reduce, i);
      } else {
        assert InPhase(sys.world, call, r, Gather, i);
      }
    }
  }

  lemma MoveRank<X(!new), W(!new)>(sys: System<X, W>, s: State<X>, r: nat, t: State<X>)
    requires Moves(sys, s, r, t) && 1 < sys.world == |s.ranks|
    ensures r < |t.ranks| && RankOk(sys, t.ranks[r], r)
  {
    var rank := s.ranks[r];
    if rank.phase == End {
      OutComplete(sys, rank, r);
    } else {
      var call := sys.calls[rank.done];
      var next := t.ranks[r];
      forall ph: Phase, i: nat | (ph == Reduce || ph == Gather) && InPhase(sys.world, call, r, ph, i)
        && (ph == Gather ==> call.algo != OneShot)
        && (Order(next.phase) > Order(ph) || (next.phase == ph && i in next.did))
        ensures i in next.out
      {
        assert Order(rank.phase) > Order(ph) || (rank.phase == ph && i in rank.did);
      }
    }
  }

  lemma MoveRanks<X(!new), W(!new)>(sys: System<X, W>, s: State<X>, r: nat, t: State<X>)
    requires Moves(sys, s, r, t) && RanksOk(sys, s)
    ensures RanksOk(sys, t)
  {
    MoveRank(sys, s, r, t);
    forall q: nat | q < sys.world
      ensures RankOk(sys, t.ranks[q], q)
    {
      assert RankOk(sys, s.ranks[q], q);
    }
  }

  // A step keeps the invariant; one past a wait at a call's second barrier, if that is fresh.
  lemma StepInv<X(!new), W(!new)>(sys: System<X, W>, s: State<X>, a: Action)
    requires Inv(sys, s) && Enabled(sys, s, a)
    requires CutsOk(sys.calls[s.ranks[a.r].done], sys.world)
    requires a.Work? && s.ranks[a.r].phase == Wait1 ==> Fresh(sys, s.ranks[a.r].done)
    ensures Inv(sys, Do(sys, s, a))
  {
    var t := Do(sys, s, a);
    match a
    case Work(r, i) =>
      WorkRanks(sys, s, r, i, t);
      WorkFlags(sys, s, r, i, t);
      WorkWaits(sys, s, r, i, t);
      WorkPubs(sys, s, r, i, t);
      WorkGathers(sys, s, r, i, t);
    case Next(r) =>
      assert RankOk(sys, s.ranks[r], r);
      MoveRanks(sys, s, r, t);
      MoveFlags(sys, s, r, t);
      MoveWaits(sys, s, r, t);
      MoveMem(sys, s, r, t);
  }

  // --- Every run -------------------------------------------------------------------------------

  ghost predicate Runs<X(!new), W(!new)>(sys: System<X, W>, s: State<X>, run: seq<Action>, t: State<X>)
    decreases |run|
  {
    if run == [] then t == s else Enabled(sys, s, run[0]) && Runs(sys, Do(sys, s, run[0]), run[1..], t)
  }

  lemma {:induction false} RunInv<X(!new), W(!new)>(sys: System<X, W>, s: State<X>, run: seq<Action>, t: State<X>)
    requires Ok(sys) && Inv(sys, s) && Runs(sys, s, run, t)
    ensures Inv(sys, t)
    decreases |run|
  {
    if run != [] {
      StepInv(sys, s, run[0]);
      RunInv(sys, Do(sys, s, run[0]), run[1..], t);
    }
  }

  // A store about to be made to a shared slot hits no unit some peer may still read
  // there: whoever waits to read it is in this very call, before its reads.
  ghost predicate StoreSafe<X(!new), W(!new)>(sys: System<X, W>, s: State<X>, r: nat, i: nat, q: nat, slot: nat) {
    Active(sys, s, q) && q != r ==>
      var c := s.ranks[q].done;
      && (s.ranks[q].phase == Reduce && InPhase(sys.world, sys.calls[c], q, Reduce, i) && i !in s.ranks[q].did
          ==> slot != PubSlot(sys.world, sys.calls[c].algo, c, r))
      && (s.ranks[q].phase == Gather && InPhase(sys.world, sys.calls[c], q, Gather, i) && i !in s.ranks[q].did
          ==> slot != GatherSlot(sys.world, Parity(c)))
  }

  lemma PublishSafe<X(!new), W(!new)>(sys: System<X, W>, s: State<X>, r: nat, i: nat, q: nat)
    requires Inv(sys, s) && Active(sys, s, r) && s.ranks[r].phase == Publish && q < sys.world
    ensures StoreSafe(sys, s, r, i, q, PubSlot(sys.world, sys.calls[s.ranks[r].done].algo, s.ranks[r].done, r))
  {
    if Active(sys, s, q) && q != r {
      var c, n := s.ranks[q].done, s.ranks[r].done;
      SlotsApart(sys.world, sys.calls[n].algo, sys.calls[c].algo, n, c, r, r);
      Close(sys, s, r, q);
      if After(s, q, c, Wait0) {
        PastWait0(sys, s, c, q, r);
      }
      if n == c + 1 && Uses(sys.calls[c], 1) {
        PastWait1(sys, s, c, r, q);
      }
    }
  }

  lemma GatherStoreSafe<X(!new), W(!new)>(sys: System<X, W>, s: State<X>, r: nat, i: nat, q: nat)
    requires Inv(sys, s) && Active(sys, s, r) && s.ranks[r].phase == Reduce && sys.calls[s.ranks[r].done].algo != OneShot
    requires q < sys.world
    ensures StoreSafe(sys, s, r, i, q, GatherSlot(sys.world, Parity(s.ranks[r].done)))
  {
    if Active(sys, s, q) && q != r {
      var c, n := s.ranks[q].done, s.ranks[r].done;
      SlotsApart(sys.world, sys.calls[c].algo, sys.calls[c].algo, c, n, r, r);
      SlotsApart(sys.world, sys.calls[c].algo, sys.calls[c].algo, n, c, r, r);
      Close(sys, s, r, q);
      Close(sys, s, q, r);
      assert RankOk(sys, s.ranks[q], q);
      if s.ranks[q].phase == Gather && c == n {
        PastWait1(sys, s, c, q, r);
      }
    }
  }

  // Any sequence of the three algorithms: a rank that has finished a call has the
  // rank-order sum, and no store ever hits a unit still to be read.
  lemma EveryRunSafe<X(!new), W(!new)>(sys: System<X, W>, run: seq<Action>, t: State<X>, r: nat)
    requires Ok(sys) && Runs(sys, Init(sys), run, t) && r < sys.world
    ensures Inv(sys, t)
    ensures forall c: nat | c < t.ranks[r].done :: c < |t.ranks[r].log| && LogOk(sys, c, t.ranks[r].log[c])
    ensures forall c: nat, i: nat | c < t.ranks[r].done && i < sys.calls[c].units ::
              UnitSum(sys.sums, sys.world, (q: nat) => sys.calls[c].inp(q, i), t.ranks[r].log[c][i])
    ensures forall i: nat, q: nat | Active(sys, t, r) && t.ranks[r].phase == Publish && q < sys.world ::
              StoreSafe(sys, t, r, i, q, PubSlot(sys.world, sys.calls[t.ranks[r].done].algo, t.ranks[r].done, r))
    ensures forall i: nat, q: nat | Active(sys, t, r) && t.ranks[r].phase == Reduce
              && sys.calls[t.ranks[r].done].algo != OneShot && q < sys.world ::
              StoreSafe(sys, t, r, i, q, GatherSlot(sys.world, Parity(t.ranks[r].done)))
  {
    InitInv(sys);
    RunInv(sys, Init(sys), run, t);
    assert RankOk(sys, t.ranks[r], r);
    forall c: nat, i: nat | c < t.ranks[r].done && i < sys.calls[c].units
      ensures UnitSum(sys.sums, sys.world, (q: nat) => sys.calls[c].inp(q, i), t.ranks[r].log[c][i])
    {
      assert LogOk(sys, c, t.ranks[r].log[c]);
      ResultSums(sys, c, i);
    }
    forall i: nat, q: nat | Active(sys, t, r) && t.ranks[r].phase == Publish && q < sys.world
      ensures StoreSafe(sys, t, r, i, q, PubSlot(sys.world, sys.calls[t.ranks[r].done].algo, t.ranks[r].done, r))
    {
      PublishSafe(sys, t, r, i, q);
    }
    forall i: nat, q: nat | Active(sys, t, r) && t.ranks[r].phase == Reduce
      && sys.calls[t.ranks[r].done].algo != OneShot && q < sys.world
      ensures StoreSafe(sys, t, r, i, q, GatherSlot(sys.world, Parity(t.ranks[r].done)))
    {
      GatherStoreSafe(sys, t, r, i, q);
    }
  }

  // --- Generations that come round ---------------------------------------------------------------

  // A rank waiting at the second barrier of call c for a peer that has not arrived sees
  // the peer's flag equal to its generation exactly when c is not fresh.
  lemma StaleWait<X(!new), W(!new)>(sys: System<X, W>, s: State<X>, r: nat, q: nat)
    requires Inv(sys, s) && Active(sys, s, r) && s.ranks[r].phase == Wait1 && q < sys.world && q != r
    requires Uses(sys.calls[s.ranks[r].done], 1) && !After(s, q, s.ranks[r].done, Arrive1)
    ensures Flag(s, 1, Parity(s.ranks[r].done), q) == (s.ranks[r].done + 1) % GENERATIONS <==> !Fresh(sys, s.ranks[r].done)
  {
    UnseenFlag(sys, s, 1, r, q);
  }

  // Every call is fresh while the generation has not come round.
  lemma FreshAtFirst<X(!new), W(!new)>(sys: System<X, W>, c: nat)
    requires c < |sys.calls| && c + 1 < GENERATIONS
    ensures Fresh(sys, c)
  {
  }

  // And later too, if one of the two-shots of its parity ran within the last 2^32 calls.
  lemma FreshIfRecent<X(!new), W(!new)>(sys: System<X, W>, c: nat, d: nat)
    requires c < |sys.calls| && d < c < d + GENERATIONS && Parity(d) == Parity(c) && Uses(sys.calls[d], 1)
    ensures Fresh(sys, c)
  {
    LastAtLeast(sys, c, d);
    var g := Last(sys, 1, c, Parity(c));
    assert d + 1 <= g <= c;
    ApartModulo(g, c + 1);
  }

  lemma ApartModulo(a: nat, b: nat)
    requires a < b < a + GENERATIONS
    ensures a % GENERATIONS != b % GENERATIONS
  {
  }

  lemma {:induction false} LastAtLeast<X(!new), W(!new)>(sys: System<X, W>, n: nat, d: nat)
    requires d < n <= |sys.calls| && Uses(sys.calls[d], 1)
    ensures Last(sys, 1, n, Parity(d)) >= d + 1
    decreases n
  {
    if n > d + 1 {
      LastAtLeast(sys, n - 1, d);
    }
  }

  // --- Progress -----------------------------------------------------------------------------------

  // Rank r is in no later a call and phase than any other.
  ghost predicate Slowest<X(!new), W(!new)>(sys: System<X, W>, s: State<X>, r: nat) {
    |s.ranks| == sys.world && r < sys.world
    && forall q: nat | q < sys.world ::
         s.ranks[r].done < s.ranks[q].done
         || (s.ranks[r].done == s.ranks[q].done && Order(s.ranks[r].phase) <= Order(s.ranks[q].phase))
  }

  // The slowest rank can do something: its waits are for peers that have arrived, and
  // what it reads has been written.
  lemma SlowestSteps<X(!new), W(!new)>(sys: System<X, W>, s: State<X>, r: nat) returns (a: Action)
    requires Inv(sys, s) && Active(sys, s, r) && Slowest(sys, s, r) && CutsOk(sys.calls[s.ranks[r].done], sys.world)
    ensures Enabled(sys, s, a) && a.r == r
  {
    var rank := s.ranks[r];
    var c := rank.done;
    var call := sys.calls[c];
    assert RankOk(sys, rank, r);
    if i: nat :| InPhase(sys.world, call, r, rank.phase, i) && i !in rank.did {
      if rank.phase == Wait0 || rank.phase == Wait1 {
        SeenFlag(sys, s, Barrier(rank.phase), r, i);
      } else if rank.phase == Reduce {
        ReducesResult(sys, s, r, i);
      } else if rank.phase == Gather {
        GathersResult(sys, s, r, i);
      }
      a := Work(r, i);
    } else {
      a := Next(r);
    }
  }

  lemma {:induction false} SomeSlowest<X(!new)>(s: State<X>, n: nat) returns (r: nat)
    requires 0 < n <= |s.ranks|
    ensures r < n
    ensures forall q: nat | q < n ::
              s.ranks[r].done < s.ranks[q].done
              || (s.ranks[r].done == s.ranks[q].done && Order(s.ranks[r].phase) <= Order(s.ranks[q].phase))
    decreases n
  {
    r := n - 1;
    if n > 1 {
      var o := SomeSlowest(s, n - 1);
      if s.ranks[o].done < s.ranks[r].done
        || (s.ranks[o].done == s.ranks[r].done && Order(s.ranks[o].phase) <= Order(s.ranks[r].phase)) {
        r := o;
      }
    }
  }

  // No reachable state is stuck while some rank has calls left.
  lemma NoDeadlock<X(!new), W(!new)>(sys: System<X, W>, run: seq<Action>, t: State<X>, q: nat) returns (a: Action)
    requires Ok(sys) && Runs(sys, Init(sys), run, t) && Active(sys, t, q)
    ensures Enabled(sys, t, a)
  {
    InitInv(sys);
    RunInv(sys, Init(sys), run, t);
    var r := SomeSlowest(t, sys.world);
    a := SlowestSteps(sys, t, r);
  }

  // --- Runs end -----------------------------------------------------------------------------------

  // A phase of a call goes over fewer items than this; one more step ends it.
  ghost function PhaseSteps<X(!new), W(!new)>(sys: System<X, W>, c: nat): nat
    requires c < |sys.calls|
  {
    sys.calls[c].units + sys.world + 1
  }

  // A bound on the steps of the calls from c on: eight phases each.
  ghost function CallsLeft<X(!new), W(!new)>(sys: System<X, W>, c: nat): nat
    requires c <= |sys.calls|
    decreases |sys.calls| - c
  {
    if c == |sys.calls| then 0 else 8 * PhaseSteps(sys, c) + CallsLeft(sys, c + 1)
  }

  ghost function RankLeft<X(!new), W(!new)>(sys: System<X, W>, rank: Rank<X>): int {
    if rank.done >= |sys.calls| then 0
    else CallsLeft(sys, rank.done) - PhaseSteps(sys, rank.done) * Order(rank.phase) - |rank.did|
  }

  ghost function StepsLeft<X(!new), W(!new)>(sys: System<X, W>, ranks: seq<Rank<X>>, n: nat): int
    requires n <= |ranks|
  {
    if n == 0 then 0 else StepsLeft(sys, ranks, n - 1) + RankLeft(sys, ranks[n - 1])
  }

  lemma {:induction false} SubsetSize(a: set<nat>, n: nat)
    requires forall i | i in a :: i < n
    ensures |a| <= n
    decreases n
  {
    if n == 0 {
      assert a == {};
    } else {
      SubsetSize(a - {n - 1}, n - 1);
    }
  }

  lemma DidBelow<X(!new), W(!new)>(sys: System<X, W>, rank: Rank<X>, r: nat)
    requires 0 < sys.world && RankOk(sys, rank, r) && rank.done < |sys.calls|
    ensures |rank.did| < PhaseSteps(sys, rank.done)
    ensures rank.phase == End ==> rank.did == {}
  {
    SubsetSize(rank.did, sys.calls[rank.done].units + sys.world);
    assert forall i: nat | i in rank.did :: InPhase(sys.world, sys.calls[rank.done], r, rank.phase, i);
  }

  // Whole phases count more than what was done of one.
  lemma PhaseOn(b: nat, before: nat, after: nat, did: nat)
    requires before < after && did < b
    ensures b * after > b * before + did
  {
    MulMono(before + 1, after, b);
  }

  lemma WorkLess<X(!new), W(!new)>(sys: System<X, W>, s: State<X>, r: nat, i: nat)
    requires Enabled(sys, s, Work(r, i))
    ensures r < |s.ranks| && OneRank(s, Do(sys, s, Work(r, i)), r)
    ensures RankLeft(sys, Do(sys, s, Work(r, i)).ranks[r]) < RankLeft(sys, s.ranks[r])
  {
    WorkRank(sys, s, r, i, Do(sys, s, Work(r, i)));
  }

  ghost predicate OneRank<X(!new)>(s: State<X>, t: State<X>, r: nat) {
    |t.ranks| == |s.ranks| && forall q: nat | q < |s.ranks| && q != r :: t.ranks[q] == s.ranks[q]
  }

  lemma NextLess<X(!new), W(!new)>(sys: System<X, W>, s: State<X>, r: nat)
    requires Enabled(sys, s, Next(r)) && RanksOk(sys, s)
    ensures r < |s.ranks| && OneRank(s, Do(sys, s, Next(r)), r)
    ensures RankLeft(sys, Do(sys, s, Next(r)).ranks[r]) < RankLeft(sys, s.ranks[r])
  {
    var was, now := s.ranks[r], Do(sys, s, Next(r)).ranks[r];
    assert RankOk(sys, was, r);
    DidBelow(sys, was, r);
    if was.phase != End {
      PhaseOn(PhaseSteps(sys, was.done), Order(was.phase), Order(now.phase), |was.did|);
    }
  }

  lemma {:induction false} OneLess<X(!new), W(!new)>(sys: System<X, W>, a: seq<Rank<X>>, b: seq<Rank<X>>, r: nat, n: nat)
    requires n <= |a| == |b| && r < |a| && forall q: nat | q < |a| && q != r :: b[q] == a[q]
    requires RankLeft(sys, b[r]) < RankLeft(sys, a[r])
    ensures StepsLeft(sys, b, n) <= StepsLeft(sys, a, n) - if r < n then 1 else 0
  {
    if n > 0 {
      OneLess(sys, a, b, r, n - 1);
    }
  }

  lemma StepLess<X(!new), W(!new)>(sys: System<X, W>, s: State<X>, a: Action)
    requires RanksOk(sys, s) && Enabled(sys, s, a)
    ensures |Do(sys, s, a).ranks| == sys.world
    ensures StepsLeft(sys, Do(sys, s, a).ranks, sys.world) < StepsLeft(sys, s.ranks, sys.world)
  {
    match a {
      case Work(r, i) =>
        WorkLess(sys, s, r, i);
      case Next(r) =>
        NextLess(sys, s, r);
    }
    OneLess(sys, s.ranks, Do(sys, s, a).ranks, a.r, sys.world);
  }

  lemma {:induction false} LeftNonNegative<X(!new), W(!new)>(sys: System<X, W>, s: State<X>, n: nat)
    requires RanksOk(sys, s) && n <= sys.world
    ensures 0 <= StepsLeft(sys, s.ranks, n)
  {
    if n > 0 {
      var rank := s.ranks[n - 1];
      assert RankOk(sys, rank, n - 1);
      if rank.done < |sys.calls| {
        DidBelow(sys, rank, n - 1);
        MulMono(Order(rank.phase), 7, PhaseSteps(sys, rank.done));
      }
      LeftNonNegative(sys, s, n - 1);
    }
  }

  lemma {:induction false} RunShortens<X(!new), W(!new)>(sys: System<X, W>, s: State<X>, run: seq<Action>, t: State<X>)
    requires Ok(sys) && Inv(sys, s) && Runs(sys, s, run, t)
    ensures |t.ranks| == sys.world && |run| <= StepsLeft(sys, s.ranks, sys.world) - StepsLeft(sys, t.ranks, sys.world)
    decreases |run|
  {
    if run != [] {
      StepInv(sys, s, run[0]);
      StepLess(sys, s, run[0]);
      RunShortens(sys, Do(sys, s, run[0]), run[1..], t);
    }
  }

  // Whatever the order of the steps, a run ends within a bound, and where it cannot go on
  // every rank has finished every call.
  lemma RunsOut<X(!new), W(!new)>(sys: System<X, W>, run: seq<Action>, t: State<X>)
    requires Ok(sys) && Runs(sys, Init(sys), run, t)
    ensures |run| <= StepsLeft(sys, Init(sys).ranks, sys.world) && |t.ranks| == sys.world
    ensures (forall a: Action :: !Enabled(sys, t, a)) <==> (forall r: nat | r < sys.world :: t.ranks[r].done == |sys.calls|)
  {
    InitInv(sys);
    RunInv(sys, Init(sys), run, t);
    RunShortens(sys, Init(sys), run, t);
    LeftNonNegative(sys, t, sys.world);
    if q: nat :| q < sys.world && t.ranks[q].done != |sys.calls| {
      assert RankOk(sys, t.ranks[q], q);
      var a := NoDeadlock(sys, run, t, q);
    }
  }
}
