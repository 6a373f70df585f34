// Which algorithm host_all_reduce takes for a message. It depends on the message's size
// alone, and the sum does not depend on it.
module HostShmChoice {
  import opened HostShm
  import opened HostShmStale

  const UNIT_BYTES := 16

  datatype Thresholds = Thresholds(dmaMin: nat, twoShotMin: nat)

  // A message of `units` 16-byte units; inp is what each rank puts in.
  datatype Message<!X> = Message(units: nat, inp: (nat, nat) -> X)

  function Choose(t: Thresholds, nbytes: nat, blocks: nat): Algo {
    if nbytes >= t.dmaMin && blocks == 1 then Dma
    else if nbytes >= t.twoShotMin then TwoShot
    else OneShot
  }

  function CallFor<X>(t: Thresholds, blocks: nat, world: nat, m: Message<X>): Call<X>
    requires 0 < world
  {
    Call(Choose(t, m.units * UNIT_BYTES, blocks), m.units, Cuts(m.units, world), m.inp)
  }

  function SystemFor<X, W>(t: Thresholds, blocks: nat, world: nat, sums: Sums<X, W>, ms: seq<Message<X>>): System<X, W>
    requires 0 < world
  {
    System(world, sums, seq(|ms|, c requires 0 <= c < |ms| => CallFor(t, blocks, world, ms[c])))
  }

  lemma SystemLegal<X(!new), W(!new)>(t: Thresholds, blocks: nat, world: nat, sums: Sums<X, W>, ms: seq<Message<X>>)
    requires 1 < world
    ensures Legal(SystemFor(t, blocks, world, sums, ms))
  {
    forall c: nat | c < |ms|
      ensures CutsOk(CallFor(t, blocks, world, ms[c]), world)
    {
      CutsAreOk(ms[c].units, world);
    }
  }

  // The bytes of any message: all thresholds, and so all three algorithms, give the same
  // bits on every rank.
  lemma SameBits<X(!new), W(!new)>(t: Thresholds, u: Thresholds, blocks: nat, world: nat, sums: Sums<X, W>, ms: seq<Message<X>>,
                                   a: seq<Action>, s: State<X>, b: seq<Action>, v: State<X>, r: nat, q: nat, c: nat, i: nat)
    requires 1 < world && r < world && q < world
    requires var sys := SystemFor(t, blocks, world, sums, ms); AllFresh(sys) && Runs(sys, Init(sys), a, s)
    requires var sys := SystemFor(u, blocks, world, sums, ms); AllFresh(sys) && Runs(sys, Init(sys), b, v)
    requires r < |s.ranks| && q < |v.ranks| && c < s.ranks[r].done && c < v.ranks[q].done && c < |ms| && i < ms[c].units
    ensures c < |s.ranks[r].log| && c < |v.ranks[q].log| && i in s.ranks[r].log[c] && i in v.ranks[q].log[c]
    ensures s.ranks[r].log[c][i] == v.ranks[q].log[c][i]
  {
    var x, y := SystemFor(t, blocks, world, sums, ms), SystemFor(u, blocks, world, sums, ms);
    SystemLegal(t, blocks, world, sums, ms);
    SystemLegal(u, blocks, world, sums, ms);
    Delivers(x, a, s, r, c, i);
    Delivers(y, b, v, q, c, i);
    AccSame(sums, (o: nat) => x.calls[c].inp(o, i), (o: nat) => y.calls[c].inp(o, i), world);
  }

  lemma Delivers<X(!new), W(!new)>(sys: System<X, W>, run: seq<Action>, t: State<X>, r: nat, c: nat, i: nat)
    requires Legal(sys) && AllFresh(sys) && Runs(sys, Init(sys), run, t) && r < sys.world && r < |t.ranks|
    requires c < t.ranks[r].done && c < |sys.calls| && i < sys.calls[c].units
    ensures c < |t.ranks[r].log| && i in t.ranks[r].log[c] && t.ranks[r].log[c][i] == Result(sys, c, i)
  {
    EveryRunSafe(sys, run, t, r);
  }
}
