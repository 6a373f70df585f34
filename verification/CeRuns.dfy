// Ring and owner-sum calls in any order on one set of slots and flags, the host
// emulations, the flag block's layout, and splitting a message.
module CeRuns {
  import opened Arith
  import opened EpochStreams
  import opened EpochWords
  import opened CeRing
  import opened CeOwner
  import opened Terms

  datatype Job<!V> = Job(ring: bool, inp: (nat, nat) -> V)

  ghost function JobPlan<V(!new), W(!new)>(sums: Sums<V, W>, world: nat, job: Job<V>): Plan<V>
    requires 1 < world
  {
    if job.ring then RingPlan(sums, world, job.inp) else OwnerPlan(sums, world, job.inp)
  }

  ghost function JobSystem<V(!new), W(!new)>(sums: Sums<V, W>, world: nat, jobs: seq<Job<V>>): System<V>
    requires 1 < world
  {
    RingSystem(world, seq(|jobs|, c requires 0 <= c < |jobs| => JobPlan(sums, world, jobs[c])))
  }

  // Shard c of a call's result on every rank.
  ghost function JobSum<V(!new), W(!new)>(sums: Sums<V, W>, world: nat, job: Job<V>, c: nat): V
    requires 1 < world && c < world
  {
    if job.ring then RingSum(sums, world, job.inp, c) else OwnerSum(sums, world, job.inp, c)
  }

  // What that sum adds, and in which order.
  ghost predicate JobShard<V(!new), W(!new)>(sums: Sums<V, W>, world: nat, job: Job<V>, c: nat, y: V)
    requires 1 < world && c < world
  {
    if job.ring then RingShard(sums, world, job.inp, c, y) else ShardSum(sums, world, job.inp, c, y)
  }

  lemma JobSystemOk<V(!new), W(!new)>(sums: Sums<V, W>, world: nat, jobs: seq<Job<V>>)
    requires 1 < world
    ensures JobSystem(sums, world, jobs).Ok()
  {
    var sys := JobSystem(sums, world, jobs);
    forall c | 0 <= c < |sys.calls|
      ensures sys.PlanOk(sys.calls[c])
    {
      if jobs[c].ring {
        RingPlanOk(sums, world, jobs[c].inp, sys.calls);
      } else {
        OwnerPlanOk(sums, world, jobs[c].inp, sys.calls);
      }
    }
  }

  // Both kinds of call open by setting flags, then wait for one that another rank sets.
  lemma JobOpens<V(!new), W(!new)>(sums: Sums<V, W>, world: nat, job: Job<V>, r: nat)
    requires 1 < world && r < world
    ensures OpensCall(JobPlan(sums, world, job), r)
  {
    var p := JobPlan(sums, world, job);
    if job.ring {
      assert Opens(p, r, 1);
    } else {
      OwnerOpens(sums, world, job.inp, r);
      assert Opens(p, r, world - 1);
    }
  }

  lemma OwnerOpens<V(!new), W(!new)>(sums: Sums<V, W>, world: nat, inp: (nat, nat) -> V, r: nat)
    requires 1 < world && r < world
    ensures Opens(OwnerPlan(sums, world, inp), r, world - 1)
  {
    var q := Peer(world, r, 1);
    PeerIndex(world, r, 1);
    ConsentSetter(world, r, q);
  }

  // Ring and owner-sum calls in any order and any interleaving of the ranks, the flags being
  // 32-bit words, below 2^31 calls: no slot is overwritten unread, every wait is served by its
  // own call, flags only grow and stay below 2^31, and a rank that has finished a call has
  // every shard of that call's sum.
  lemma AnyJobs<V(!new), W(!new)>(sums: Sums<V, W>, world: nat, jobs: seq<Job<V>>, width: Width, run: seq<nat>, t: State<V>, r: nat)
    requires 1 < world && r < world && |jobs| < 0x8000_0000
    requires WordRuns(JobSystem(sums, world, jobs), width, Init(JobSystem(sums, world, jobs)), run, t)
    ensures var sys := JobSystem(sums, world, jobs);
      PutSafe(sys, t, r) && WordSafe(sys, width, t, r) && FlagsGrow(sys, t, r)
    ensures forall f: nat :: Flag(t, r, f) <= |jobs|
    ensures r < |t.ranks| && t.ranks[r].done == |t.ranks[r].log| <= |jobs|
    ensures forall c: nat, d: nat | c < t.ranks[r].done && d < world ::
              d in t.ranks[r].log[c] && t.ranks[r].log[c][d] == JobSum(sums, world, jobs[c], d)
              && JobShard(sums, world, jobs[c], d, t.ranks[r].log[c][d])
  {
    var sys := JobSystem(sums, world, jobs);
    JobSystemOk(sums, world, jobs);
    WordRunInv(sys, width, run, t);
    EveryRunSafe(sys, run, t, r);
    SoundBelow(sys, width);
    forall f: nat
      ensures Flag(t, r, f) <= |jobs|
    {
      FlagBound(sys, t, r, f);
    }
    forall c: nat, d: nat | c < t.ranks[r].done && d < world
      ensures d in t.ranks[r].log[c] && t.ranks[r].log[c][d] == JobSum(sums, world, jobs[c], d)
              && JobShard(sums, world, jobs[c], d, t.ranks[r].log[c][d])
    {
      JobLogged(sums, world, jobs, t, r, c, d);
    }
  }

  lemma JobLogged<V(!new), W(!new)>(sums: Sums<V, W>, world: nat, jobs: seq<Job<V>>, t: State<V>, r: nat, c: nat, d: nat)
    requires 1 < world && r < world && d < world && r < |t.ranks| && c < |t.ranks[r].log| <= |jobs|
    requires var p := JobPlan(sums, world, jobs[c]); t.ranks[r].log[c] == p.out(r, p.len)
    ensures d in t.ranks[r].log[c] && t.ranks[r].log[c][d] == JobSum(sums, world, jobs[c], d)
            && JobShard(sums, world, jobs[c], d, t.ranks[r].log[c][d])
  {
    if jobs[c].ring {
      RingEnds(sums, world, jobs[c].inp, r, d);
    } else {
      OwnerEnds(sums, world, jobs[c].inp, r, d);
    }
  }

  // No interleaving of them stops short: each ends within the steps there are, and where it
  // cannot go on every rank has finished every call.
  lemma AnyJobsProgress<V(!new), W(!new)>(sums: Sums<V, W>, world: nat, jobs: seq<Job<V>>, width: Width, run: seq<nat>, t: State<V>)
    requires 1 < world && |jobs| < 0x8000_0000
    requires WordRuns(JobSystem(sums, world, jobs), width, Init(JobSystem(sums, world, jobs)), run, t)
    ensures var sys := JobSystem(sums, world, jobs);
      |run| <= StepsLeft(sys, Init(sys).ranks, world) && |t.ranks| == world
    ensures (forall r: nat :: !WordEnabled(JobSystem(sums, world, jobs), width, t, r))
            <==> (forall r: nat | r < world :: t.ranks[r].done == |jobs|)
  {
    var sys := JobSystem(sums, world, jobs);
    JobSystemOk(sums, world, jobs);
    WordRunInv(sys, width, run, t);
    EpochStreams.RunsOut(sys, run, t);
    forall r: nat
      ensures WordEnabled(sys, width, t, r) <==> Enabled(sys, t, r)
    {
      SameStep(sys, width, t, r);
    }
  }

  // Both hold of every run exactly below 2^31 calls, whichever way the epoch is compared.
  lemma JobsIffBelow<V(!new), W(!new)>(sums: Sums<V, W>, world: nat, jobs: seq<Job<V>>, width: Width)
    requires 1 < world
    ensures Sound(JobSystem(sums, world, jobs), width) <==> |jobs| < 0x8000_0000
  {
    var sys := JobSystem(sums, world, jobs);
    JobSystemOk(sums, world, jobs);
    forall c | 0 <= c < |sys.calls|
      ensures Handshakes(sys, sys.calls[c])
    {
      forall r: nat | r < world
        ensures OpensCall(sys.calls[c], r)
      {
        JobOpens(sums, world, jobs[c], r);
      }
    }
    SoundIffBelow(sys, width);
  }

  // The first call at which they fail is number 2^31: with the epoch compared whole every
  // rank waits there for ever; cut to a word, a first wait passes before its flag is set.
  lemma JobsFailAt<V(!new), W(!new)>(sums: Sums<V, W>, world: nat, jobs: seq<Job<V>>, width: Width) returns (run: seq<nat>, t: State<V>, r: nat)
    requires 1 < world && HALF <= |jobs|
    ensures var sys := JobSystem(sums, world, jobs);
      && WordRuns(sys, width, Init(sys), run, t) && Active(sys, t, r) && t.ranks[r].done + 1 == 0x8000_0000
      && (width == Whole ==> forall q: nat :: !WordEnabled(sys, width, t, q))
      && (width == Cut ==> !WordSafe(sys, width, t, r))
  {
    var sys := JobSystem(sums, world, jobs);
    JobSystemOk(sums, world, jobs);
    var p := sys.calls[HALF - 1];
    forall q: nat | q < world
      ensures OpensCall(p, q)
    {
      JobOpens(sums, world, jobs[HALF - 1], q);
    }
    run, t, r := UnsoundFrom(sys, width);
  }

  // --- The host emulations --------------------------------------------------------------------

  // What every rank sends at step k of emulate's reduce-scatter.
  method EmulateSends<V(!new), W(!new)>(ghost sums: Sums<V, W>, world: nat, inp: (nat, nat) -> V, k: nat, out: seq<map<nat, V>>)
    returns (sent: seq<V>)
    requires 1 < world && k < world - 1
    requires |out| == world && forall r: nat | r < world :: out[r] == RingOut(sums, world, inp, r, k)
    ensures |sent| == world && forall r: nat | r < world :: sent[r] == Partial(sums, world, inp, RingSend(world, r, k), k)
  {
    sent := [];
    for r := 0 to world
      invariant |sent| == r
      invariant forall q: nat | q < r :: sent[q] == Partial(sums, world, inp, RingSend(world, q, k), k)
    {
      var c := RingSend(world, r, k);
      RingLinks(world, r, k);
      if k > 0 {
        assert out[r][c] == StepValue(sums, world, inp, r, k - 1);
      }
      sent := sent + [if k == 0 then inp(r, c) else out[r][c]];
    }
  }

  // And what every rank has after adding what its predecessor sent.
  method EmulateAdds<V(!new), W(!new)>(sums: Sums<V, W>, world: nat, inp: (nat, nat) -> V, k: nat, before: seq<map<nat, V>>, sent: seq<V>)
    returns (out: seq<map<nat, V>>)
    requires 1 < world && k < world - 1
    requires |before| == world && forall r: nat | r < world :: before[r] == RingOut(sums, world, inp, r, k)
    requires |sent| == world && forall r: nat | r < world :: sent[r] == Partial(sums, world, inp, RingSend(world, r, k), k)
    ensures |out| == world && forall r: nat | r < world :: out[r] == RingOut(sums, world, inp, r, k + 1)
  {
    out := before;
    for r := 0 to world
      invariant |out| == world
      invariant forall q: nat | q < r :: out[q] == RingOut(sums, world, inp, q, k + 1)
      invariant forall q: nat | r <= q < world :: out[q] == before[q]
    {
      RingLinks(world, Prev(world, r), k);
      var c := RingRecv(world, r, k);
      RingAdds(sums, world, inp, r, k);
      out := out[r := out[r][c := sums.add(inp(r, c), sent[Prev(world, r)])]];
    }
  }

  // emulate: the reduce-scatter's steps over all ranks at once; owner c - 1 has shard c.
  method Emulate<V(!new), W(!new)>(sums: Sums<V, W>, world: nat, inp: (nat, nat) -> V) returns (res: seq<V>)
    requires 1 < world
    ensures |res| == world && forall c: nat | c < world :: res[c] == RingSum(sums, world, inp, c) && RingShard(sums, world, inp, c, res[c])
  {
    var out: seq<map<nat, V>> := seq(world, r => map[]);
    for k := 0 to world - 1
      invariant |out| == world && forall r: nat | r < world :: out[r] == RingOut(sums, world, inp, r, k)
    {
      var sent := EmulateSends(sums, world, inp, k, out);
      out := EmulateAdds(sums, world, inp, k, out, sent);
    }
    res := [];
    for c := 0 to world
      invariant |res| == c && forall d: nat | d < c :: res[d] == RingSum(sums, world, inp, d)
    {
      var r := Prev(world, c);
      RingGathers(sums, world, inp, r, 0, c);
      res := res + [out[r][c]];
    }
    forall c: nat | c < world
      ensures RingShard(sums, world, inp, c, res[c])
    {
      PartialSums(sums, world, inp, c, world - 1);
    }
  }

  // emulate_owner on one shard.
  method EmulateOwner<V(!new), W(!new)>(sums: Sums<V, W>, world: nat, inp: (nat, nat) -> V, c: nat) returns (res: V)
    requires 0 < world
    ensures res == OwnerSum(sums, world, inp, c) && ShardSum(sums, world, inp, c, res)
  {
    var acc := sums.wide(inp(0, c));
    for r := 1 to world
      invariant acc == WideSum(sums, inp, c, r - 1)
    {
      acc := sums.addWide(acc, sums.wide(inp(r, c)));
    }
    res := sums.round(acc);
    OwnerSums(sums, world, inp, c);
  }

  // --- The flag block ----------------------------------------------------------------------

  const FLAG_STRIDE_BYTES := 128

  function FlagBytes(world: nat): int {
    (2 * (world - 1) + world) * FLAG_STRIDE_BYTES
  }

  // Every flag any call sets lies whole inside the block, and no two share bytes.
  lemma FlagsInside<V(!new), W(!new)>(sums: Sums<V, W>, world: nat, job: Job<V>, r: nat, f: nat, g: nat)
    requires 1 < world && r < world && JobPlan(sums, world, job).sets(r, f)
    ensures 0 <= f * FLAG_STRIDE_BYTES && (f + 1) * FLAG_STRIDE_BYTES <= FlagBytes(world)
    ensures f < g ==> (f + 1) * FLAG_STRIDE_BYTES <= g * FLAG_STRIDE_BYTES
  {
  }

  // --- Splitting a message ------------------------------------------------------------------

  // Element i of the owner sum of a message.
  ghost function OwnerElement<T(!new), W(!new)>(sums: Sums<T, W>, world: nat, msg: nat -> seq<T>, i: nat): T
    requires 0 < world && forall r: nat | r < world :: i < |msg(r)|
  {
    sums.round(WideColumn(sums, msg, i, world - 1))
  }

  ghost function WideColumn<T(!new), W(!new)>(sums: Sums<T, W>, msg: nat -> seq<T>, i: nat, n: nat): W
    requires forall r: nat | r <= n :: i < |msg(r)|
  {
    if n == 0 then sums.wide(msg(0)[i]) else sums.addWide(WideColumn(sums, msg, i, n - 1), sums.wide(msg(n)[i]))
  }

  // Element i of the first n ranks' messages.
  ghost function Elements<T(!new)>(msg: nat -> seq<T>, i: nat, n: nat): (xs: seq<T>)
    requires forall r: nat | r < n :: i < |msg(r)|
    ensures |xs| == n
  {
    seq(n, r requires 0 <= r < n => msg(r)[i])
  }

  // y adds element i of every rank's message in rank order, once each, and rounds once.
  ghost predicate ColumnSum<T(!new), W(!new)>(sums: Sums<T, W>, world: nat, msg: nat -> seq<T>, i: nat, y: T)
    requires forall r: nat | r < world :: i < |msg(r)|
  {
    exists sum: W :: SumsTo(sums.wide, sums.addWide, Elements(msg, i, world), sum) && y == sums.round(sum)
  }

  lemma {:induction false} ColumnSums<T(!new), W(!new)>(sums: Sums<T, W>, msg: nat -> seq<T>, i: nat, n: nat)
    requires forall r: nat | r <= n :: i < |msg(r)|
    ensures SumsTo(sums.wide, sums.addWide, Elements(msg, i, n + 1), WideColumn(sums, msg, i, n))
    decreases n
  {
    if n == 0 {
      SumOfOne(sums.wide, sums.addWide, msg(0)[i]);
      assert Elements(msg, i, 1) == [msg(0)[i]];
    } else {
      ColumnSums(sums, msg, i, n - 1);
      SumOfMore(sums.wide, sums.addWide, Elements(msg, i, n), WideColumn(sums, msg, i, n - 1), msg(n)[i]);
      assert Elements(msg, i, n + 1) == Elements(msg, i, n) + [msg(n)[i]];
    }
  }

  lemma ElementSums<T(!new), W(!new)>(sums: Sums<T, W>, world: nat, msg: nat -> seq<T>, i: nat)
    requires 0 < world && forall r: nat | r < world :: i < |msg(r)|
    ensures ColumnSum(sums, world, msg, i, OwnerElement(sums, world, msg, i))
  {
    ColumnSums(sums, msg, i, world - 1);
  }

  // The same operations on whole shards, element by element.
  ghost function OnShards<T(!new), W(!new)>(sums: Sums<T, W>): Sums<seq<T>, seq<W>> {
    Sums((x: seq<T>, y: seq<T>) => Zip(sums.add, x, y), (x: seq<T>) => Each(sums.wide, x),
         (x: seq<W>, y: seq<W>) => Zip(sums.addWide, x, y), (x: seq<W>) => Each(sums.round, x))
  }

  ghost function Each<A(!new), B(!new)>(f: A -> B, x: seq<A>): (y: seq<B>)
    ensures |y| == |x|
  {
    seq(|x|, j requires 0 <= j < |x| => f(x[j]))
  }

  ghost function Zip<A(!new)>(f: (A, A) -> A, x: seq<A>, y: seq<A>): (z: seq<A>)
    ensures |x| == |y| ==> |z| == |x|
  {
    var n := if |x| < |y| then |x| else |y|;
    seq(n, j requires 0 <= j < n => f(x[j], y[j]))
  }

  // Shard c of each rank's message, shards of m elements.
  ghost function Shards<T(!new)>(msg: nat -> seq<T>, m: nat): (nat, nat) -> seq<T> {
    (r: nat, c: nat) => Shard(msg(r), m, c)
  }

  ghost function Shard<T(!new)>(x: seq<T>, m: nat, c: nat): seq<T> {
    AtIs(m, c, 0);
    AtIs(m, c, m);
    if At(m, c, m) <= |x| then x[At(m, c, 0)..At(m, c, m)] else []
  }

  lemma ShardAt<T(!new)>(x: seq<T>, m: nat, c: nat, j: nat)
    requires j < m && At(m, c, m) <= |x|
    ensures |Shard(x, m, c)| == m && At(m, c, j) < |x| && Shard(x, m, c)[j] == x[At(m, c, j)]
  {
    AtIs(m, c, j);
    AtIs(m, c, 0);
    AtIs(m, c, m);
  }

  lemma {:induction false} WideShard<T(!new), W(!new)>(sums: Sums<T, W>, msg: nat -> seq<T>, m: nat, c: nat, n: nat, j: nat)
    requires j < m && forall r: nat | r <= n :: At(m, c, m) <= |msg(r)|
    ensures forall r: nat | r <= n :: At(m, c, j) < |msg(r)|
    ensures |WideSum(OnShards(sums), Shards(msg, m), c, n)| == m
    ensures WideSum(OnShards(sums), Shards(msg, m), c, n)[j] == WideColumn(sums, msg, At(m, c, j), n)
    decreases n
  {
    forall r: nat | r <= n
      ensures At(m, c, j) < |msg(r)|
    {
      ShardAt(msg(r), m, c, j);
    }
    ShardAt(msg(n), m, c, j);
    if n > 0 {
      WideShard(sums, msg, m, c, n - 1, j);
    }
  }

  // Whatever the shard size, hence however a message is split, element i of the result
  // is the rank-order sum of the ranks' elements i, rounded once.
  lemma OwnerSplit<T(!new), W(!new)>(sums: Sums<T, W>, world: nat, msg: nat -> seq<T>, m: nat, c: nat, j: nat)
    requires 1 < world && c < world && j < m && forall r: nat | r < world :: |msg(r)| >= At(m, world, 0)
    ensures At(m, c, j) < At(m, world, 0)
    ensures |OwnerSum(OnShards(sums), world, Shards(msg, m), c)| == m
    ensures OwnerSum(OnShards(sums), world, Shards(msg, m), c)[j] == OwnerElement(sums, world, msg, At(m, c, j))
    ensures ColumnSum(sums, world, msg, At(m, c, j), OwnerElement(sums, world, msg, At(m, c, j)))
  {
    AtBelow(m, c, j, world);
    AtIs(m, c, m);
    AtIs(m, c + 1, 0);
    AtIs(m, world, 0);
    MulMono(c + 1, world, m);
    WideShard(sums, msg, m, c, world - 1, j);
    ElementSums(sums, world, msg, At(m, c, j));
  }
}
