// What the waits of the flags all-reduce see in any run, and what its calls end with.
module FlagsPolls {
  import opened Arith
  import opened WireFormat
  import opened WireKernel
  import opened FlagsProtocol
  import opened AllReduceSum
  import opened FlagsKernels
  import opened FlagsOutput
  import opened FlagsRuns
  import opened FlagsCompressed
  import opened FlagsCompressedOutput

  // Some run comes to state t, in which rank r is in call c.
  ghost predicate Visits(cfg: Config, t: State, r: nat, c: nat) {
    (exists run :: Runs(cfg, Init(cfg), run, t)) && Shaped(cfg, t) && Active(cfg, t, r) && t.ranks[r].done == c
  }

  lemma VisitInv(cfg: Config, t: State, r: nat, c: nat)
    requires cfg.Ok() && Visits(cfg, t, r, c)
    ensures Inv(cfg, t) && Safe(cfg, t) && t.ranks[r].stage == c % 3
  {
    var run :| Runs(cfg, Init(cfg), run, t);
    InitInv(cfg);
    RunInv(cfg, Init(cfg), run, t);
    InvSafe(cfg, t);
    assert FlagsProtocol.RankOk(cfg, t, r);
  }

  // --- wait_peers --------------------------------------------------------------------------

  // What a load of rank r's stage returns while it is in call c.
  ghost predicate Loads(cfg: Config, t: State, r: nat, c: nat, addr: nat, x: Pack) {
    Visits(cfg, t, r, c) && x == Load(t, r, t.ranks[r].stage, addr)
  }

  // Whatever states of a run its loads fall into, a pack that wait_peers returns for a peer
  // is the one the peer sends there in this call.
  lemma PeersDeliver(cfg: Config, r: nat, c: nat, addrs: seq<nat>, polls: seq<seq<Pack>>, states: seq<seq<State>>, v: seq<Pack>, s: nat)
    requires cfg.Ok() && c < |cfg.calls| && s < |addrs| && s < |v| && |states| == |polls|
    requires forall t | 0 <= t < |polls| :: s < |polls[t]| && s < |states[t]| && Loads(cfg, states[t][s], r, c, addrs[s], polls[t][s])
    requires FirstClean(polls, |polls|, s, true, v[s])
    ensures Place(r, addrs[s]) in cfg.calls[c].slots && v[s] == cfg.calls[c].slots[Place(r, addrs[s])].pack
  {
    var t: nat :| t < |polls| && CleanPoll(polls, t, s) && v[s] == polls[t][s];
    assert Loads(cfg, states[t][s], r, c, addrs[s], polls[t][s]);
    VisitInv(cfg, states[t][s], r, c);
    assert WaitOk(cfg, states[t][s], r, addrs[s]);
  }

  // --- recv_blocks2 --------------------------------------------------------------------------

  lemma WordOfQuad(p: Pack, q: Pack, w: nat)
    requires w < 4 && WordOf(p, w) == WordOf(q, w)
    ensures WordIs(PackQuad(p), w, PackQuad(q))
  {
    var a, b := PackQuad(p), PackQuad(q);
    assert (4 * w) / 2 == 2 * w && (4 * w + 1) / 2 == 2 * w && (4 * w + 2) / 2 == 2 * w + 1 && (4 * w + 3) / 2 == 2 * w + 1;
    assert a[4 * w] == b[4 * w] && a[4 * w + 1] == b[4 * w + 1] && a[4 * w + 2] == b[4 * w + 2] && a[4 * w + 3] == b[4 * w + 3];
  }

  const SENTINEL_PACK: Pack := [0xFFFF, 0xFFFF, 0xFFFF, 0xFFFF, 0xFFFF, 0xFFFF, 0xFFFF, 0xFFFF]

  lemma SentinelPackQuad()
    ensures PackQuad(SENTINEL_PACK) == SentinelQuad()
  {
  }

  // Each word of a quad's load is the sender's or the sentinel.
  lemma LoadIsPartly(cfg: Config, t: State, r: nat, c: nat, addr: nat, x: Pack)
    requires cfg.Ok() && Loads(cfg, t, r, c, addr, x) && Place(r, addr) in cfg.calls[c].slots
    ensures Partly(PackQuad(x), PackQuad(cfg.calls[c].slots[Place(r, addr)].pack))
  {
    var y := cfg.calls[c].slots[Place(r, addr)].pack;
    VisitInv(cfg, t, r, c);
    forall w: nat | w < 4
      ensures WordOf(x, w) == WordOf(y, w) || WordOf(x, w) == SENTINEL
    {
      LoadWord(t, r, c % 3, addr, w);
      assert CellOk(cfg, t, c, Place(r, addr), w);
    }
    WordsArePartly(x, y);
  }

  lemma LoadWord(t: State, r: nat, stage: nat, addr: nat, w: nat)
    requires w < 4
    ensures WordOf(Load(t, r, stage, addr), w) == Read(t, Cell(r, stage, addr, w))
  {
  }

  lemma WordsArePartly(x: Pack, y: Pack)
    requires forall w: nat | w < 4 :: WordOf(x, w) == WordOf(y, w) || WordOf(x, w) == SENTINEL
    ensures Partly(PackQuad(x), PackQuad(y))
  {
    SentinelPackQuad();
    forall w: nat | w < 4
      ensures WordIs(PackQuad(x), w, PackQuad(y)) || WordIs(PackQuad(x), w, SentinelQuad())
    {
      if WordOf(x, w) == WordOf(y, w) {
        WordOfQuad(x, y, w);
      } else {
        WordOfQuad(x, SENTINEL_PACK, w);
      }
    }
  }

  // Where nothing is sent in the call, nothing but sentinels is seen.
  lemma LoadIsSentinel(cfg: Config, t: State, r: nat, c: nat, addr: nat, x: Pack)
    requires cfg.Ok() && Loads(cfg, t, r, c, addr, x) && c < |cfg.calls| && Place(r, addr) !in cfg.calls[c].slots
    ensures PackQuad(x) == SentinelQuad()
  {
    VisitInv(cfg, t, r, c);
    SentinelPackQuad();
    forall w: nat | w < 4
      ensures WordOf(x, w) == SENTINEL
    {
      LoadWord(t, r, c % 3, addr, w);
      assert CellOk(cfg, t, c, Place(r, addr), w);
    }
    assert WordOf(x, 0) == WordOf(x, 1) == WordOf(x, 2) == WordOf(x, 3) == SENTINEL;
    assert x == SENTINEL_PACK;
  }

  // A poll of block b of area a: each lane's quad loaded in a state of its own.
  ghost predicate PollOf<F>(fl: Floats<F>, ranks: nat, lb: nat, jobs: seq<Message>, r: nat, c: nat, a: nat, b: nat,
                            states: seq<State>, view: seq<Quad>)
    requires ZJobsOk(ranks, lb, jobs)
  {
    |states| == |view| == LANES
    && forall j: nat | j < LANES :: QuadLoad(ZConfig(fl, ranks, lb, jobs), states[j], r, c, QuadAt(lb, a, b, j), view[j])
  }

  ghost predicate QuadLoad(cfg: Config, t: State, r: nat, c: nat, addr: nat, q: Quad) {
    exists x: Pack :: Loads(cfg, t, r, c, addr, x) && q == PackQuad(x)
  }

  lemma ZConfigOk<F>(fl: Floats<F>, ranks: nat, lb: nat, jobs: seq<Message>)
    requires ZJobsOk(ranks, lb, jobs)
    ensures ZConfig(fl, ranks, lb, jobs).Ok()
  {
    var cfg := ZConfig(fl, ranks, lb, jobs);
    forall c | 0 <= c < |cfg.calls|
      ensures cfg.CallOk(cfg.calls[c])
    {
      TwoShotZOk(fl, jobs[c], lb, cfg);
    }
  }

  // Every poll in any run is one that RecvBlocks expects: it sees the block arriving word by
  // word, and nothing else.
  lemma PollArrives<F>(fl: Floats<F>, ranks: nat, lb: nat, jobs: seq<Message>, r: nat, c: nat, a: nat, b: nat,
                       states: seq<State>, view: seq<Quad>)
    requires ZJobsOk(ranks, lb, jobs) && c < |jobs| && AreaOk(jobs[c], r, a) && b < Blocks(jobs[c], AreaPart(jobs[c], r, a))
    requires PollOf(fl, ranks, lb, jobs, r, c, a, b, states, view)
    ensures Arriving(view, WireKernel.Sent(AreaBlock(fl, jobs[c], r, a, b))) && CleanBlock(AreaBlock(fl, jobs[c], r, a, b))
  {
    var sent := WireKernel.Sent(AreaBlock(fl, jobs[c], r, a, b));
    AreaBlockClean(fl, jobs[c], r, a, b);
    forall j: nat | j < LANES
      ensures j < |sent| ==> Partly(view[j], sent[j])
      ensures |sent| <= j ==> view[j] == SentinelQuad()
    {
      assert QuadLoad(ZConfig(fl, ranks, lb, jobs), states[j], r, c, QuadAt(lb, a, b, j), view[j]);
      LaneArrives(fl, ranks, lb, jobs, r, c, a, b, j, states[j], view[j]);
    }
  }

  lemma AreaBlockClean<F>(fl: Floats<F>, m: Message, d: nat, a: nat, b: nat)
    requires m.Ok() && AreaOk(m, d, a)
    ensures CleanBlock(AreaBlock(fl, m, d, a, b))
  {
    if a < m.ranks {
      InputBlockClean(m, a, d, b);
    } else {
      ReducedBlockClean(fl, m, a - m.ranks, b);
    }
    forall k | 0 <= k < BLOCK_PACKS
      ensures !Dirty(PackQuad(AreaBlock(fl, m, d, a, b)[k]))
    {
      CleanQuad(AreaBlock(fl, m, d, a, b)[k]);
    }
  }

  lemma LaneArrives<F>(fl: Floats<F>, ranks: nat, lb: nat, jobs: seq<Message>, r: nat, c: nat, a: nat, b: nat, j: nat,
                       t: State, q: Quad)
    requires ZJobsOk(ranks, lb, jobs) && c < |jobs| && AreaOk(jobs[c], r, a) && b < Blocks(jobs[c], AreaPart(jobs[c], r, a))
    requires j < LANES && QuadLoad(ZConfig(fl, ranks, lb, jobs), t, r, c, QuadAt(lb, a, b, j), q)
    ensures var sent := WireKernel.Sent(AreaBlock(fl, jobs[c], r, a, b));
            if j < |sent| then Partly(q, sent[j]) else q == SentinelQuad()
  {
    var m, cfg := jobs[c], ZConfig(fl, ranks, lb, jobs);
    ZConfigOk(fl, ranks, lb, jobs);
    var addr := QuadAt(lb, a, b, j);
    var x: Pack :| Loads(cfg, t, r, c, addr, x) && q == PackQuad(x);
    PlaceUsed(fl, m, lb, r, a, b, j);
    if j < AreaQuads(fl, m, r, a, b) {
      LoadIsPartly(cfg, t, r, c, addr, x);
      QuadRoundTrip(WireKernel.Sent(AreaBlock(fl, m, r, a, b))[j]);
    } else {
      LoadIsSentinel(cfg, t, r, c, addr, x);
    }
  }

  // A quad's place is used exactly when its block has that many quads.
  lemma PlaceUsed<F>(fl: Floats<F>, m: Message, lb: nat, d: nat, a: nat, b: nat, j: nat)
    requires m.Ok() && 0 < lb && AreaOk(m, d, a) && b < Blocks(m, AreaPart(m, d, a)) && j < LANES && Blocks(m, m.ranks - 1) <= lb
    ensures Place(d, QuadAt(lb, a, b, j)) in TwoShotZ(fl, m, lb).slots <==> j < AreaQuads(fl, m, d, a, b)
    ensures j < AreaQuads(fl, m, d, a, b) ==> TwoShotZ(fl, m, lb).slots[Place(d, QuadAt(lb, a, b, j))].pack == AreaQuad(fl, m, d, a, b, j)
  {
    BlocksFit(m, AreaPart(m, d, a));
    if j < AreaQuads(fl, m, d, a, b) {
      var call := TwoShotZIs(fl, m, lb);
      var slot := ZSlotSent(fl, m, lb, call, d, a, b, j);
    } else if Place(d, QuadAt(lb, a, b, j)) in TwoShotZ(fl, m, lb).slots {
      var a', b', j' := ZIn(fl, m, lb, Place(d, QuadAt(lb, a, b, j)));
      BlocksFit(m, AreaPart(m, d, a'));
      QuadAtInverse(m, lb, a, b, j);
      QuadAtInverse(m, lb, a', b', j');
    }
  }

  // --- The output --------------------------------------------------------------------------

  // In any run of two-shot and one-shot calls, what a rank has received in a call it has
  // finished makes its threads write the call's result, whole.
  method CallOutput<F(!new)>(fl: Floats<F>, ghost ranks: nat, ghost jobs: seq<Job>, ghost run: seq<Action>, ghost t: State,
                             ghost c: nat, job: Job, rank: nat, got: map<Place, Pack>, stride: nat, out: array<Pack>)
    requires NanOk(fl) && JobsOk(ranks, jobs) && Runs(JobsConfig(fl, ranks, jobs), Init(JobsConfig(fl, ranks, jobs)), run, t)
    requires rank < ranks == |t.ranks| && c < t.ranks[rank].done && c < |jobs| && jobs[c] == job
    requires c < |t.ranks[rank].log| && got == t.ranks[rank].log[c]
    requires 0 < stride && out.Length == job.m.size
    modifies out
    ensures out[..] == job.m.Result(fl)
    ensures job.m.Ok() && forall i: nat | i < job.m.size :: PackSum(fl, job.m, i, out[i])
  {
    AnyJobsSafe(fl, ranks, jobs, run, t);
    ghost var call := CallOf(fl, job);
    if !job.oneShot {
      call := TwoShotIs(fl, job.m);
    }
    for tid := 0 to stride
      invariant forall i: nat | i < job.m.size :: Writer(job, i, stride) < tid ==> out[i] == job.m.Result(fl)[i]
    {
      if job.oneShot {
        OneShotThread(fl, job.m, rank, got, tid, stride, out);
      } else {
        TwoShotThread(fl, job.m, call, rank, got, tid, stride, out);
      }
    }
    forall i: nat | i < job.m.size
      ensures Writer(job, i, stride) < stride && PackSum(fl, job.m, i, job.m.Result(fl)[i])
    {
      ResultSums(fl, job.m, i);
    }
  }

  // The thread that writes pack i.
  ghost function Writer(job: Job, i: nat, stride: nat): nat
    requires job.m.Ok() && i < job.m.size && 0 < stride
  {
    if job.oneShot then Offset(stride, i) else ThreadOf(job.m, i, stride)
  }

  // In any run of compressed calls too, however many CTAs and warps.
  method CompressedOutput<F(!new)>(fl: Floats<F>, ghost ranks: nat, lb: nat, ghost jobs: seq<Message>, ghost run: seq<Action>,
                                   ghost t: State, ghost c: nat, m: Message, rank: nat, got: map<nat, Pack>,
                                   grid: nat, warps: nat, out: array<Pack>)
    requires NanOk(fl) && ZJobsOk(ranks, lb, jobs)
    requires Runs(ZConfig(fl, ranks, lb, jobs), Init(ZConfig(fl, ranks, lb, jobs)), run, t)
    requires rank < ranks == |t.ranks| && c < t.ranks[rank].done && c < |jobs| && jobs[c] == m
    requires c < |t.ranks[rank].log| && got == OwnGot(t.ranks[rank].log[c], rank)
    requires 0 < grid && 0 < warps && out.Length == m.size
    modifies out
    ensures out[..] == m.Result(fl)
    ensures m.Ok() && forall i: nat | i < m.size :: PackSum(fl, m, i, out[i])
  {
    AnyCompressedSafe(fl, ranks, lb, jobs, run, t);
    OwnGotAll(TwoShotZ(fl, m, lb), rank);
    GridWrites(fl, m, lb, rank, got, grid, warps, out);
    forall i: nat | i < m.size
      ensures PackSum(fl, m, i, m.Result(fl)[i])
    {
      ResultSums(fl, m, i);
    }
  }
}
