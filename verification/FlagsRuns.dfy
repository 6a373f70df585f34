// Sequences of two-shot and one-shot calls on one set of stages, and their waits.
module FlagsRuns {
  import opened WireFormat
  import opened FlagsProtocol
  import opened AllReduceSum
  import opened FlagsKernels

  datatype Job = Job(oneShot: bool, m: Message)

  ghost function CallOf<F>(fl: Floats<F>, job: Job): Call
    requires job.m.Ok()
  {
    if job.oneShot then OneShot(job.m) else TwoShot(fl, job.m)
  }

  ghost predicate JobsOk(ranks: nat, jobs: seq<Job>) {
    forall j | 0 <= j < |jobs| :: jobs[j].m.Ok() && jobs[j].m.ranks == ranks
  }

  ghost function JobsConfig<F>(fl: Floats<F>, ranks: nat, jobs: seq<Job>): Config
    requires JobsOk(ranks, jobs)
  {
    FlagsConfig(ranks, seq(|jobs|, j requires 0 <= j < |jobs| => CallOf(fl, jobs[j])))
  }

  lemma JobOk<F>(fl: Floats<F>, cfg: Config, job: Job)
    requires job.m.Ok() && cfg.ranks == job.m.ranks && cfg.region == Prefix
    ensures cfg.CallOk(CallOf(fl, job))
  {
    if job.oneShot {
      OneShotOk(job.m, cfg);
    } else {
      TwoShotOk(fl, job.m, cfg);
    }
  }

  lemma JobsConfigOk<F>(fl: Floats<F>, ranks: nat, jobs: seq<Job>)
    requires JobsOk(ranks, jobs)
    ensures JobsConfig(fl, ranks, jobs).Ok()
  {
    var cfg := JobsConfig(fl, ranks, jobs);
    forall c | 0 <= c < |cfg.calls|
      ensures cfg.CallOk(cfg.calls[c])
    {
      JobOk(fl, cfg, jobs[c]);
    }
  }

  // Whatever calls follow each other, and however ranks and words interleave: the
  // state is safe, and a rank that has finished a call received exactly that call's
  // packs, from which its threads write the call's result (FlagsOutput).
  lemma AnyJobsSafe<F>(fl: Floats<F>, ranks: nat, jobs: seq<Job>, run: seq<Action>, t: State)
    requires JobsOk(ranks, jobs)
    requires Runs(JobsConfig(fl, ranks, jobs), Init(JobsConfig(fl, ranks, jobs)), run, t)
    ensures Shaped(JobsConfig(fl, ranks, jobs), t) && Safe(JobsConfig(fl, ranks, jobs), t)
    ensures forall r: nat, c: nat | r < ranks && c < t.ranks[r].done ::
              c < |jobs| && c < |t.ranks[r].log| && t.ranks[r].log[c] == Received(CallOf(fl, jobs[c]), r)
  {
    var cfg := JobsConfig(fl, ranks, jobs);
    JobsConfigOk(fl, ranks, jobs);
    EveryRunSafe(cfg, run, t);
    forall r: nat, c: nat | r < ranks && c < t.ranks[r].done
      ensures c < |jobs| && c < |t.ranks[r].log| && t.ranks[r].log[c] == Received(CallOf(fl, jobs[c]), r)
    {
      assert LogOk(cfg, t.ranks[r], r);
      assert t.ranks[r].log[c] == Received(cfg.calls[c], r);
    }
  }

  // --- The waits ------------------------------------------------------------------------

  ghost predicate CleanPoll(polls: seq<seq<Pack>>, t: nat, s: nat)
    requires forall u | 0 <= u < |polls| :: s < |polls[u]|
  {
    t < |polls| && Clean(polls[t][s])
  }

  predicate IsDirty(p: Pack) {
    WordOf(p, 0) == SENTINEL || WordOf(p, 1) == SENTINEL || WordOf(p, 2) == SENTINEL || WordOf(p, 3) == SENTINEL
  }

  lemma DirtyClean(p: Pack)
    ensures IsDirty(p) <==> !Clean(p)
  {
    if !IsDirty(p) {
      assert forall w: nat | w < 4 :: (w == 0 || w == 1 || w == 2 || w == 3) && WordOf(p, w) != SENTINEL;
    }
  }

  ghost predicate EverClean(polls: seq<seq<Pack>>, s: nat)
    requires forall u | 0 <= u < |polls| :: s < |polls[u]|
  {
    exists t: nat :: CleanPoll(polls, t, s)
  }

  // v[s] is what peer s's load returned the first time it held no sentinel word.
  ghost predicate FirstClean(polls: seq<seq<Pack>>, upto: nat, s: nat, ready: bool, x: Pack)
    requires upto <= |polls| && forall u | 0 <= u < |polls| :: s < |polls[u]|
  {
    && (ready <==> exists t: nat :: t < upto && CleanPoll(polls, t, s))
    && (ready ==> exists t: nat :: (t < upto && CleanPoll(polls, t, s) && x == polls[t][s] && forall u: nat | u < t :: !CleanPoll(polls, u, s)))
  }

  // wait_peers: polls[t][s] is what the load of peer s's slot returns in round t. It
  // is done when every peer has been read clean, and keeps each peer's first clean pack.
  method WaitPeers(polls: seq<seq<Pack>>, ranks: nat, rank: nat, own: Pack) returns (v: seq<Pack>, done: bool)
    requires rank < ranks && forall t | 0 <= t < |polls| :: |polls[t]| == ranks
    ensures |v| == ranks && v[rank] == own
    ensures done <==> forall s: nat | s < ranks && s != rank :: EverClean(polls, s)
    ensures done ==> forall s: nat | s < ranks && s != rank :: FirstClean(polls, |polls|, s, true, v[s])
  {
    var ready := seq(ranks, s => s == rank);
    v := seq(ranks, s => own);
    var t := 0;
    while t < |polls|
      invariant 0 <= t <= |polls| && |v| == |ready| == ranks && v[rank] == own && ready[rank]
      invariant forall s: nat | s < ranks && s != rank :: FirstClean(polls, t, s, ready[s], v[s])
    {
      var s := 0;
      while s < ranks
        invariant 0 <= s <= ranks && |v| == |ready| == ranks && v[rank] == own && ready[rank]
        invariant forall q: nat | q < ranks && q != rank :: FirstClean(polls, if q < s then t + 1 else t, q, ready[q], v[q])
      {
        var x := polls[t][s];
        DirtyClean(x);
        if !ready[s] && !IsDirty(x) {
          v := v[s := x];
          ready := ready[s := true];
        }
        if s != rank {
          assert CleanPoll(polls, t, s) <==> !IsDirty(x);
          assert FirstClean(polls, t + 1, s, ready[s], v[s]);
        }
        s := s + 1;
      }
      t := t + 1;
    }
    done := forall s :: 0 <= s < ranks ==> ready[s];
    forall s: nat | s < ranks && s != rank
      ensures ready[s] <==> EverClean(polls, s)
    {
      assert FirstClean(polls, |polls|, s, ready[s], v[s]);
    }
  }
}
