// When a generation comes round: the second barrier of the host-staged all-reduce holds in
// every run exactly while no call meets flags of its own 32-bit generation left by an
// earlier one.
module HostShmStale {
  import opened HostShm

  ghost predicate Legal<X(!new), W(!new)>(sys: System<X, W>) {
    1 < sys.world && forall c: nat | c < |sys.calls| :: CutsOk(sys.calls[c], sys.world)
  }

  ghost predicate Reaches<X(!new), W(!new)>(sys: System<X, W>, s: State<X>, t: State<X>) {
    exists run :: Runs(sys, s, run, t)
  }

  lemma ReachesSelf<X(!new), W(!new)>(sys: System<X, W>, s: State<X>)
    ensures Reaches(sys, s, s)
  {
    assert Runs(sys, s, [], s);
  }

  lemma {:induction false} RunsConcat<X(!new), W(!new)>(sys: System<X, W>, s: State<X>, a: seq<Action>, t: State<X>, b: seq<Action>, u: State<X>)
    requires Runs(sys, s, a, t) && Runs(sys, t, b, u)
    ensures Runs(sys, s, a + b, u)
    decreases |a|
  {
    if a == [] {
      assert a + b == b;
    } else {
      RunsConcat(sys, Do(sys, s, a[0]), a[1..], t, b, u);
      assert (a + b)[0] == a[0] && (a + b)[1..] == a[1..] + b;
    }
  }

  lemma ReachesOn<X(!new), W(!new)>(sys: System<X, W>, s: State<X>, t: State<X>, u: State<X>)
    requires Reaches(sys, s, t) && Reaches(sys, t, u)
    ensures Reaches(sys, s, u)
  {
    var a :| Runs(sys, s, a, t);
    var b :| Runs(sys, t, b, u);
    RunsConcat(sys, s, a, t, b, u);
  }

  lemma ReachesStep<X(!new), W(!new)>(sys: System<X, W>, s: State<X>, t: State<X>, a: Action)
    requires Reaches(sys, s, t) && Enabled(sys, t, a)
    ensures Reaches(sys, s, Do(sys, t, a))
  {
    var run :| Runs(sys, s, run, t);
    assert [a][1..] == [] && Runs(sys, t, [a], Do(sys, t, a));
    RunsConcat(sys, s, run, t, [a], Do(sys, t, a));
  }

  // --- All ranks in step ---------------------------------------------------------------

  // Rank r stands at the start of phase ph of call c.
  ghost predicate At<X(!new)>(s: State<X>, r: nat, c: nat, ph: Phase) {
    r < |s.ranks| && s.ranks[r].done == c && s.ranks[r].phase == ph && s.ranks[r].did == {}
  }

  ghost predicate AllAt<X(!new), W(!new)>(sys: System<X, W>, s: State<X>, c: nat, ph: Phase) {
    |s.ranks| == sys.world && forall r: nat | r < sys.world :: At(s, r, c, ph)
  }

  function NextCall(c: nat, ph: Phase): nat {
    if ph == End then c + 1 else c
  }

  function Following(algo: Algo, ph: Phase): Phase {
    if ph == End then Publish else NextPhase(algo, ph)
  }

  ghost predicate OnlyRank<X(!new)>(s: State<X>, t: State<X>, r: nat) {
    |t.ranks| == |s.ranks| && forall q: nat | q < |s.ranks| && q != r :: t.ranks[q] == s.ranks[q]
  }

  lemma StepMoves<X(!new), W(!new)>(sys: System<X, W>, s: State<X>, a: Action)
    requires Enabled(sys, s, a)
    ensures var t, was := Do(sys, s, a), s.ranks[a.r];
            && OnlyRank(s, t, a.r)
            && (a.Work? ==> t.ranks[a.r].done == was.done && t.ranks[a.r].phase == was.phase && t.ranks[a.r].did == was.did + {a.i})
            && (a.Next? ==> At(t, a.r, NextCall(was.done, was.phase), Following(sys.calls[was.done].algo, was.phase)))
            && (a.Work? && was.phase == Wait1 ==> t.flags == s.flags)
  {
  }

  // A rank behind no other finishes its phase, whatever the others do.
  lemma {:induction false} Advance<X(!new), W(!new)>(sys: System<X, W>, s: State<X>, r: nat) returns (t: State<X>)
    requires Legal(sys) && Inv(sys, s) && Active(sys, s, r) && Slowest(sys, s, r)
    requires s.ranks[r].phase == Wait1 ==> Fresh(sys, s.ranks[r].done)
    ensures Reaches(sys, s, t) && Inv(sys, t) && OnlyRank(s, t, r)
    ensures At(t, r, NextCall(s.ranks[r].done, s.ranks[r].phase), Following(sys.calls[s.ranks[r].done].algo, s.ranks[r].phase))
    decreases sys.calls[s.ranks[r].done].units + sys.world - |s.ranks[r].did|
  {
    var u, more := OneStep(sys, s, r);
    if more {
      SubsetSize(u.ranks[r].did, sys.calls[s.ranks[r].done].units + sys.world);
      t := Advance(sys, u, r);
      ReachesOn(sys, s, u, t);
    } else {
      t := u;
    }
  }

  // Such a rank does one more item, or leaves its phase.
  lemma OneStep<X(!new), W(!new)>(sys: System<X, W>, s: State<X>, r: nat) returns (u: State<X>, more: bool)
    requires Legal(sys) && Inv(sys, s) && Active(sys, s, r) && Slowest(sys, s, r)
    requires s.ranks[r].phase == Wait1 ==> Fresh(sys, s.ranks[r].done)
    ensures Reaches(sys, s, u) && Inv(sys, u) && OnlyRank(s, u, r)
    ensures more ==> u.ranks[r].done == s.ranks[r].done && u.ranks[r].phase == s.ranks[r].phase
    ensures more ==> |u.ranks[r].did| > |s.ranks[r].did|
    ensures more ==> forall i | i in u.ranks[r].did :: i < sys.calls[s.ranks[r].done].units + sys.world
    ensures !more ==> At(u, r, NextCall(s.ranks[r].done, s.ranks[r].phase), Following(sys.calls[s.ranks[r].done].algo, s.ranks[r].phase))
  {
    var a := SlowestSteps(sys, s, r);
    u, more := Do(sys, s, a), a.Work?;
    StepInv(sys, s, a);
    StepMoves(sys, s, a);
    ReachesSelf(sys, s);
    ReachesStep(sys, s, s, a);
    if more {
      assert RankOk(sys, u.ranks[r], r);
    }
  }

  // The first n ranks have gone on.
  ghost predicate SomeAt<X(!new), W(!new)>(sys: System<X, W>, s: State<X>, n: nat, c: nat, ph: Phase)
    requires c < |sys.calls|
  {
    |s.ranks| == sys.world
    && forall r: nat | r < sys.world ::
         if r < n then At(s, r, NextCall(c, ph), Following(sys.calls[c].algo, ph)) else At(s, r, c, ph)
  }

  lemma NextIsSlowest<X(!new), W(!new)>(sys: System<X, W>, s: State<X>, n: nat, c: nat, ph: Phase)
    requires 1 < sys.world && c < |sys.calls| && n < sys.world && SomeAt(sys, s, n, c, ph)
    ensures Active(sys, s, n) && Slowest(sys, s, n) && At(s, n, c, ph)
  {
    assert At(s, n, c, ph);
    forall q: nat | q < sys.world
      ensures s.ranks[n].done < s.ranks[q].done
              || (s.ranks[n].done == s.ranks[q].done && Order(s.ranks[n].phase) <= Order(s.ranks[q].phase))
    {
      assert if q < n then At(s, q, NextCall(c, ph), Following(sys.calls[c].algo, ph)) else At(s, q, c, ph);
    }
  }

  lemma OneMoreAt<X(!new), W(!new)>(sys: System<X, W>, s: State<X>, t: State<X>, n: nat, c: nat, ph: Phase)
    requires c < |sys.calls| && n < sys.world && SomeAt(sys, s, n, c, ph) && OnlyRank(s, t, n)
    requires At(t, n, NextCall(c, ph), Following(sys.calls[c].algo, ph))
    ensures SomeAt(sys, t, n + 1, c, ph)
  {
    forall r: nat | r < sys.world
      ensures if r < n + 1 then At(t, r, NextCall(c, ph), Following(sys.calls[c].algo, ph)) else At(t, r, c, ph)
    {
      assert if r < n then At(s, r, NextCall(c, ph), Following(sys.calls[c].algo, ph)) else At(s, r, c, ph);
    }
  }

  lemma {:induction false} AdvanceSome<X(!new), W(!new)>(sys: System<X, W>, s: State<X>, c: nat, ph: Phase, n: nat) returns (t: State<X>)
    requires Legal(sys) && Inv(sys, s) && c < |sys.calls| && n <= sys.world && AllAt(sys, s, c, ph)
    requires ph == Wait1 ==> Fresh(sys, c)
    ensures Reaches(sys, s, t) && Inv(sys, t) && SomeAt(sys, t, n, c, ph)
    decreases n
  {
    if n == 0 {
      ReachesSelf(sys, s);
      t := s;
    } else {
      var u := AdvanceSome(sys, s, c, ph, n - 1);
      NextIsSlowest(sys, u, n - 1, c, ph);
      t := Advance(sys, u, n - 1);
      OneMoreAt(sys, u, t, n - 1, c, ph);
      ReachesOn(sys, s, u, t);
    }
  }

  lemma AdvanceAll<X(!new), W(!new)>(sys: System<X, W>, s: State<X>, c: nat, ph: Phase) returns (t: State<X>)
    requires Legal(sys) && Inv(sys, s) && c < |sys.calls| && AllAt(sys, s, c, ph)
    requires ph == Wait1 ==> Fresh(sys, c)
    ensures Reaches(sys, s, t) && Inv(sys, t) && AllAt(sys, t, NextCall(c, ph), Following(sys.calls[c].algo, ph))
  {
    t := AdvanceSome(sys, s, c, ph, sys.world);
  }

  // All ranks get to the reduce of a call, and through a fresh call.
  lemma ToReduce<X(!new), W(!new)>(sys: System<X, W>, s: State<X>, c: nat) returns (t: State<X>)
    requires Legal(sys) && Inv(sys, s) && c < |sys.calls| && AllAt(sys, s, c, Publish)
    ensures Reaches(sys, s, t) && Inv(sys, t) && AllAt(sys, t, c, Reduce)
  {
    var u := AdvanceAll(sys, s, c, Publish);
    var v := AdvanceAll(sys, u, c, Arrive0);
    t := AdvanceAll(sys, v, c, Wait0);
    ReachesOn(sys, s, u, v);
    ReachesOn(sys, s, v, t);
  }

  lemma {:induction false} ToEnd<X(!new), W(!new)>(sys: System<X, W>, s: State<X>, c: nat, ph: Phase) returns (t: State<X>)
    requires Legal(sys) && Inv(sys, s) && c < |sys.calls| && Fresh(sys, c) && AllAt(sys, s, c, ph)
    ensures Reaches(sys, s, t) && Inv(sys, t) && AllAt(sys, t, c + 1, Publish)
    decreases 7 - Order(ph)
  {
    t := AdvanceAll(sys, s, c, ph);
    if ph != End {
      var u := t;
      t := ToEnd(sys, u, c, NextPhase(sys.calls[c].algo, ph));
      ReachesOn(sys, s, u, t);
    }
  }

  lemma {:induction false} ToCall<X(!new), W(!new)>(sys: System<X, W>, c: nat) returns (t: State<X>)
    requires Legal(sys) && c <= |sys.calls| && forall d: nat | d < c :: Fresh(sys, d)
    ensures Reaches(sys, Init(sys), t) && Inv(sys, t) && AllAt(sys, t, c, Publish)
    decreases c
  {
    if c == 0 {
      t := Init(sys);
      InitInv(sys);
      ReachesSelf(sys, t);
    } else {
      var s := ToCall(sys, c - 1);
      t := ToEnd(sys, s, c - 1, Publish);
      ReachesOn(sys, Init(sys), s, t);
    }
  }

  // --- The wait that comes too early -------------------------------------------------------

  // Rank r waits at the second barrier of call c, the others are about to reduce.
  ghost predicate Ahead<X(!new), W(!new)>(sys: System<X, W>, s: State<X>, c: nat, r: nat) {
    && |s.ranks| == sys.world && r < sys.world && c < |sys.calls| && Uses(sys.calls[c], 1)
    && s.ranks[r].done == c && s.ranks[r].phase == Wait1
    && forall q: nat | q < sys.world && q != r :: At(s, q, c, Reduce)
  }

  lemma GetAhead<X(!new), W(!new)>(sys: System<X, W>, c: nat, r: nat) returns (t: State<X>)
    requires Legal(sys) && c < |sys.calls| && Uses(sys.calls[c], 1) && r < sys.world && forall d: nat | d < c :: Fresh(sys, d)
    ensures Reaches(sys, Init(sys), t) && Inv(sys, t) && Ahead(sys, t, c, r) && t.ranks[r].did == {}
  {
    var s := ToCall(sys, c);
    var u := ToReduce(sys, s, c);
    t := LeaveBehind(sys, u, c, r);
    ReachesOn(sys, Init(sys), s, u);
    ReachesOn(sys, Init(sys), u, t);
  }

  lemma LeaveBehind<X(!new), W(!new)>(sys: System<X, W>, s: State<X>, c: nat, r: nat) returns (t: State<X>)
    requires Legal(sys) && c < |sys.calls| && Uses(sys.calls[c], 1) && r < sys.world && Inv(sys, s) && AllAt(sys, s, c, Reduce)
    ensures Reaches(sys, s, t) && Inv(sys, t) && Ahead(sys, t, c, r) && t.ranks[r].did == {}
  {
    AllEqual(sys, s, c, Reduce, r);
    var v := Advance(sys, s, r);
    assert Enabled(sys, v, Next(r));
    StepInv(sys, v, Next(r));
    StepMoves(sys, v, Next(r));
    t := Do(sys, v, Next(r));
    ReachesStep(sys, s, v, Next(r));
    forall q: nat | q < sys.world && q != r
      ensures At(t, q, c, Reduce)
    {
      assert At(s, q, c, Reduce);
    }
  }

  lemma AllEqual<X(!new), W(!new)>(sys: System<X, W>, s: State<X>, c: nat, ph: Phase, r: nat)
    requires 1 < sys.world && c < |sys.calls| && r < sys.world && AllAt(sys, s, c, ph)
    ensures Active(sys, s, r) && Slowest(sys, s, r) && At(s, r, c, ph)
  {
    assert At(s, r, c, ph);
    forall q: nat | q < sys.world
      ensures s.ranks[q].done == c && s.ranks[q].phase == ph
    {
      assert At(s, q, c, ph);
    }
  }

  // If the call is not fresh, every peer's flag already shows its generation.
  ghost predicate AllShow<X(!new), W(!new)>(sys: System<X, W>, s: State<X>, c: nat, r: nat) {
    forall q: nat | q < sys.world && q != r :: Flag(s, 1, Parity(c), q) == (c + 1) % GENERATIONS
  }

  lemma StaleShow<X(!new), W(!new)>(sys: System<X, W>, s: State<X>, c: nat, r: nat)
    requires Inv(sys, s) && Ahead(sys, s, c, r) && !Fresh(sys, c)
    ensures AllShow(sys, s, c, r)
  {
    forall q: nat | q < sys.world && q != r
      ensures Flag(s, 1, Parity(c), q) == (c + 1) % GENERATIONS
    {
      assert At(s, q, c, Reduce);
      StaleWait(sys, s, r, q);
    }
  }

  // So rank r's wait for peer q passes though q has not arrived.
  lemma PassesEarly<X(!new), W(!new)>(sys: System<X, W>, s: State<X>, c: nat, r: nat, q: nat)
    requires 1 < sys.world && Ahead(sys, s, c, r) && AllShow(sys, s, c, r) && q < sys.world && q != r && q !in s.ranks[r].did
    ensures Enabled(sys, s, Work(r, q))
    ensures var t := Do(sys, s, Work(r, q));
            Ahead(sys, t, c, r) && AllShow(sys, t, c, r) && t.ranks[r].did == s.ranks[r].did + {q} && !WaitsOk(sys, t)
  {
    assert Flag(s, 1, Parity(c), q) == (c + 1) % GENERATIONS;
    StepMoves(sys, s, Work(r, q));
    var t := Do(sys, s, Work(r, q));
    assert At(s, q, c, Reduce) && !WaitOk(sys, t, c, r, q);
    forall o: nat | o < sys.world && o != r
      ensures Flag(t, 1, Parity(c), o) == (c + 1) % GENERATIONS
      ensures At(t, o, c, Reduce)
    {
      assert Flag(s, 1, Parity(c), o) == (c + 1) % GENERATIONS && At(s, o, c, Reduce);
    }
  }

  lemma PassOne<X(!new), W(!new)>(sys: System<X, W>, s: State<X>, u: State<X>, c: nat, r: nat, q: nat) returns (t: State<X>)
    requires Reaches(sys, s, u) && 1 < sys.world && Ahead(sys, u, c, r) && AllShow(sys, u, c, r)
    requires q < sys.world && q != r && q !in u.ranks[r].did
    ensures Reaches(sys, s, t) && Ahead(sys, t, c, r) && AllShow(sys, t, c, r) && t.ranks[r].did == u.ranks[r].did + {q}
  {
    PassesEarly(sys, u, c, r, q);
    ReachesStep(sys, s, u, Work(r, q));
    t := Do(sys, u, Work(r, q));
  }

  // The peers below n.
  ghost predicate PassedTo(did: set<nat>, r: nat, n: nat) {
    forall q: nat :: q in did <==> q < n && q != r
  }

  lemma PassedNext(did: set<nat>, r: nat, n: nat)
    requires PassedTo(did, r, n) && n != r
    ensures PassedTo(did + {n}, r, n + 1)
  {
  }

  // And its waits for all peers.
  lemma {:induction false} PassesAll<X(!new), W(!new)>(sys: System<X, W>, s: State<X>, c: nat, r: nat, n: nat) returns (t: State<X>)
    requires 1 < sys.world && Ahead(sys, s, c, r) && AllShow(sys, s, c, r) && n <= sys.world && s.ranks[r].did == {}
    ensures Reaches(sys, s, t) && Ahead(sys, t, c, r) && AllShow(sys, t, c, r)
    ensures PassedTo(t.ranks[r].did, r, n)
    decreases n
  {
    if n == 0 {
      ReachesSelf(sys, s);
      t := s;
    } else {
      var u := PassesAll(sys, s, c, r, n - 1);
      if n - 1 == r {
        t := u;
      } else {
        t := PassOne(sys, s, u, c, r, n - 1);
        PassedNext(u.ranks[r].did, r, n - 1);
      }
    }
  }

  // Rank r is about to copy the units of call c that its peers have not reduced yet.
  ghost predicate GathersUnreduced<X(!new), W(!new)>(sys: System<X, W>, s: State<X>, c: nat, r: nat)
    requires c < |sys.calls| && |s.ranks| == sys.world && r < sys.world
  {
    && At(s, r, c, Gather)
    && forall i: nat, q: nat | InPhase(sys.world, sys.calls[c], r, Gather, i) && q < sys.world && Owns(sys.calls[c], q, i) ::
         q != r && !Did(s, q, c, Reduce, i)
  }

  // At the first call that is not fresh, any rank can gather before its peers have reduced.
  lemma EarlyGather<X(!new), W(!new)>(sys: System<X, W>, c: nat, r: nat) returns (t: State<X>)
    requires Legal(sys) && c < |sys.calls| && r < sys.world && !Fresh(sys, c) && forall d: nat | d < c :: Fresh(sys, d)
    ensures Reaches(sys, Init(sys), t) && |t.ranks| == sys.world && GathersUnreduced(sys, t, c, r)
  {
    var s := GetAhead(sys, c, r);
    StaleShow(sys, s, c, r);
    var u := PassesAll(sys, s, c, r, sys.world);
    ReachesOn(sys, Init(sys), s, u);
    assert Enabled(sys, u, Next(r));
    StepMoves(sys, u, Next(r));
    t := Do(sys, u, Next(r));
    ReachesStep(sys, Init(sys), u, Next(r));
    forall i: nat, q: nat | InPhase(sys.world, sys.calls[c], r, Gather, i) && q < sys.world && Owns(sys.calls[c], q, i)
      ensures q != r && !Did(t, q, c, Reduce, i)
    {
      assert q != r ==> At(u, q, c, Reduce);
    }
  }

  lemma {:induction false} FirstStale<X(!new), W(!new)>(sys: System<X, W>, c: nat) returns (d: nat)
    requires c < |sys.calls| && !Fresh(sys, c)
    ensures d <= c && !Fresh(sys, d) && forall e: nat | e < d :: Fresh(sys, e)
    decreases c
  {
    if e: nat :| e < c && !Fresh(sys, e) {
      d := FirstStale(sys, e);
    } else {
      d := c;
    }
  }

  ghost predicate AllFresh<X(!new), W(!new)>(sys: System<X, W>) {
    forall c: nat | c < |sys.calls| :: Fresh(sys, c)
  }

  // In every run each wait that was served was served by this call's arrival.
  ghost predicate NoEarlyWait<X(!new), W(!new)>(sys: System<X, W>) {
    forall run, t :: Runs(sys, Init(sys), run, t) ==> WaitsOk(sys, t)
  }

  // That is so exactly when every call is fresh.
  lemma SafeIffFresh<X(!new), W(!new)>(sys: System<X, W>)
    requires Legal(sys)
    ensures NoEarlyWait(sys) <==> AllFresh(sys)
  {
    if AllFresh(sys) {
      forall run, t | Runs(sys, Init(sys), run, t)
        ensures WaitsOk(sys, t)
      {
        InitInv(sys);
        RunInv(sys, Init(sys), run, t);
      }
    } else {
      var c: nat :| c < |sys.calls| && !Fresh(sys, c);
      var run, t := UnsafeRun(sys, c);
      assert !(Runs(sys, Init(sys), run, t) ==> WaitsOk(sys, t));
    }
  }

  lemma UnsafeRun<X(!new), W(!new)>(sys: System<X, W>, c: nat) returns (run: seq<Action>, t: State<X>)
    requires Legal(sys) && c < |sys.calls| && !Fresh(sys, c)
    ensures Runs(sys, Init(sys), run, t) && !WaitsOk(sys, t)
  {
    var d := FirstStale(sys, c);
    var s := GetAhead(sys, d, 0);
    StaleShow(sys, s, d, 0);
    PassesEarly(sys, s, d, 0, 1);
    t := Do(sys, s, Work(0, 1));
    ReachesStep(sys, Init(sys), s, Work(0, 1));
    run :| Runs(sys, Init(sys), run, t);
  }

  // So it holds of any fewer than 2^32 calls, and with it everything EveryRunSafe says.
  lemma FirstCallsSafe<X(!new), W(!new)>(sys: System<X, W>)
    requires Legal(sys) && |sys.calls| < 0x1_0000_0000
    ensures Ok(sys) && NoEarlyWait(sys)
  {
    forall c: nat | c < |sys.calls|
      ensures Fresh(sys, c)
    {
      FreshAtFirst(sys, c);
    }
    SafeIffFresh(sys);
  }

  // --- The input that shows it ---------------------------------------------------------------

  // One-shots up to the last generation, then a two-shot of one unit per rank.
  function LateTwoShot(): System<int, int> {
    System(2, Sums(0, (x: int) => x, (a: int, b: int) => a + b, (x: int) => x),
           seq(GENERATIONS, c => if c + 1 == GENERATIONS then Call(TwoShot, 2, [0, 1, 2], (r: nat, i: nat) => r + i)
                                 else Call(OneShot, 1, [0, 0, 1], (r: nat, i: nat) => r + i)))
  }

  lemma {:induction false} NoTwoShotYet<X(!new), W(!new)>(sys: System<X, W>, n: nat, p: nat)
    requires n <= |sys.calls| && forall c: nat | c < n :: sys.calls[c].algo == OneShot
    ensures Last(sys, 1, n, p) == 0
  {
    if n > 0 {
      NoTwoShotYet(sys, n - 1, p);
    }
  }

  // Its generation is 0, what the flags of the second barrier hold from the start.
  lemma LateTwoShotStale() returns (t: State<int>)
    ensures var sys := LateTwoShot();
            && Legal(sys) && !Fresh(sys, 0xFFFF_FFFF) && (forall d: nat | d < 0xFFFF_FFFF :: Fresh(sys, d))
            && Reaches(sys, Init(sys), t) && |t.ranks| == 2 && GathersUnreduced(sys, t, 0xFFFF_FFFF, 0)
            && InPhase(2, sys.calls[0xFFFF_FFFF], 0, Gather, 1) && !Did(t, 1, 0xFFFF_FFFF, Reduce, 1)
  {
    var sys := LateTwoShot();
    var c: nat := GENERATIONS - 1;
    assert forall d: nat | d < c :: sys.calls[d].algo == OneShot;
    NoTwoShotYet(sys, c, 0);
    t := EarlyGather(sys, c, 0);
    assert Owns(sys.calls[c], 1, 1);
  }
}
