// The streams of EpochStreams with flags as the device holds them: a flag is a 32-bit word
// that reads back signed. Below 2^31 calls that is the same machine; at call 2^31 it fails.
module EpochWords {
  import opened EpochStreams

  const WORDS := 0x1_0000_0000
  const HALF := 0x8000_0000

  // What a 32-bit word reads back as, in two's complement, when n was stored.
  function Signed(n: nat): (x: int)
    ensures -0x8000_0000 <= x < 0x8000_0000 && (n - x) % 0x1_0000_0000 == 0
  {
    if n % WORDS < HALF then n % WORDS else n % WORDS - WORDS
  }

  // How the epoch enters a wait's comparison: as the number it is, or cut to a word as the
  // flag was.
  datatype Width = Whole | Cut

  function Wanted(width: Width, epoch: nat): int {
    match width
    case Whole => epoch
    case Cut => Signed(epoch)
  }

  ghost predicate WordEnabled<V(!new)>(sys: System<V>, width: Width, s: State<V>, r: nat) {
    Ready(sys, s, r) && (AtWait(sys, s, r) ==> Signed(WaitedFlag(sys, s, r)) >= Wanted(width, s.ranks[r].done + 1))
  }

  ghost predicate WordRuns<V(!new)>(sys: System<V>, width: Width, s: State<V>, run: seq<nat>, t: State<V>)
    decreases |run|
  {
    if run == [] then t == s else WordEnabled(sys, width, s, run[0]) && WordRuns(sys, width, Do(sys, s, run[0]), run[1..], t)
  }

  // A wait that passes does so by this call's setting of its flag.
  ghost predicate WordSafe<V(!new)>(sys: System<V>, width: Width, s: State<V>, r: nat) {
    WordEnabled(sys, width, s, r) && AtWait(sys, s, r) ==>
      WasSet(sys, s, s.ranks[r].done, r, Now(sys, s, r).op(r, s.ranks[r].pc).f)
  }

  // Some rank can go on while one has calls left.
  ghost predicate WordLive<V(!new)>(sys: System<V>, width: Width, s: State<V>) {
    (exists q: nat :: Active(sys, s, q)) ==> exists r: nat :: WordEnabled(sys, width, s, r)
  }

  ghost predicate Sound<V(!new)>(sys: System<V>, width: Width) {
    forall run, t :: WordRuns(sys, width, Init(sys), run, t) ==>
      WordLive(sys, width, t) && forall r: nat :: WordSafe(sys, width, t, r)
  }

  // --- Below 2^31 calls ----------------------------------------------------------------------

  // No flag is above the number of calls, in any reachable state.
  lemma FlagBound<V(!new)>(sys: System<V>, s: State<V>, r: nat, f: nat)
    requires FlagsOk(sys, s) && r < sys.world
    ensures Flag(s, r, f) <= |sys.calls|
  {
    assert FlagOk(sys, s, r, f);
  }

  lemma SmallWord(n: nat)
    requires n < HALF
    ensures Signed(n) == n
  {
  }

  // There the signed comparison is the comparison of the numbers.
  lemma SameStep<V(!new)>(sys: System<V>, width: Width, s: State<V>, r: nat)
    requires FlagsOk(sys, s) && |sys.calls| < HALF
    ensures WordEnabled(sys, width, s, r) <==> Enabled(sys, s, r)
  {
    if AtWait(sys, s, r) {
      FlagBound(sys, s, r, Now(sys, s, r).op(r, s.ranks[r].pc).f);
      SmallWord(WaitedFlag(sys, s, r));
      SmallWord(s.ranks[r].done + 1);
    }
  }

  lemma {:induction false} SameRuns<V(!new)>(sys: System<V>, width: Width, s: State<V>, run: seq<nat>, t: State<V>)
    requires sys.Ok() && |sys.calls| < HALF && Inv(sys, s)
    ensures WordRuns(sys, width, s, run, t) <==> Runs(sys, s, run, t)
    decreases |run|
  {
    if run != [] {
      SameStep(sys, width, s, run[0]);
      if Enabled(sys, s, run[0]) {
        StepInv(sys, s, run[0]);
        SameRuns(sys, width, Do(sys, s, run[0]), run[1..], t);
      }
    }
  }

  lemma WordRunInv<V(!new)>(sys: System<V>, width: Width, run: seq<nat>, t: State<V>)
    requires sys.Ok() && |sys.calls| < HALF && WordRuns(sys, width, Init(sys), run, t)
    ensures Runs(sys, Init(sys), run, t) && Inv(sys, t)
  {
    InitInv(sys);
    SameRuns(sys, width, Init(sys), run, t);
    RunInv(sys, Init(sys), run, t);
  }

  lemma SoundBelow<V(!new)>(sys: System<V>, width: Width)
    requires sys.Ok() && |sys.calls| < HALF
    ensures Sound(sys, width)
  {
    forall run, t | WordRuns(sys, width, Init(sys), run, t)
      ensures WordLive(sys, width, t) && forall r: nat :: WordSafe(sys, width, t, r)
    {
      WordRunInv(sys, width, run, t);
      if q: nat :| Active(sys, t, q) {
        var r := NoDeadlock(sys, run, t, q);
        SameStep(sys, width, t, r);
      }
      forall r: nat
        ensures WordSafe(sys, width, t, r)
      {
        SameStep(sys, width, t, r);
        if WordEnabled(sys, width, t, r) && AtWait(sys, t, r) {
          EveryRunSafe(sys, run, t, r);
        }
      }
    }
  }

  // --- At call 2^31 ---------------------------------------------------------------------------

  lemma {:induction false} WordRunsConcat<V(!new)>(sys: System<V>, width: Width, s: State<V>, a: seq<nat>, t: State<V>, b: seq<nat>, u: State<V>)
    requires WordRuns(sys, width, s, a, t) && WordRuns(sys, width, t, b, u)
    ensures WordRuns(sys, width, s, a + b, u)
    decreases |a|
  {
    if a == [] {
      assert a + b == b;
    } else {
      WordRunsConcat(sys, width, Do(sys, s, a[0]), a[1..], t, b, u);
      assert (a + b)[0] == a[0] && (a + b)[1..] == a[1..] + b;
    }
  }

  lemma OneWordStep<V(!new)>(sys: System<V>, width: Width, s: State<V>, r: nat)
    requires WordEnabled(sys, width, s, r)
    ensures WordRuns(sys, width, s, [r], Do(sys, s, r))
  {
    assert [r][1..] == [];
  }

  // No rank is past the start of call c.
  ghost predicate NotPast<V(!new)>(sys: System<V>, s: State<V>, c: nat) {
    |s.ranks| == sys.world && forall r: nat | r < sys.world :: s.ranks[r].done < c || (s.ranks[r].done == c && s.ranks[r].pc == 0)
  }

  ghost predicate AllAt<V(!new)>(sys: System<V>, s: State<V>, c: nat) {
    |s.ranks| == sys.world && forall r: nat | r < sys.world :: s.ranks[r].done == c && s.ranks[r].pc == 0
  }

  lemma EarlyFlag<V(!new)>(sys: System<V>, s: State<V>, c: nat, r: nat, f: nat)
    requires FlagsOk(sys, s) && r < sys.world && NotPast(sys, s, c) && sys.Ok()
    ensures Flag(s, r, f) <= c
  {
    assert FlagOk(sys, s, r, f);
    if Flag(s, r, f) > 0 {
      var e := Flag(s, r, f) - 1;
      assert sys.PlanOk(sys.calls[e]) && sys.SetOk(sys.calls[e], r, f);
    }
  }

  // The slowest rank goes on until all stand at the start of call c.
  lemma {:induction false} ReachCall<V(!new)>(sys: System<V>, width: Width, s: State<V>, c: nat) returns (run: seq<nat>, t: State<V>)
    requires sys.Ok() && 0 < sys.world && Inv(sys, s) && c < HALF && c <= |sys.calls| && NotPast(sys, s, c)
    ensures WordRuns(sys, width, s, run, t) && AllAt(sys, t, c)
    decreases StepsLeft(sys, s.ranks, sys.world)
  {
    var r := SomeSlowest(sys, s, sys.world);
    if s.ranks[r].done == c {
      run, t := [], s;
    } else {
      SlowestSteps(sys, s, r);
      var u := EarlyStep(sys, width, s, c, r);
      LeftNonNegative(sys, s, sys.world);
      StepShortens(sys, s, r);
      LeftNonNegative(sys, u, sys.world);
      var rest;
      rest, t := ReachCall(sys, width, u, c);
      OneWordStep(sys, width, s, r);
      WordRunsConcat(sys, width, s, [r], u, rest, t);
      run := [r] + rest;
    }
  }

  lemma EarlyStep<V(!new)>(sys: System<V>, width: Width, s: State<V>, c: nat, r: nat) returns (u: State<V>)
    requires sys.Ok() && Inv(sys, s) && c < HALF && NotPast(sys, s, c) && Enabled(sys, s, r) && s.ranks[r].done < c
    ensures WordEnabled(sys, width, s, r) && u == Do(sys, s, r) && Inv(sys, u) && NotPast(sys, u, c)
  {
    if AtWait(sys, s, r) {
      EarlyFlag(sys, s, c, r, Now(sys, s, r).op(r, s.ranks[r].pc).f);
      SmallWord(WaitedFlag(sys, s, r));
      SmallWord(s.ranks[r].done + 1);
    }
    u := Do(sys, s, r);
    StepInv(sys, s, r);
    StepIsOneMore(sys, s, r);
  }

  // A rank opens a call by setting n flags and then waits for one that another rank sets.
  ghost predicate Opens<V(!new)>(p: Plan<V>, r: nat, n: nat) {
    n < p.len && (forall i: nat | i < n :: p.op(r, i).Set?) && p.op(r, n).Wait? && p.setter(r, p.op(r, n).f) != r
  }

  ghost predicate Handshakes<V(!new)>(sys: System<V>, p: Plan<V>) {
    forall r: nat | r < sys.world :: OpensCall(p, r)
  }

  ghost predicate OpensCall<V(!new)>(p: Plan<V>, r: nat) {
    exists n: nat :: Opens(p, r, n)
  }

  // Only rank r has moved, to operation n.
  ghost predicate MovedTo<V(!new)>(s: State<V>, t: State<V>, r: nat, n: nat) {
    r < |s.ranks| && t.ranks == s.ranks[r := s.ranks[r].(pc := n)]
  }

  lemma {:induction false} Lead<V(!new)>(sys: System<V>, width: Width, s: State<V>, r: nat, n: nat) returns (run: seq<nat>, t: State<V>)
    requires Active(sys, s, r) && Opens(Now(sys, s, r), r, n) && s.ranks[r].pc <= n
    ensures WordRuns(sys, width, s, run, t) && MovedTo(s, t, r, n)
    decreases n - s.ranks[r].pc
  {
    if s.ranks[r].pc == n {
      run, t := [], s;
      assert s.ranks[r := s.ranks[r]] == s.ranks;
    } else {
      assert Now(sys, s, r).op(r, s.ranks[r].pc).Set?;
      var u := Do(sys, s, r);
      OneWordStep(sys, width, s, r);
      var rest;
      rest, t := Lead(sys, width, u, r, n);
      WordRunsConcat(sys, width, s, [r], u, rest, t);
      run := [r] + rest;
      assert t.ranks == s.ranks[r := s.ranks[r].(pc := n)];
    }
  }

  // The first k ranks stand at their first wait of call c, the others at its start.
  ghost predicate Led<V(!new)>(sys: System<V>, s: State<V>, c: nat, k: nat) {
    |s.ranks| == sys.world && c < |sys.calls|
    && forall r: nat | r < sys.world :: s.ranks[r].done == c && if r < k then Opens(sys.calls[c], r, s.ranks[r].pc) else s.ranks[r].pc == 0
  }

  lemma {:induction false} LeadAll<V(!new)>(sys: System<V>, width: Width, s: State<V>, c: nat, k: nat) returns (run: seq<nat>, t: State<V>)
    requires c < |sys.calls| && AllAt(sys, s, c) && Handshakes(sys, sys.calls[c]) && k <= sys.world
    ensures WordRuns(sys, width, s, run, t) && Led(sys, t, c, k)
    decreases k
  {
    if k == 0 {
      run, t := [], s;
    } else {
      var a, u := LeadAll(sys, width, s, c, k - 1);
      var r: nat := k - 1;
      assert OpensCall(sys.calls[c], r);
      var n: nat :| Opens(sys.calls[c], r, n);
      var b;
      b, t := Lead(sys, width, u, r, n);
      WordRunsConcat(sys, width, s, a, u, b, t);
      run := a + b;
    }
  }

  // The epoch of call number 2^31 - 1 is 2^31: no word reads back as large, and every word
  // reads back as at least what it is cut to.
  lemma HalfWord(n: nat)
    ensures Signed(n) < Wanted(Whole, HALF) && Signed(n) >= Wanted(Cut, HALF)
  {
  }

  // With the epoch whole, every rank comes to wait for ever; with it cut, the first wait
  // passes at once.
  lemma UnsoundFrom<V(!new)>(sys: System<V>, width: Width) returns (run: seq<nat>, t: State<V>, r: nat)
    requires sys.Ok() && 1 < sys.world && HALF <= |sys.calls| && Handshakes(sys, sys.calls[HALF - 1])
    ensures WordRuns(sys, width, Init(sys), run, t) && Active(sys, t, r) && t.ranks[r].done == HALF - 1
    ensures width == Whole ==> forall q: nat :: !WordEnabled(sys, width, t, q)
    ensures width == Cut ==> !WordSafe(sys, width, t, r)
  {
    InitInv(sys);
    var a, s := ReachCall(sys, width, Init(sys), HALF - 1);
    var b;
    b, t := LeadAll(sys, width, s, HALF - 1, if width == Whole then sys.world else 1);
    run, r := a + b, 0;
    WordRunsConcat(sys, width, Init(sys), a, s, b, t);
    if width == Whole {
      forall q: nat
        ensures !WordEnabled(sys, width, t, q)
      {
        if Active(sys, t, q) {
          HalfWord(WaitedFlag(sys, t, q));
        }
      }
    } else {
      HalfWord(WaitedFlag(sys, t, 0));
    }
  }

  // Waits are served by their own call and no run gets stuck, exactly below 2^31 calls.
  lemma SoundIffBelow<V(!new)>(sys: System<V>, width: Width)
    requires sys.Ok() && 1 < sys.world && forall c | 0 <= c < |sys.calls| :: Handshakes(sys, sys.calls[c])
    ensures Sound(sys, width) <==> |sys.calls| < HALF
  {
    if |sys.calls| < HALF {
      SoundBelow(sys, width);
    } else {
      var run, t, r := UnsoundFrom(sys, width);
      assert !WordLive(sys, width, t) || !WordSafe(sys, width, t, r);
    }
  }
}
