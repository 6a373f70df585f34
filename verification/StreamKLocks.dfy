// The CTAs of a stream-K grid running at once: indices handed out in start
// order, a limited number of CTAs resident, and lock words that order the
// sharers of a tile.
module StreamKLocks {
  import opened Arith
  import opened StreamK
  import opened StreamKCoverage

  // A grid's schedules with the sharers of every part-2 tile laid out: CTAs
  // first[col]..last[col] share tile base + col and use word lock[col].
  datatype System = System(grid: nat, base: int, sched: seq<seq<Slice>>,
                           first: seq<int>, last: seq<int>, lock: seq<int>)
  {
    ghost predicate SharedTile(col: int) {
      0 <= col < |first| == |last| == |lock| && first[col] < last[col]
    }

    ghost predicate Shares(c: int, col: int) {
      SharedTile(col) && first[col] <= c <= last[col]
    }

    // Slice i of CTA c is its part of shared tile col.
    ghost predicate SliceOf(c: int, i: int, col: int) {
      0 <= c < |sched| && 0 <= i < |sched[c]| && sched[c][i].count > 1 && sched[c][i].tile == base + col
    }

    ghost predicate Ok() {
      && 0 < grid == |sched| && |first| == |last| == |lock|
      && (forall col :: SharedTile(col) ==> 0 <= first[col] && last[col] < grid && 0 <= lock[col] < grid)
      && (forall col, other :: SharedTile(col) && SharedTile(other) && col != other ==> lock[col] != lock[other])
      && (forall c, i, col :: SliceOf(c, i, col) ==>
            && Shares(c, col) && sched[c][i].lock == lock[col]
            && sched[c][i].idx == last[col] - c && sched[c][i].count == last[col] - first[col] + 1)
      && (forall c, i, j, col :: SliceOf(c, i, col) && SliceOf(c, j, col) ==> i == j)
      && (forall c, col :: Shares(c, col) ==> exists i :: SliceOf(c, i, col))
    }
  }

  datatype Status = Unstarted | Running(pc: nat, held: bool) | Done

  // locks[grid] is the start counter. order[col] lists the CTAs that have
  // added their part of tile col, in turn; it records history only.
  datatype State = State(locks: seq<int>, cta: seq<Status>, order: seq<seq<int>>)

  datatype Action = Start | Work(c: int) | Acquire(c: int) | Release(c: int) | Exit(c: int)

  ghost function Init(sys: System): State {
    State(seq(sys.grid + 1, i => 0), seq(sys.grid, i => Unstarted), seq(|sys.first|, i => []))
  }

  ghost predicate Shaped(sys: System, s: State) {
    |s.locks| == sys.grid + 1 && |s.cta| == sys.grid && |s.order| == |sys.first|
  }

  ghost function Resident(sys: System, s: State): set<int> {
    set c: int | 0 <= c < |s.cta| && s.cta[c].Running?
  }

  // The slice CTA c is at.
  ghost predicate At(sys: System, s: State, c: int) {
    && 0 <= c < |s.cta| == |sys.sched| && s.cta[c].Running? && s.cta[c].pc < |sys.sched[c]|
  }

  ghost predicate AtShared(sys: System, s: State, c: int) {
    At(sys, s, c) && sys.sched[c][s.cta[c].pc].count > 1
  }

  // limit: how many CTAs the device holds at once.
  ghost predicate Enabled(sys: System, limit: nat, s: State, a: Action)
    requires sys.Ok() && Shaped(sys, s)
  {
    match a
    case Start =>
      |Resident(sys, s)| < limit && 0 <= s.locks[sys.grid] < sys.grid
      && s.cta[sys.grid - 1 - s.locks[sys.grid]].Unstarted?
    case Work(c) => At(sys, s, c) && !AtShared(sys, s, c)
    case Acquire(c) =>
      AtShared(sys, s, c) && !s.cta[c].held
      && var slice := sys.sched[c][s.cta[c].pc];
      0 <= slice.lock < sys.grid && s.locks[slice.lock] == slice.idx
    case Release(c) =>
      AtShared(sys, s, c) && s.cta[c].held && 0 <= sys.sched[c][s.cta[c].pc].lock < sys.grid
      && 0 <= sys.sched[c][s.cta[c].pc].tile - sys.base < |s.order|
    case Exit(c) =>
      0 <= c < sys.grid && s.cta[c].Running? && s.cta[c].pc >= |sys.sched[c]|
  }

  ghost function Do(sys: System, limit: nat, s: State, a: Action): State
    requires sys.Ok() && Shaped(sys, s) && Enabled(sys, limit, s, a)
  {
    match a
    case Start =>
      // atomicInc wraps the counter to 0 at the grid's last CTA.
      var old_ := s.locks[sys.grid];
      s.(locks := s.locks[sys.grid := if old_ >= sys.grid - 1 then 0 else old_ + 1],
         cta := s.cta[sys.grid - 1 - old_ := Running(0, false)])
    case Work(c) => s.(cta := s.cta[c := Running(s.cta[c].pc + 1, false)])
    case Acquire(c) => s.(cta := s.cta[c := Running(s.cta[c].pc, true)])
    case Release(c) =>
      var slice := sys.sched[c][s.cta[c].pc];
      var last := slice.idx == slice.count - 1;
      var col := slice.tile - sys.base;
      State(s.locks[slice.lock := if last then 0 else s.locks[slice.lock] + 1],
            s.cta[c := Running(s.cta[c].pc + 1, false)],
            s.order[col := s.order[col] + [c]])
    case Exit(c) => s.(cta := s.cta[c := Done])
  }

  // --- Invariant -----------------------------------------------------------------

  // CTA c has added its part of tile col.
  ghost predicate Passed(sys: System, s: State, c: int, col: int)
    requires Shaped(sys, s) && 0 <= c < sys.grid
  {
    match s.cta[c]
    case Unstarted => false
    case Running(pc, _) => exists i :: i < pc && sys.SliceOf(c, i, col)
    case Done => true
  }

  // n CTAs have started, the highest ones.
  ghost predicate Handed(sys: System, s: State, n: nat)
    requires Shaped(sys, s)
  {
    && n <= sys.grid
    && s.locks[sys.grid] == (if n == sys.grid then 0 else n)
    && (forall c :: 0 <= c < sys.grid ==> (s.cta[c].Unstarted? <==> c < sys.grid - n))
  }

  // Tile col was reduced by its |order| highest CTAs, in falling order, and its
  // lock word counts them until the last resets it.
  ghost predicate TileOk(sys: System, s: State, col: int)
    requires sys.Ok() && Shaped(sys, s) && sys.SharedTile(col)
  {
    var n := |s.order[col]|;
    && n <= sys.last[col] - sys.first[col] + 1
    && (forall j :: 0 <= j < n ==> s.order[col][j] == sys.last[col] - j)
    && (forall c :: sys.Shares(c, col) ==> (Passed(sys, s, c, col) <==> c > sys.last[col] - n))
    && s.locks[sys.lock[col]] == (if n == sys.last[col] - sys.first[col] + 1 then 0 else n)
  }

  ghost predicate HasTurn(sys: System, s: State, c: int)
    requires Shaped(sys, s)
  {
    AtShared(sys, s, c)
    && var slice := sys.sched[c][s.cta[c].pc];
    0 <= slice.lock < sys.grid && s.locks[slice.lock] == slice.idx
  }

  ghost predicate LockUsed(sys: System, w: int) {
    exists col :: sys.SharedTile(col) && sys.lock[col] == w
  }

  ghost predicate Inv(sys: System, s: State)
    requires sys.Ok()
  {
    && Shaped(sys, s)
    && (exists n: nat :: Handed(sys, s, n))
    && (forall col :: sys.SharedTile(col) ==> TileOk(sys, s, col))
    && (forall c :: 0 <= c < sys.grid && s.cta[c].Running? ==> s.cta[c].pc <= |sys.sched[c]|)
    && (forall c :: 0 <= c < sys.grid && s.cta[c].Running? && s.cta[c].held ==> HasTurn(sys, s, c))
    && (forall w :: 0 <= w < sys.grid && !LockUsed(sys, w) ==> s.locks[w] == 0)
  }

  lemma InitInv(sys: System)
    requires sys.Ok()
    ensures Inv(sys, Init(sys))
  {
    assert Handed(sys, Init(sys), 0);
  }

  // The shared tile CTA c is at.
  lemma CurrentTile(sys: System, s: State, c: int) returns (col: int)
    requires sys.Ok() && Inv(sys, s) && AtShared(sys, s, c)
    ensures sys.SliceOf(c, s.cta[c].pc, col) && sys.Shares(c, col)
    ensures var slice := sys.sched[c][s.cta[c].pc];
            col == slice.tile - sys.base && slice.lock == sys.lock[col]
            && slice.idx == sys.last[col] - c && slice.count == sys.last[col] - sys.first[col] + 1
    ensures !Passed(sys, s, c, col)
  {
    col := sys.sched[c][s.cta[c].pc].tile - sys.base;
    assert sys.SliceOf(c, s.cta[c].pc, col);
  }

  // Only CTA c's own step changes what it has passed.
  lemma PassedFrame(sys: System, s: State, t: State, c: int, col: int)
    requires Shaped(sys, s) && Shaped(sys, t) && 0 <= c < sys.grid && s.cta[c] == t.cta[c]
    ensures Passed(sys, s, c, col) <==> Passed(sys, t, c, col)
  {
  }

  lemma StartInv(sys: System, limit: nat, s: State)
    requires sys.Ok() && Inv(sys, s) && Enabled(sys, limit, s, Start)
    ensures Inv(sys, Do(sys, limit, s, Start))
  {
    var t := Do(sys, limit, s, Start);
    var n: nat :| Handed(sys, s, n);
    assert Handed(sys, t, n + 1);
  }

  lemma WorkInv(sys: System, limit: nat, s: State, c: int)
    requires sys.Ok() && Inv(sys, s) && Enabled(sys, limit, s, Work(c))
    ensures Inv(sys, Do(sys, limit, s, Work(c)))
  {
    var t := Do(sys, limit, s, Work(c));
    var n: nat :| Handed(sys, s, n);
    assert Handed(sys, t, n);
    forall col | sys.SharedTile(col)
      ensures TileOk(sys, t, col)
    {
      assert TileOk(sys, s, col);
      forall d | sys.Shares(d, col)
        ensures Passed(sys, t, d, col) <==> Passed(sys, s, d, col)
      {
        if d == c {
          assert !sys.SliceOf(c, s.cta[c].pc, col);
        } else {
          PassedFrame(sys, s, t, d, col);
        }
      }
    }
  }

  lemma AcquireInv(sys: System, limit: nat, s: State, c: int)
    requires sys.Ok() && Inv(sys, s) && Enabled(sys, limit, s, Acquire(c))
    ensures Inv(sys, Do(sys, limit, s, Acquire(c)))
  {
    var t := Do(sys, limit, s, Acquire(c));
    var n: nat :| Handed(sys, s, n);
    assert Handed(sys, t, n);
    forall col | sys.SharedTile(col)
      ensures TileOk(sys, t, col)
    {
      assert TileOk(sys, s, col);
      forall d | sys.Shares(d, col)
        ensures Passed(sys, t, d, col) <==> Passed(sys, s, d, col)
      {
        if d != c {
          PassedFrame(sys, s, t, d, col);
        }
      }
    }
  }

  lemma ExitInv(sys: System, limit: nat, s: State, c: int)
    requires sys.Ok() && Inv(sys, s) && Enabled(sys, limit, s, Exit(c))
    ensures Inv(sys, Do(sys, limit, s, Exit(c)))
  {
    var t := Do(sys, limit, s, Exit(c));
    var n: nat :| Handed(sys, s, n);
    assert Handed(sys, t, n);
    forall col | sys.SharedTile(col)
      ensures TileOk(sys, t, col)
    {
      assert TileOk(sys, s, col);
      forall d | sys.Shares(d, col)
        ensures Passed(sys, t, d, col) <==> Passed(sys, s, d, col)
      {
        if d == c {
          var i :| sys.SliceOf(c, i, col);
        } else {
          PassedFrame(sys, s, t, d, col);
        }
      }
    }
  }

  // The CTA whose turn it is, is the next one down.
  lemma TurnIsNext(sys: System, s: State, c: int, col: int)
    requires sys.Ok() && Inv(sys, s) && AtShared(sys, s, c) && s.cta[c].held
    requires sys.SliceOf(c, s.cta[c].pc, col) && sys.Shares(c, col)
    ensures c == sys.last[col] - |s.order[col]|
  {
    var col' := CurrentTile(sys, s, c);
    assert HasTurn(sys, s, c) && TileOk(sys, s, col);
  }

  lemma ReleaseTile(sys: System, limit: nat, s: State, c: int, col: int)
    requires sys.Ok() && Inv(sys, s) && Enabled(sys, limit, s, Release(c))
    requires sys.SharedTile(col)
    ensures TileOk(sys, Do(sys, limit, s, Release(c)), col)
  {
    var t := Do(sys, limit, s, Release(c));
    var mine := CurrentTile(sys, s, c);
    TurnIsNext(sys, s, c, mine);
    assert TileOk(sys, s, col) && TileOk(sys, s, mine);
    forall d | sys.Shares(d, col)
      ensures Passed(sys, t, d, col) <==> Passed(sys, s, d, col) || (d == c && col == mine)
    {
      if d != c {
        PassedFrame(sys, s, t, d, col);
      } else {
        assert sys.SliceOf(c, s.cta[c].pc, mine);
      }
    }
  }

  lemma ReleaseInv(sys: System, limit: nat, s: State, c: int)
    requires sys.Ok() && Inv(sys, s) && Enabled(sys, limit, s, Release(c))
    ensures Inv(sys, Do(sys, limit, s, Release(c)))
  {
    var t := Do(sys, limit, s, Release(c));
    var n: nat :| Handed(sys, s, n);
    assert Handed(sys, t, n);
    var mine := CurrentTile(sys, s, c);
    forall col | sys.SharedTile(col)
      ensures TileOk(sys, t, col)
    {
      ReleaseTile(sys, limit, s, c, col);
    }
    forall d | 0 <= d < sys.grid && t.cta[d].Running? && t.cta[d].held
      ensures HasTurn(sys, t, d)
    {
      assert HasTurn(sys, s, d) && HasTurn(sys, s, c);
      var theirs := CurrentTile(sys, s, d);
    }
    assert LockUsed(sys, sys.lock[mine]);
  }

  lemma StepInv(sys: System, limit: nat, s: State, a: Action)
    requires sys.Ok() && Inv(sys, s) && Enabled(sys, limit, s, a)
    ensures Inv(sys, Do(sys, limit, s, a))
  {
    match a
    case Start => StartInv(sys, limit, s);
    case Work(c) => WorkInv(sys, limit, s, c);
    case Acquire(c) => AcquireInv(sys, limit, s, c);
    case Release(c) => ReleaseInv(sys, limit, s, c);
    case Exit(c) => ExitInv(sys, limit, s, c);
  }

  // --- Progress ------------------------------------------------------------------

  ghost predicate Finished(sys: System, s: State) {
    |s.cta| == sys.grid && forall c :: 0 <= c < sys.grid ==> s.cta[c].Done?
  }

  // The highest running CTA below n, or -1.
  ghost function HighestRunning(s: State, n: nat): (r: int)
    requires n <= |s.cta|
    ensures -1 <= r < n && (r >= 0 ==> s.cta[r].Running?)
    ensures forall c :: r < c < n ==> !s.cta[c].Running?
  {
    if n == 0 then -1
    else if s.cta[n - 1].Running? then n - 1
    else HighestRunning(s, n - 1)
  }

  // Some CTA can always step: the highest running one never has to wait for a
  // CTA that has not started, however few CTAs are resident.
  lemma NoDeadlock(sys: System, limit: nat, s: State) returns (a: Action)
    requires sys.Ok() && Inv(sys, s) && 0 < limit && !Finished(sys, s)
    ensures Enabled(sys, limit, s, a)
  {
    var n: nat :| Handed(sys, s, n);
    var c := HighestRunning(s, sys.grid);
    if c < 0 {
      assert Resident(sys, s) == {};
      a := Start;
    } else if s.cta[c].pc >= |sys.sched[c]| {
      a := Exit(c);
    } else if !AtShared(sys, s, c) {
      a := Work(c);
    } else if s.cta[c].held {
      var col := CurrentTile(sys, s, c);
      a := Release(c);
    } else {
      var col := CurrentTile(sys, s, c);
      assert TileOk(sys, s, col);
      if c < sys.last[col] {
        assert sys.Shares(c + 1, col) && s.cta[c + 1].Done?;
      }
      a := Acquire(c);
    }
  }

  // --- The end of a run ------------------------------------------------------------

  // Every lock word and the start counter are 0 again, and every shared tile
  // was reduced from its highest CTA down.
  lemma EndState(sys: System, s: State)
    requires sys.Ok() && Inv(sys, s) && Finished(sys, s)
    ensures forall w :: 0 <= w <= sys.grid ==> s.locks[w] == 0
    ensures forall col :: sys.SharedTile(col) ==>
      s.order[col] == seq(sys.last[col] - sys.first[col] + 1, j requires 0 <= j => sys.last[col] - j)
  {
    var n: nat :| Handed(sys, s, n);
    assert s.cta[0].Done?;
    forall col | sys.SharedTile(col)
      ensures s.locks[sys.lock[col]] == 0
      ensures s.order[col] == seq(sys.last[col] - sys.first[col] + 1, j requires 0 <= j => sys.last[col] - j)
    {
      assert TileOk(sys, s, col);
      assert sys.Shares(sys.first[col], col);
      assert Passed(sys, s, sys.first[col], col);
    }
  }

  // --- Whole runs --------------------------------------------------------------------

  ghost predicate IsRun(sys: System, limit: nat, states: seq<State>, acts: seq<Action>)
    requires sys.Ok()
  {
    && |states| == |acts| + 1 && states[0] == Init(sys)
    && forall i :: 0 <= i < |acts| ==>
         Shaped(sys, states[i]) && Enabled(sys, limit, states[i], acts[i])
         && states[i + 1] == Do(sys, limit, states[i], acts[i])
  }

  lemma {:induction false} RunInv(sys: System, limit: nat, states: seq<State>, acts: seq<Action>, i: nat)
    requires sys.Ok() && IsRun(sys, limit, states, acts) && i < |states|
    ensures Inv(sys, states[i])
  {
    if i == 0 {
      InitInv(sys);
    } else {
      RunInv(sys, limit, states, acts, i - 1);
      StepInv(sys, limit, states[i - 1], acts[i - 1]);
    }
  }

  // Steps a CTA still has.
  ghost function StepsLeft(sys: System, s: State, c: int): int
    requires Shaped(sys, s) && |sys.sched| == sys.grid && 0 <= c < sys.grid
  {
    match s.cta[c]
    case Unstarted => 2 * |sys.sched[c]| + 2
    case Running(pc, held) => 2 * (|sys.sched[c]| - pc) + 1 - if held then 1 else 0
    case Done => 0
  }

  ghost function AllStepsLeft(sys: System, s: State, n: nat): int
    requires Shaped(sys, s) && |sys.sched| == sys.grid && n <= sys.grid
  {
    if n == 0 then 0 else AllStepsLeft(sys, s, n - 1) + StepsLeft(sys, s, n - 1)
  }

  lemma {:induction false} LessLeft(sys: System, s: State, t: State, c: int, n: nat)
    requires Shaped(sys, s) && Shaped(sys, t) && |sys.sched| == sys.grid && n <= sys.grid
    requires 0 <= c < sys.grid && StepsLeft(sys, t, c) < StepsLeft(sys, s, c)
    requires forall d :: 0 <= d < sys.grid && d != c ==> s.cta[d] == t.cta[d]
    ensures AllStepsLeft(sys, t, n) <= AllStepsLeft(sys, s, n) - if c < n then 1 else 0
  {
    if n > 0 {
      LessLeft(sys, s, t, c, n - 1);
    }
  }

  lemma {:induction false} LeftNonNegative(sys: System, s: State, n: nat)
    requires sys.Ok() && Inv(sys, s) && n <= sys.grid
    ensures 0 <= AllStepsLeft(sys, s, n)
  {
    if n > 0 {
      LeftNonNegative(sys, s, n - 1);
    }
  }

  lemma StepShortens(sys: System, limit: nat, s: State, a: Action)
    requires sys.Ok() && Inv(sys, s) && Enabled(sys, limit, s, a)
    ensures AllStepsLeft(sys, Do(sys, limit, s, a), sys.grid) < AllStepsLeft(sys, s, sys.grid)
  {
    var t := Do(sys, limit, s, a);
    var c := if a.Start? then sys.grid - 1 - s.locks[sys.grid] else a.c;
    LessLeft(sys, s, t, c, sys.grid);
  }

  lemma RunShortens(sys: System, limit: nat, states: seq<State>, acts: seq<Action>, i: nat)
    requires sys.Ok() && IsRun(sys, limit, states, acts) && i < |acts| && Inv(sys, states[i])
    requires Shaped(sys, states[i + 1])
    ensures AllStepsLeft(sys, states[i + 1], sys.grid) < AllStepsLeft(sys, states[i], sys.grid)
  {
    StepShortens(sys, limit, states[i], acts[i]);
  }

  lemma {:induction false} RunBounded(sys: System, limit: nat, states: seq<State>, acts: seq<Action>, i: nat)
    requires sys.Ok() && IsRun(sys, limit, states, acts) && i < |states|
    ensures Inv(sys, states[i])
    ensures i <= AllStepsLeft(sys, Init(sys), sys.grid) - AllStepsLeft(sys, states[i], sys.grid)
  {
    RunInv(sys, limit, states, acts, i);
    if i > 0 {
      RunBounded(sys, limit, states, acts, i - 1);
      RunShortens(sys, limit, states, acts, i - 1);
    }
  }

  // --- The Marlin grid is such a system ---------------------------------------------

  ghost function SystemOf(plan: Plan): System
    requires plan.Valid()
  {
    System(plan.grid, plan.mnTiles - plan.part2Tiles,
           seq(plan.grid, c requires 0 <= c < plan.grid => Schedule(plan, c)),
           seq(plan.part2Tiles, col requires 0 <= col < plan.part2Tiles => plan.FirstCta(col)),
           seq(plan.part2Tiles, col requires 0 <= col < plan.part2Tiles => plan.LastCta(col)),
           seq(plan.part2Tiles, col requires 0 <= col < plan.part2Tiles => plan.LockOf(col)))
  }

  // The part-2 slice number of a schedule index, as a tile.
  lemma {:induction false} StripeAt(plan: Plan, c: int, col: int, row: int, i: nat)
    requires plan.Valid() && 0 <= c < plan.grid && 0 <= col && 0 <= row < plan.kTiles
    requires plan.iters * c <= col * plan.kTiles + row
    requires i < |StripeSlices(plan, c, col, row)|
    ensures 0 < plan.iters
    ensures var r := if i == 0 then row else 0;
            InStripe(plan, c, col + i, r)
            && StripeSlices(plan, c, col, row)[i] == StripeSlice(plan, c, col + i, r)
    decreases i
  {
    if i > 0 {
      NextTile(plan.kTiles, col);
      StripeAt(plan, c, col + 1, 0, i - 1);
    }
  }

  // A stripe has a slice for every later tile that starts before its end.
  lemma {:induction false} StripeReaches(plan: Plan, c: int, col: int, row: int, i: nat)
    requires 0 < plan.kTiles && 0 < plan.iters && 0 <= row < plan.kTiles
    requires if i == 0 then col * plan.kTiles + row < plan.StripeEnd(c)
             else (col + i) * plan.kTiles < plan.StripeEnd(c)
    ensures i < |StripeSlices(plan, c, col, row)|
    decreases i
  {
    if i > 0 {
      FlatOrder(plan.kTiles, col, col + i);
      StripeReaches(plan, c, col + 1, 0, i - 1);
    }
  }

  // What a schedule's shared slices are.
  lemma SharedSlice(plan: Plan, c: nat, i: nat)
    requires plan.Valid() && c < plan.grid && i < |Schedule(plan, c)|
    requires Schedule(plan, c)[i].count > 1
    ensures var s := Schedule(plan, c)[i];
            var col := s.tile - (plan.mnTiles - plan.part2Tiles);
            && 0 <= col < plan.part2Tiles && c in plan.Sharers(col) && 0 < plan.iters
            && s.count == plan.LastCta(col) - plan.FirstCta(col) + 1
            && s.idx == plan.LastCta(col) - c && s.lock == plan.LockOf(col)
            && i == plan.Rounds(c) + col - (plan.iters * c) / plan.kTiles
  {
    var col0, row0 := ScheduleParts(plan, c);
    var n := plan.Rounds(c);
    if i < n {
      WholeCounts(plan, c, n, i);
    } else {
      WholeRows(plan, c, n, 0);
      StripeAt(plan, c, col0, row0, i - n);
      var col := col0 + i - n;
      var row := if i == n then row0 else 0;
      StripeMeets(plan, c, col, row);
      SharersFacts(plan, col);
      TurnFacts(plan, c, col);
      DivModUnique(plan.iters * c, plan.kTiles, col0, row0);
    }
  }

  lemma {:induction false} WholeCounts(plan: Plan, c: nat, n: nat, i: nat)
    requires plan.Valid() && c < plan.grid && n <= plan.Rounds(c) && i < n
    ensures |WholeSlices(plan, c, n)| == n && WholeSlices(plan, c, n)[i].count == 1
  {
    WholeRows(plan, c, n - 1, 0);
    if i < n - 1 {
      WholeCounts(plan, c, n - 1, i);
    }
  }

  // Every sharer has a slice of its tile.
  lemma SharerHasSlice(plan: Plan, c: nat, col: int) returns (i: nat)
    requires plan.Valid() && 0 <= col < plan.part2Tiles && 0 < plan.iters && c in plan.Sharers(col)
    ensures c < plan.grid && i < |Schedule(plan, c)|
    ensures Schedule(plan, c)[i].tile == plan.mnTiles - plan.part2Tiles + col
    ensures Schedule(plan, c)[i].count == |plan.Sharers(col)|
  {
    var col0, row0 := ScheduleParts(plan, c);
    WholeRows(plan, c, plan.Rounds(c), 0);
    MeetsWithin(plan, c, col, col0, row0);
    StripeReaches(plan, c, col0, row0, col - col0);
    StripeTileAt(plan, c, col0, row0, col - col0);
    i := plan.Rounds(c) + (col - col0);
  }

  // A tile that meets the stripe does not come before the stripe's first tile
  // and starts before the stripe's end.
  lemma MeetsWithin(plan: Plan, c: int, col: int, col0: int, row0: int)
    requires 0 < plan.kTiles && 0 < plan.iters && plan.Meets(c, col) && 0 <= row0 && col < plan.part2Tiles
    requires col0 * plan.kTiles + row0 == plan.iters * c
    ensures col0 <= col
    ensures if col == col0 then col0 * plan.kTiles + row0 < plan.StripeEnd(c)
            else col * plan.kTiles < plan.StripeEnd(c)
  {
    NextTile(plan.kTiles, col);
    FlatOrder(plan.kTiles, col, col0);
    FlatOrder(plan.kTiles, col, plan.part2Tiles);
  }

  lemma {:induction false} StripeTileAt(plan: Plan, c: int, col: int, row: int, i: nat)
    requires 0 < plan.kTiles && 0 < plan.iters && 0 <= row < plan.kTiles
    requires i < |StripeSlices(plan, c, col, row)|
    ensures StripeSlices(plan, c, col, row)[i].tile == plan.mnTiles - plan.part2Tiles + (col + i)
    ensures StripeSlices(plan, c, col, row)[i].count == |plan.Sharers(col + i)|
    decreases i
  {
    if i > 0 {
      StripeTileAt(plan, c, col + 1, 0, i - 1);
    }
  }

  lemma SystemOk(plan: Plan)
    requires plan.Valid()
    ensures SystemOf(plan).Ok()
  {
    var sys := SystemOf(plan);
    forall col | sys.SharedTile(col)
      ensures Shared(plan, col)
      ensures 0 <= sys.first[col] && sys.last[col] < sys.grid && 0 <= sys.lock[col] < sys.grid
    {
      SharersFacts(plan, col);
      LockInRange(plan, col);
    }
    forall col, other | sys.SharedTile(col) && sys.SharedTile(other) && col != other
      ensures sys.lock[col] != sys.lock[other]
    {
      if col < other { LocksDistinct(plan, col, other); } else { LocksDistinct(plan, other, col); }
    }
    forall c, i, col | sys.SliceOf(c, i, col)
      ensures sys.Shares(c, col) && sys.sched[c][i].lock == sys.lock[col]
      ensures sys.sched[c][i].idx == sys.last[col] - c
      ensures sys.sched[c][i].count == sys.last[col] - sys.first[col] + 1
    {
      SharedSlice(plan, c, i);
      SharersFacts(plan, col);
    }
    forall c, i, j, col | sys.SliceOf(c, i, col) && sys.SliceOf(c, j, col)
      ensures i == j
    {
      SharedSlice(plan, c, i);
      SharedSlice(plan, c, j);
    }
    forall c, col | sys.Shares(c, col)
      ensures exists i :: sys.SliceOf(c, i, col)
    {
      SharersFacts(plan, col);
      var i := SharerHasSlice(plan, c, col);
      assert sys.SliceOf(c, i, col);
    }
  }

  // The grid never deadlocks: from every state of every run some CTA can step,
  // runs are bounded, and a finished run leaves every lock word and the start
  // counter 0 with each shared tile reduced from its last CTA down to its first.
  lemma GridFinishes(p: Problem, limit: nat, states: seq<State>, acts: seq<Action>)
    requires p.Valid() && 0 < limit
    requires PlanOf(p).Valid() && SystemOf(PlanOf(p)).Ok()
    requires IsRun(SystemOf(PlanOf(p)), limit, states, acts)
    ensures var sys, s := SystemOf(PlanOf(p)), states[|acts|];
            && Shaped(sys, s)
            && |acts| <= AllStepsLeft(sys, Init(sys), sys.grid)
            && (Finished(sys, s) || exists a :: Enabled(sys, limit, s, a))
            && (Finished(sys, s) ==>
                  && (forall w :: 0 <= w <= sys.grid ==> s.locks[w] == 0)
                  && (forall col :: sys.SharedTile(col) ==>
                        s.order[col] == seq(sys.last[col] - sys.first[col] + 1,
                                            j requires 0 <= j => sys.last[col] - j)))
  {
    var sys, s := SystemOf(PlanOf(p)), states[|acts|];
    RunBounded(sys, limit, states, acts, |acts|);
    LeftNonNegative(sys, s, sys.grid);
    if Finished(sys, s) {
      EndState(sys, s);
    } else {
      var a := NoDeadlock(sys, limit, s);
    }
  }

  // Its premises hold of every problem.
  lemma GridIsOk(p: Problem)
    requires p.Valid()
    ensures PlanOf(p).Valid() && SystemOf(PlanOf(p)).Ok()
  {
    PlanValid(p);
    SystemOk(PlanOf(p));
  }
}
