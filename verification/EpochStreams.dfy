// Ranks that run streams of copies, flag stores and flag waits over shared
// scratch slots. Flags hold the number of the call that set them and only grow;
// slots and flags are used again by every call, of whatever kind.
module EpochStreams {

  // Where a copy or a sum reads: the rank's input or output shard, or its own slot.
  datatype Loc = In(shard: nat) | Out(shard: nat) | Slot(k: nat)

  datatype Op<!V> =
    | Set(dst: nat, f: nat)
    | Wait(f: nat)
    | Put(dst: nat, k: nat, src: Loc)
    | Apply(shard: nat, args: seq<Loc>, fn: seq<V> -> V)

  // One call: rank r's operation i is op(r, i), for i < len. The rest says what is
  // meant: slot(r, k) is what r finds in its slot k, out(r, i) its output shards
  // before operation i, and flag f of rank r is set by setter(r, f) at operation
  // setAt(r, f). Slot k's flag is flag k; its sender fills it at putAt(r, k), having
  // waited for r's consent at readyAt(r, k), and r waits for it at waitAt(r, k).
  datatype Plan<!V> = Plan(len: nat, op: (nat, nat) -> Op<V>, inp: (nat, nat) -> V,
                           slot: (nat, nat) -> V, out: (nat, nat) -> map<nat, V>,
                           sets: (nat, nat) -> bool, setter: (nat, nat) -> nat, setAt: (nat, nat) -> nat,
                           putAt: (nat, nat) -> nat, readyAt: (nat, nat) -> nat, waitAt: (nat, nat) -> nat)

  // slots per rank, and for each further flag f of rank r the one rank that sets it.
  datatype System<!V> = System(world: nat, slots: nat, giver: (nat, nat) -> nat, calls: seq<Plan<V>>)
  {
    ghost predicate SetOk(p: Plan<V>, r: nat, f: nat) {
      p.sets(r, f) ==>
        && p.setter(r, f) < world && p.setAt(r, f) < p.len
        && p.op(p.setter(r, f), p.setAt(r, f)) == Set(r, f)
        && (f >= slots ==> p.setter(r, f) == giver(r, f))
    }

    // Slot k of rank r: filled once, after r's consent, flagged after, and waited for.
    ghost predicate SlotOk(p: Plan<V>, r: nat, k: nat) {
      && p.sets(r, k)
      && p.putAt(r, k) < p.setAt(r, k)
      && p.op(p.setter(r, k), p.putAt(r, k)).Put?
      && p.op(p.setter(r, k), p.putAt(r, k)).dst == r && p.op(p.setter(r, k), p.putAt(r, k)).k == k
      && p.readyAt(r, k) < p.putAt(r, k)
      && ReadyOk(p, r, k)
      && p.waitAt(r, k) < p.len && p.op(r, p.waitAt(r, k)) == Wait(k)
    }

    // The sender's earlier wait for a flag only r sets.
    ghost predicate ReadyOk(p: Plan<V>, r: nat, k: nat) {
      var s := p.setter(r, k);
      var w := p.op(s, p.readyAt(r, k));
      w.Wait? && w.f >= slots && p.sets(s, w.f) && p.setter(s, w.f) == r
    }

    // What the operation at i of rank r must respect.
    ghost predicate OpOk(p: Plan<V>, r: nat, i: nat) {
      match p.op(r, i)
      case Set(dst, f) => dst < world && p.sets(dst, f) && p.setter(dst, f) == r && p.setAt(dst, f) == i && p.out(r, i + 1) == p.out(r, i)
      case Wait(f) => p.sets(r, f) && p.setAt(r, f) < i && p.out(r, i + 1) == p.out(r, i)
      case Put(dst, k, src) =>
        && dst < world && k < slots && p.setter(dst, k) == r && p.putAt(dst, k) == i
        && Readable(p, r, i, src) && Meant(p, r, i, src) == p.slot(dst, k) && p.out(r, i + 1) == p.out(r, i)
      case Apply(shard, args, fn) =>
        && (forall a | 0 <= a < |args| :: Readable(p, r, i, args[a]))
        && p.out(r, i + 1) == p.out(r, i)[shard := fn(seq(|args|, a requires 0 <= a < |args| => Meant(p, r, i, args[a])))]
    }

    // A slot may be read once it has been waited for, an output shard once written.
    ghost predicate Readable(p: Plan<V>, r: nat, i: nat, loc: Loc) {
      match loc
      case In(_) => true
      case Out(shard) => shard in p.out(r, i)
      case Slot(k) => k < slots && p.waitAt(r, k) < i
    }

    // What is meant to be read there.
    ghost function Meant(p: Plan<V>, r: nat, i: nat, loc: Loc): V
      requires Readable(p, r, i, loc)
    {
      match loc
      case In(shard) => p.inp(r, shard)
      case Out(shard) => p.out(r, i)[shard]
      case Slot(k) => p.slot(r, k)
    }

    ghost predicate PlanOk(p: Plan<V>) {
      && (forall r: nat, f: nat | r < world :: SetOk(p, r, f))
      && (forall r: nat, k: nat | r < world && k < slots :: SlotOk(p, r, k))
      && (forall r: nat, i: nat | r < world && i < p.len :: OpOk(p, r, i))
      && (forall r: nat | r < world :: p.out(r, 0) == map[])
    }

    ghost predicate Ok() {
      forall c | 0 <= c < |calls| :: PlanOk(calls[c])
    }
  }

  // --- Checking an operation of a given plan ------------------------------------------------

  lemma PutIs<V(!new)>(sys: System<V>, p: Plan<V>, r: nat, i: nat, dst: nat, k: nat, src: Loc)
    requires p.op(r, i) == Put(dst, k, src) && dst < sys.world && k < sys.slots
    requires p.setter(dst, k) == r && p.putAt(dst, k) == i && p.out(r, i + 1) == p.out(r, i)
    requires sys.Readable(p, r, i, src) && sys.Meant(p, r, i, src) == p.slot(dst, k)
    ensures sys.OpOk(p, r, i)
  {
  }

  lemma SlotIs<V(!new)>(sys: System<V>, p: Plan<V>, r: nat, k: nat, s: nat, src: Loc, f: nat)
    requires p.sets(r, k) && p.setter(r, k) == s
    requires p.op(s, p.putAt(r, k)) == Put(r, k, src) && p.readyAt(r, k) < p.putAt(r, k) < p.setAt(r, k)
    requires p.op(s, p.readyAt(r, k)) == Wait(f) && f >= sys.slots && p.sets(s, f) && p.setter(s, f) == r
    requires p.waitAt(r, k) < p.len && p.op(r, p.waitAt(r, k)) == Wait(k)
    ensures sys.SlotOk(p, r, k)
  {
  }

  lemma SetIs<V(!new)>(sys: System<V>, p: Plan<V>, r: nat, i: nat, dst: nat, f: nat)
    requires p.op(r, i) == Set(dst, f) && dst < sys.world && p.sets(dst, f)
    requires p.setter(dst, f) == r && p.setAt(dst, f) == i && p.out(r, i + 1) == p.out(r, i)
    ensures sys.OpOk(p, r, i)
  {
  }

  lemma WaitIs<V(!new)>(sys: System<V>, p: Plan<V>, r: nat, i: nat, f: nat)
    requires p.op(r, i) == Wait(f) && p.sets(r, f) && p.setAt(r, f) < i && p.out(r, i + 1) == p.out(r, i)
    ensures sys.OpOk(p, r, i)
  {
  }

  // A sum of the named places, whose meant values are xs.
  lemma ApplyIs<V(!new)>(sys: System<V>, p: Plan<V>, r: nat, i: nat, shard: nat, args: seq<Loc>, fn: seq<V> -> V, xs: seq<V>)
    requires p.op(r, i) == Apply(shard, args, fn) && |xs| == |args|
    requires forall a | 0 <= a < |args| :: sys.Readable(p, r, i, args[a]) && sys.Meant(p, r, i, args[a]) == xs[a]
    requires p.out(r, i + 1) == p.out(r, i)[shard := fn(xs)]
    ensures sys.OpOk(p, r, i)
  {
    assert seq(|args|, a requires 0 <= a < |args| => sys.Meant(p, r, i, args[a])) == xs;
  }

  lemma CopyIs<V(!new)>(sys: System<V>, p: Plan<V>, r: nat, i: nat, shard: nat, src: Loc, fn: seq<V> -> V, x: V)
    requires p.op(r, i) == Apply(shard, [src], fn)
    requires sys.Readable(p, r, i, src) && sys.Meant(p, r, i, src) == x
    requires p.out(r, i + 1) == p.out(r, i)[shard := fn([x])]
    ensures sys.OpOk(p, r, i)
  {
    ApplyIs(sys, p, r, i, shard, [src], fn, [x]);
  }

  lemma AddIs<V(!new)>(sys: System<V>, p: Plan<V>, r: nat, i: nat, shard: nat, a: Loc, b: Loc, fn: seq<V> -> V, x: V, y: V)
    requires p.op(r, i) == Apply(shard, [a, b], fn)
    requires sys.Readable(p, r, i, a) && sys.Meant(p, r, i, a) == x
    requires sys.Readable(p, r, i, b) && sys.Meant(p, r, i, b) == y
    requires p.out(r, i + 1) == p.out(r, i)[shard := fn([x, y])]
    ensures sys.OpOk(p, r, i)
  {
    ApplyIs(sys, p, r, i, shard, [a, b], fn, [x, y]);
  }

  // --- Steps ---------------------------------------------------------------------------

  // done: calls finished; pc: operations of the running one executed; out: its output
  // so far; log: the outputs of the finished calls.
  datatype Rank<!V> = Rank(done: nat, pc: nat, out: map<nat, V>, log: seq<map<nat, V>>)

  datatype State<!V> = State(ranks: seq<Rank<V>>, flags: map<(nat, nat), nat>, scratch: map<(nat, nat), V>)

  ghost function Init<V(!new)>(sys: System<V>): State<V> {
    State(seq(sys.world, r => Rank(0, 0, map[], [])), map[], map[])
  }

  ghost function Flag<V(!new)>(s: State<V>, r: nat, f: nat): nat {
    if (r, f) in s.flags then s.flags[(r, f)] else 0
  }

  ghost predicate Active<V(!new)>(sys: System<V>, s: State<V>, r: nat) {
    r < sys.world == |s.ranks| && s.ranks[r].done < |sys.calls|
  }

  ghost function Now<V(!new)>(sys: System<V>, s: State<V>, r: nat): Plan<V>
    requires Active(sys, s, r)
  {
    sys.calls[s.ranks[r].done]
  }

  ghost predicate Present<V(!new)>(s: State<V>, r: nat, loc: Loc)
    requires r < |s.ranks|
  {
    match loc
    case In(_) => true
    case Out(shard) => shard in s.ranks[r].out
    case Slot(k) => (r, k) in s.scratch
  }

  ghost function Fetch<V(!new)>(p: Plan<V>, s: State<V>, r: nat, loc: Loc): V
    requires r < |s.ranks| && Present(s, r, loc)
  {
    match loc
    case In(shard) => p.inp(r, shard)
    case Out(shard) => s.ranks[r].out[shard]
    case Slot(k) => s.scratch[(r, k)]
  }

  // Rank r can take its next step, if it is not a wait that has to wait.
  ghost predicate Ready<V(!new)>(sys: System<V>, s: State<V>, r: nat) {
    Active(sys, s, r)
    && var p := Now(sys, s, r);
    var rank := s.ranks[r];
    if rank.pc >= p.len then true
    else match p.op(r, rank.pc)
      case Set(_, _) => true
      case Wait(_) => true
      case Put(_, _, src) => Present(s, r, src)
      case Apply(_, args, _) => forall a | 0 <= a < |args| :: Present(s, r, args[a])
  }

  ghost predicate AtWait<V(!new)>(sys: System<V>, s: State<V>, r: nat) {
    Active(sys, s, r) && s.ranks[r].pc < Now(sys, s, r).len && Now(sys, s, r).op(r, s.ranks[r].pc).Wait?
  }

  ghost function WaitedFlag<V(!new)>(sys: System<V>, s: State<V>, r: nat): nat
    requires AtWait(sys, s, r)
  {
    Flag(s, r, Now(sys, s, r).op(r, s.ranks[r].pc).f)
  }

  // A wait passes once its flag has reached the call's epoch. Call number c runs as epoch
  // c + 1.
  ghost predicate Enabled<V(!new)>(sys: System<V>, s: State<V>, r: nat) {
    Ready(sys, s, r) && (AtWait(sys, s, r) ==> WaitedFlag(sys, s, r) >= s.ranks[r].done + 1)
  }

  ghost function Do<V(!new)>(sys: System<V>, s: State<V>, r: nat): State<V>
    requires Ready(sys, s, r)
  {
    var p := Now(sys, s, r);
    var rank := s.ranks[r];
    if rank.pc >= p.len then s.(ranks := s.ranks[r := Rank(rank.done + 1, 0, map[], rank.log + [rank.out])])
    else
      var next := rank.(pc := rank.pc + 1);
      match p.op(r, rank.pc)
      case Set(dst, f) => s.(ranks := s.ranks[r := next], flags := s.flags[(dst, f) := rank.done + 1])
      case Wait(f) => s.(ranks := s.ranks[r := next])
      case Put(dst, k, src) => s.(ranks := s.ranks[r := next], scratch := s.scratch[(dst, k) := Fetch(p, s, r, src)])
      case Apply(shard, args, fn) =>
        var x := fn(seq(|args|, a requires 0 <= a < |args| => Fetch(p, s, r, args[a])));
        s.(ranks := s.ranks[r := next.(out := rank.out[shard := x])])
  }

  // --- Invariant -------------------------------------------------------------------------

  // Rank r has executed operation i of call c.
  ghost predicate Past<V(!new)>(s: State<V>, c: nat, r: nat, i: nat) {
    r < |s.ranks| && (s.ranks[r].done > c || (s.ranks[r].done == c && s.ranks[r].pc > i))
  }

  ghost predicate WasSet<V(!new)>(sys: System<V>, s: State<V>, c: nat, r: nat, f: nat) {
    c < |sys.calls| && sys.calls[c].sets(r, f) && Past(s, c, sys.calls[c].setter(r, f), sys.calls[c].setAt(r, f))
  }

  ghost predicate WasPut<V(!new)>(sys: System<V>, s: State<V>, c: nat, r: nat, k: nat) {
    c < |sys.calls| && Past(s, c, sys.calls[c].setter(r, k), sys.calls[c].putAt(r, k))
  }

  ghost predicate RanksOk<V(!new)>(sys: System<V>, s: State<V>) {
    |s.ranks| == sys.world
    && forall r: nat | r < sys.world :: RankOk(sys, s.ranks[r], r)
  }

  ghost predicate RankOk<V(!new)>(sys: System<V>, rank: Rank<V>, r: nat) {
    && rank.done <= |sys.calls| && |rank.log| == rank.done
    && (rank.done < |sys.calls| ==> rank.pc <= sys.calls[rank.done].len && rank.out == sys.calls[rank.done].out(r, rank.pc))
    && (rank.done == |sys.calls| ==> rank.pc == 0)
    && (forall c | 0 <= c < rank.done :: rank.log[c] == sys.calls[c].out(r, sys.calls[c].len))
  }

  // A flag holds the epoch of a call whose setter has set it, and of the last such.
  ghost predicate FlagOk<V(!new)>(sys: System<V>, s: State<V>, r: nat, f: nat) {
    Flag(s, r, f) > 0 ==> WasSet(sys, s, Flag(s, r, f) - 1, r, f)
  }

  ghost predicate FlagsOk<V(!new)>(sys: System<V>, s: State<V>) {
    && (forall r: nat, f: nat | r < sys.world :: FlagOk(sys, s, r, f))
    && (forall c: nat, r: nat, f: nat | r < sys.world && WasSet(sys, s, c, r, f) :: Flag(s, r, f) >= c + 1)
  }

  // Whoever has passed a wait was waiting for something that has happened.
  ghost predicate WaitOk<V(!new)>(sys: System<V>, s: State<V>, c: nat, r: nat, i: nat)
    requires c < |sys.calls|
  {
    Past(s, c, r, i) && i < sys.calls[c].len && sys.calls[c].op(r, i).Wait? ==> WasSet(sys, s, c, r, sys.calls[c].op(r, i).f)
  }

  ghost predicate WaitsOk<V(!new)>(sys: System<V>, s: State<V>) {
    forall c: nat, r: nat, i: nat | c < |sys.calls| && r < sys.world :: WaitOk(sys, s, c, r, i)
  }

  // A slot is filled only when its reader is in that call, and then holds what is meant.
  ghost predicate SlotsOk<V(!new)>(sys: System<V>, s: State<V>) {
    && (forall c: nat, r: nat, k: nat | r < sys.world && k < sys.slots && WasPut(sys, s, c, r, k) :: r < |s.ranks| && s.ranks[r].done >= c)
    && (forall r: nat, k: nat | Active(sys, s, r) && k < sys.slots && WasPut(sys, s, s.ranks[r].done, r, k) ::
          (r, k) in s.scratch && s.scratch[(r, k)] == Now(sys, s, r).slot(r, k))
  }

  ghost predicate Inv<V(!new)>(sys: System<V>, s: State<V>) {
    RanksOk(sys, s) && FlagsOk(sys, s) && WaitsOk(sys, s) && SlotsOk(sys, s)
  }

  lemma InitInv<V(!new)>(sys: System<V>)
    requires sys.Ok()
    ensures Inv(sys, Init(sys))
  {
  }

  // --- What waits imply --------------------------------------------------------------------

  // An operation before an executed one is executed.
  lemma PastEarlier<V(!new)>(s: State<V>, c: nat, r: nat, i: nat, j: nat)
    requires Past(s, c, r, i) && j <= i
    ensures Past(s, c, r, j)
  {
  }

  // A slot's flag set means the slot was filled, hence its reader has reached the call.
  lemma SetMeansPut<V(!new)>(sys: System<V>, s: State<V>, c: nat, r: nat, k: nat)
    requires sys.Ok() && RanksOk(sys, s) && SlotsOk(sys, s) && r < sys.world && k < sys.slots && WasSet(sys, s, c, r, k)
    ensures WasPut(sys, s, c, r, k) && s.ranks[r].done >= c
  {
    assert sys.PlanOk(sys.calls[c]) && sys.SlotOk(sys.calls[c], r, k);
    PastEarlier(s, c, sys.calls[c].setter(r, k), sys.calls[c].setAt(r, k), sys.calls[c].putAt(r, k));
    assert WasPut(sys, s, c, r, k);
  }

  // A flag that has reached the epoch of the reader's call was set in this very call.
  lemma ReachedMeansSet<V(!new)>(sys: System<V>, s: State<V>, r: nat, f: nat)
    requires sys.Ok() && RanksOk(sys, s) && FlagsOk(sys, s) && SlotsOk(sys, s) && Active(sys, s, r)
    requires Flag(s, r, f) >= s.ranks[r].done + 1 && Now(sys, s, r).sets(r, f)
    ensures WasSet(sys, s, s.ranks[r].done, r, f)
  {
    var c := s.ranks[r].done;
    var e := Flag(s, r, f) - 1;
    assert FlagOk(sys, s, r, f);
    assert sys.PlanOk(sys.calls[c]) && sys.PlanOk(sys.calls[e]);
    assert sys.SetOk(sys.calls[c], r, f) && sys.SetOk(sys.calls[e], r, f);
    if f < sys.slots {
      SetMeansPut(sys, s, e, r, f);
    }
  }

  // Once a sender may fill a slot, its reader is in that call and still waits for it.
  lemma PutReader<V(!new)>(sys: System<V>, s: State<V>, q: nat, r: nat, k: nat)
    requires sys.Ok() && RanksOk(sys, s) && WaitsOk(sys, s) && Active(sys, s, q) && r < sys.world && k < sys.slots
    requires Now(sys, s, q).setter(r, k) == q && Now(sys, s, q).putAt(r, k) == s.ranks[q].pc
    ensures s.ranks[r].done == s.ranks[q].done && s.ranks[r].pc <= Now(sys, s, q).waitAt(r, k)
  {
    var c := s.ranks[q].done;
    var p := sys.calls[c];
    assert sys.PlanOk(p) && sys.SlotOk(p, r, k) && sys.ReadyOk(p, r, k);
    assert WaitOk(sys, s, c, q, p.readyAt(r, k));
    assert WaitOk(sys, s, c, r, p.waitAt(r, k));
  }

  // --- Every step keeps the invariant --------------------------------------------------------

  ghost predicate Executes<V(!new)>(sys: System<V>, s: State<V>, r: nat) {
    Enabled(sys, s, r) && s.ranks[r].pc < Now(sys, s, r).len
  }

  ghost function OpNow<V(!new)>(sys: System<V>, s: State<V>, r: nat): Op<V>
    requires Executes(sys, s, r)
  {
    Now(sys, s, r).op(r, s.ranks[r].pc)
  }

  // What the executing rank reads is what is meant.
  lemma FetchMeant<V(!new)>(sys: System<V>, s: State<V>, r: nat, loc: Loc)
    requires sys.Ok() && Inv(sys, s) && Active(sys, s, r) && s.ranks[r].pc < Now(sys, s, r).len
    requires sys.Readable(Now(sys, s, r), r, s.ranks[r].pc, loc)
    ensures Present(s, r, loc) && Fetch(Now(sys, s, r), s, r, loc) == sys.Meant(Now(sys, s, r), r, s.ranks[r].pc, loc)
  {
    assert RankOk(sys, s.ranks[r], r);
    if loc.Slot? {
      var c := s.ranks[r].done;
      var p := sys.calls[c];
      assert sys.PlanOk(p) && sys.SlotOk(p, r, loc.k);
      assert WaitOk(sys, s, c, r, p.waitAt(r, loc.k));
      SetMeansPut(sys, s, c, r, loc.k);
    }
  }

  // The outputs stay what is meant.
  lemma StepRanks<V(!new)>(sys: System<V>, s: State<V>, r: nat)
    requires sys.Ok() && Inv(sys, s) && Enabled(sys, s, r)
    ensures RanksOk(sys, Do(sys, s, r))
  {
    var t := Do(sys, s, r);
    var p := Now(sys, s, r);
    var i := s.ranks[r].pc;
    assert RankOk(sys, s.ranks[r], r);
    assert sys.PlanOk(p);
    assert RankOk(sys, t.ranks[r], r) by {
      if i < p.len {
        assert sys.OpOk(p, r, i);
        if p.op(r, i).Apply? {
          AppliesMeant(sys, s, r);
        }
      } else if s.ranks[r].done + 1 < |sys.calls| {
        assert sys.PlanOk(sys.calls[s.ranks[r].done + 1]);
      }
    }
    forall q: nat | q < sys.world
      ensures RankOk(sys, t.ranks[q], q)
    {
      assert RankOk(sys, s.ranks[q], q);
    }
  }

  lemma AppliesMeant<V(!new)>(sys: System<V>, s: State<V>, r: nat)
    requires sys.Ok() && Inv(sys, s) && Executes(sys, s, r) && OpNow(sys, s, r).Apply?
    ensures Do(sys, s, r).ranks[r].out == Now(sys, s, r).out(r, s.ranks[r].pc + 1)
  {
    var p := Now(sys, s, r);
    var i := s.ranks[r].pc;
    assert RankOk(sys, s.ranks[r], r);
    assert sys.PlanOk(p) && sys.OpOk(p, r, i);
    var args := p.op(r, i).args;
    forall a | 0 <= a < |args|
      ensures Present(s, r, args[a]) && Fetch(p, s, r, args[a]) == sys.Meant(p, r, i, args[a])
    {
      FetchMeant(sys, s, r, args[a]);
    }
    assert seq(|args|, a requires 0 <= a < |args| => Fetch(p, s, r, args[a]))
        == seq(|args|, a requires 0 <= a < |args| => sys.Meant(p, r, i, args[a]));
  }

  // What t has executed beyond s: rank r's operation, or nothing that counts.
  ghost predicate OneMore<V(!new)>(sys: System<V>, s: State<V>, t: State<V>, r: nat) {
    && |s.ranks| == |t.ranks| == sys.world && Active(sys, s, r)
    && (forall q: nat | q < sys.world && q != r :: t.ranks[q] == s.ranks[q])
    && if s.ranks[r].pc < Now(sys, s, r).len then t.ranks[r].done == s.ranks[r].done && t.ranks[r].pc == s.ranks[r].pc + 1
       else s.ranks[r].pc == Now(sys, s, r).len && t.ranks[r].done == s.ranks[r].done + 1 && t.ranks[r].pc == 0
  }

  // Executed in t: executed in s, or the operation just executed.
  lemma OneMorePast<V(!new)>(sys: System<V>, s: State<V>, t: State<V>, r: nat, c: nat, q: nat, i: nat)
    requires OneMore(sys, s, t, r) && c < |sys.calls| && i < sys.calls[c].len
    ensures Past(t, c, q, i) <==> Past(s, c, q, i) || (q == r && c == s.ranks[r].done && i == s.ranks[r].pc)
  {
  }

  lemma StepIsOneMore<V(!new)>(sys: System<V>, s: State<V>, r: nat)
    requires RanksOk(sys, s) && Enabled(sys, s, r)
    ensures OneMore(sys, s, Do(sys, s, r), r)
  {
    assert RankOk(sys, s.ranks[r], r);
  }

  // The operation just executed at (r, f), if it is the setting of that flag.
  ghost predicate Sets<V(!new)>(sys: System<V>, s: State<V>, r: nat, dst: nat, f: nat) {
    Active(sys, s, r) && s.ranks[r].pc < Now(sys, s, r).len && Now(sys, s, r).op(r, s.ranks[r].pc) == Set(dst, f)
  }

  lemma WasSetStep<V(!new)>(sys: System<V>, s: State<V>, t: State<V>, r: nat, c: nat, dst: nat, f: nat)
    requires sys.Ok() && OneMore(sys, s, t, r) && dst < sys.world
    ensures WasSet(sys, t, c, dst, f) <==> WasSet(sys, s, c, dst, f) || (Sets(sys, s, r, dst, f) && c == s.ranks[r].done)
  {
    if c < |sys.calls| {
      var p := sys.calls[c];
      assert sys.PlanOk(p) && sys.SetOk(p, dst, f);
      if p.sets(dst, f) {
        OneMorePast(sys, s, t, r, c, p.setter(dst, f), p.setAt(dst, f));
      }
      if Sets(sys, s, r, dst, f) && c == s.ranks[r].done {
        assert sys.OpOk(p, r, s.ranks[r].pc);
      }
    }
  }

  lemma WasPutStep<V(!new)>(sys: System<V>, s: State<V>, t: State<V>, r: nat, c: nat, dst: nat, k: nat)
    requires sys.Ok() && OneMore(sys, s, t, r) && dst < sys.world && k < sys.slots && c < |sys.calls|
    ensures WasPut(sys, t, c, dst, k)
            <==> (WasPut(sys, s, c, dst, k)
                  || (r == sys.calls[c].setter(dst, k) && c == s.ranks[r].done && s.ranks[r].pc == sys.calls[c].putAt(dst, k)))
  {
    var p := sys.calls[c];
    assert sys.PlanOk(p) && sys.SlotOk(p, dst, k) && sys.SetOk(p, dst, k);
    OneMorePast(sys, s, t, r, c, p.setter(dst, k), p.putAt(dst, k));
  }

  // No later call has set the flag a rank sets.
  lemma SetIsLatest<V(!new)>(sys: System<V>, s: State<V>, r: nat, dst: nat, f: nat, c: nat)
    requires sys.Ok() && RanksOk(sys, s) && WaitsOk(sys, s) && SlotsOk(sys, s) && Sets(sys, s, r, dst, f)
    requires dst < sys.world && WasSet(sys, s, c, dst, f)
    ensures c < s.ranks[r].done
  {
    var n := s.ranks[r].done;
    var p, o := sys.calls[n], sys.calls[c];
    assert sys.PlanOk(p) && sys.OpOk(p, r, s.ranks[r].pc) && sys.PlanOk(o) && sys.SetOk(o, dst, f) && sys.SetOk(p, dst, f);
    if f < sys.slots {
      assert sys.SlotOk(p, dst, f);
      assert WaitOk(sys, s, n, dst, p.waitAt(dst, f));
      SetMeansPut(sys, s, c, dst, f);
    }
  }

  lemma StepFlags<V(!new)>(sys: System<V>, s: State<V>, r: nat, t: State<V>)
    requires sys.Ok() && Inv(sys, s) && Enabled(sys, s, r) && t == Do(sys, s, r) && OneMore(sys, s, t, r)
    ensures FlagsOk(sys, t)
  {
    forall q: nat, f: nat | q < sys.world
      ensures FlagOk(sys, t, q, f)
    {
      FlagMoves(sys, s, r, t, q, f);
    }
    forall c: nat, q: nat, f: nat | q < sys.world && WasSet(sys, t, c, q, f)
      ensures Flag(t, q, f) >= c + 1
    {
      FlagLatest(sys, s, r, t, c, q, f);
    }
  }

  lemma FlagValue<V(!new)>(sys: System<V>, s: State<V>, r: nat, q: nat, f: nat)
    requires Enabled(sys, s, r)
    ensures Flag(Do(sys, s, r), q, f) == if Sets(sys, s, r, q, f) then s.ranks[r].done + 1 else Flag(s, q, f)
  {
  }

  lemma FlagMoves<V(!new)>(sys: System<V>, s: State<V>, r: nat, t: State<V>, q: nat, f: nat)
    requires sys.Ok() && FlagsOk(sys, s) && Enabled(sys, s, r) && t == Do(sys, s, r) && OneMore(sys, s, t, r) && q < sys.world
    ensures FlagOk(sys, t, q, f)
  {
    FlagValue(sys, s, r, q, f);
    assert FlagOk(sys, s, q, f);
    if Flag(t, q, f) > 0 {
      WasSetStep(sys, s, t, r, Flag(t, q, f) - 1, q, f);
    }
  }

  lemma FlagLatest<V(!new)>(sys: System<V>, s: State<V>, r: nat, t: State<V>, c: nat, q: nat, f: nat)
    requires sys.Ok() && Inv(sys, s) && Enabled(sys, s, r) && t == Do(sys, s, r) && OneMore(sys, s, t, r) && q < sys.world
    requires WasSet(sys, t, c, q, f)
    ensures Flag(t, q, f) >= c + 1
  {
    FlagValue(sys, s, r, q, f);
    WasSetStep(sys, s, t, r, c, q, f);
    if Sets(sys, s, r, q, f) && WasSet(sys, s, c, q, f) {
      SetIsLatest(sys, s, r, q, f, c);
    }
  }

  lemma StepWaits<V(!new)>(sys: System<V>, s: State<V>, r: nat, t: State<V>)
    requires sys.Ok() && Inv(sys, s) && Enabled(sys, s, r) && t == Do(sys, s, r) && OneMore(sys, s, t, r)
    ensures WaitsOk(sys, t)
  {
    forall c: nat, q: nat, i: nat | c < |sys.calls| && q < sys.world
      ensures WaitOk(sys, t, c, q, i)
    {
      var p := sys.calls[c];
      if Past(t, c, q, i) && i < p.len && p.op(q, i).Wait? {
        OneMorePast(sys, s, t, r, c, q, i);
        WasSetStep(sys, s, t, r, c, q, p.op(q, i).f);
        if Past(s, c, q, i) {
          assert WaitOk(sys, s, c, q, i);
        } else {
          assert sys.PlanOk(p) && sys.OpOk(p, q, i);
          ReachedMeansSet(sys, s, q, p.op(q, i).f);
        }
      }
    }
  }

  lemma StepSlots<V(!new)>(sys: System<V>, s: State<V>, r: nat, t: State<V>)
    requires sys.Ok() && Inv(sys, s) && Enabled(sys, s, r) && t == Do(sys, s, r) && OneMore(sys, s, t, r)
    ensures SlotsOk(sys, t)
  {
    forall c: nat, q: nat, k: nat | q < sys.world && k < sys.slots && WasPut(sys, t, c, q, k)
      ensures t.ranks[q].done >= c
    {
      WasPutStep(sys, s, t, r, c, q, k);
      if !WasPut(sys, s, c, q, k) {
        PutReader(sys, s, r, q, k);
      }
    }
    forall q: nat, k: nat | Active(sys, t, q) && k < sys.slots && WasPut(sys, t, t.ranks[q].done, q, k)
      ensures (q, k) in t.scratch && t.scratch[(q, k)] == Now(sys, t, q).slot(q, k)
    {
      StepSlot(sys, s, r, t, q, k);
    }
  }

  // The slot of a reader's own call holds what is meant after the step too.
  lemma StepSlot<V(!new)>(sys: System<V>, s: State<V>, r: nat, t: State<V>, q: nat, k: nat)
    requires sys.Ok() && Inv(sys, s) && Enabled(sys, s, r) && t == Do(sys, s, r) && OneMore(sys, s, t, r)
    requires Active(sys, t, q) && k < sys.slots && WasPut(sys, t, t.ranks[q].done, q, k)
    ensures (q, k) in t.scratch && t.scratch[(q, k)] == Now(sys, t, q).slot(q, k)
  {
    var c := t.ranks[q].done;
    var p := sys.calls[c];
    WasPutStep(sys, s, t, r, c, q, k);
    assert sys.PlanOk(p) && sys.SlotOk(p, q, k) && sys.SetOk(p, q, k);
    if WasPut(sys, s, c, q, k) {
      assert s.ranks[q].done >= c;
      SlotKept(sys, s, r, t, q, k);
    } else {
      assert sys.OpOk(p, r, s.ranks[r].pc);
      FetchMeant(sys, s, r, p.op(r, s.ranks[r].pc).src);
    }
  }

  // A filled slot is not filled again while its reader is in the call.
  lemma SlotKept<V(!new)>(sys: System<V>, s: State<V>, r: nat, t: State<V>, q: nat, k: nat)
    requires sys.Ok() && Inv(sys, s) && Enabled(sys, s, r) && t == Do(sys, s, r)
    requires Active(sys, s, q) && k < sys.slots && WasPut(sys, s, s.ranks[q].done, q, k)
    ensures (q, k) in t.scratch && t.scratch[(q, k)] == s.scratch[(q, k)]
  {
    if Executes(sys, s, r) && OpNow(sys, s, r).Put? && OpNow(sys, s, r).dst == q && OpNow(sys, s, r).k == k {
      var p := Now(sys, s, r);
      assert sys.PlanOk(p) && sys.OpOk(p, r, s.ranks[r].pc);
      PutReader(sys, s, r, q, k);
    }
  }

  lemma StepInv<V(!new)>(sys: System<V>, s: State<V>, r: nat)
    requires sys.Ok() && Inv(sys, s) && Enabled(sys, s, r)
    ensures Inv(sys, Do(sys, s, r))
  {
    StepIsOneMore(sys, s, r);
    StepRanks(sys, s, r);
    StepFlags(sys, s, r, Do(sys, s, r));
    StepWaits(sys, s, r, Do(sys, s, r));
    StepSlots(sys, s, r, Do(sys, s, r));
  }

  // --- Every run ----------------------------------------------------------------------------

  ghost predicate Runs<V(!new)>(sys: System<V>, s: State<V>, run: seq<nat>, t: State<V>)
    decreases |run|
  {
    if run == [] then t == s else Enabled(sys, s, run[0]) && Runs(sys, Do(sys, s, run[0]), run[1..], t)
  }

  lemma {:induction false} RunInv<V(!new)>(sys: System<V>, s: State<V>, run: seq<nat>, t: State<V>)
    requires sys.Ok() && Inv(sys, s) && Runs(sys, s, run, t)
    ensures Inv(sys, t)
    decreases |run|
  {
    if run != [] {
      StepInv(sys, s, run[0]);
      RunInv(sys, Do(sys, s, run[0]), run[1..], t);
    }
  }

  // A copy never overwrites a slot its reader has yet to read: when the sender is about
  // to fill it, the reader is in the same call and has not passed its wait, and it has
  // finished every earlier call.
  ghost predicate PutSafe<V(!new)>(sys: System<V>, s: State<V>, r: nat) {
    Executes(sys, s, r) && OpNow(sys, s, r).Put? ==>
      var p := Now(sys, s, r);
      var op := OpNow(sys, s, r);
      op.dst < |s.ranks| && s.ranks[op.dst].done == s.ranks[r].done && s.ranks[op.dst].pc <= p.waitAt(op.dst, op.k)
  }

  // A wait that is served was served by this call's setting of the flag.
  ghost predicate WaitSafe<V(!new)>(sys: System<V>, s: State<V>, r: nat) {
    Executes(sys, s, r) && OpNow(sys, s, r).Wait? ==> WasSet(sys, s, s.ranks[r].done, r, OpNow(sys, s, r).f)
  }

  // Flags only grow.
  ghost predicate FlagsGrow<V(!new)>(sys: System<V>, s: State<V>, r: nat) {
    Enabled(sys, s, r) ==> forall q: nat, f: nat | q < sys.world :: Flag(Do(sys, s, r), q, f) >= Flag(s, q, f)
  }

  lemma EveryRunSafe<V(!new)>(sys: System<V>, run: seq<nat>, t: State<V>, r: nat)
    requires sys.Ok() && Runs(sys, Init(sys), run, t) && r < sys.world
    ensures PutSafe(sys, t, r) && WaitSafe(sys, t, r) && FlagsGrow(sys, t, r)
    ensures r < |t.ranks| && t.ranks[r].done == |t.ranks[r].log| <= |sys.calls|
    ensures forall c | 0 <= c < t.ranks[r].done :: t.ranks[r].log[c] == sys.calls[c].out(r, sys.calls[c].len)
  {
    InitInv(sys);
    RunInv(sys, Init(sys), run, t);
    assert RankOk(sys, t.ranks[r], r);
    if Executes(sys, t, r) {
      var p := Now(sys, t, r);
      assert sys.PlanOk(p) && sys.OpOk(p, r, t.ranks[r].pc);
      match OpNow(sys, t, r)
      case Put(dst, k, _) => PutReader(sys, t, r, dst, k);
      case Wait(f) => ReachedMeansSet(sys, t, r, f);
      case _ =>
    }
    FlagGrows(sys, t, r);
  }

  lemma FlagGrows<V(!new)>(sys: System<V>, s: State<V>, r: nat)
    requires sys.Ok() && Inv(sys, s)
    ensures FlagsGrow(sys, s, r)
  {
    if Enabled(sys, s, r) {
      forall q: nat, f: nat | q < sys.world
        ensures Flag(Do(sys, s, r), q, f) >= Flag(s, q, f)
      {
        FlagValue(sys, s, r, q, f);
        if Sets(sys, s, r, q, f) && Flag(s, q, f) > 0 {
          assert FlagOk(sys, s, q, f);
          SetIsLatest(sys, s, r, q, f, Flag(s, q, f) - 1);
        }
      }
    }
  }

  // --- Progress ------------------------------------------------------------------------------

  // Rank r is not ahead of any other.
  ghost predicate Slowest<V(!new)>(sys: System<V>, s: State<V>, r: nat) {
    |s.ranks| == sys.world && r < sys.world
    && forall q: nat | q < sys.world ::
         s.ranks[r].done < s.ranks[q].done || (s.ranks[r].done == s.ranks[q].done && s.ranks[r].pc <= s.ranks[q].pc)
  }

  // Whoever is furthest behind can step.
  lemma SlowestSteps<V(!new)>(sys: System<V>, s: State<V>, r: nat)
    requires sys.Ok() && Inv(sys, s) && Active(sys, s, r) && Slowest(sys, s, r)
    ensures Enabled(sys, s, r)
  {
    var p := Now(sys, s, r);
    var c := s.ranks[r].done;
    var i := s.ranks[r].pc;
    if i < p.len {
      assert sys.PlanOk(p) && sys.OpOk(p, r, i);
      match p.op(r, i)
      case Set(_, _) =>
      case Wait(f) =>
        assert sys.SetOk(p, r, f);
        assert WasSet(sys, s, c, r, f);
      case Put(_, _, src) => FetchMeant(sys, s, r, src);
      case Apply(_, args, _) =>
        forall a | 0 <= a < |args|
          ensures Present(s, r, args[a])
        {
          FetchMeant(sys, s, r, args[a]);
        }
    }
  }

  lemma {:induction false} SomeSlowest<V(!new)>(sys: System<V>, s: State<V>, n: nat) returns (r: nat)
    requires 0 < n <= sys.world == |s.ranks|
    ensures r < n
    ensures forall q: nat | q < n ::
              s.ranks[r].done < s.ranks[q].done || (s.ranks[r].done == s.ranks[q].done && s.ranks[r].pc <= s.ranks[q].pc)
    decreases n
  {
    r := n - 1;
    if n > 1 {
      var o := SomeSlowest(sys, s, n - 1);
      if s.ranks[o].done < s.ranks[r].done || (s.ranks[o].done == s.ranks[r].done && s.ranks[o].pc <= s.ranks[r].pc) {
        r := o;
      }
    }
  }

  // In every reachable state in which some rank has calls left, some rank can step.
  lemma NoDeadlock<V(!new)>(sys: System<V>, run: seq<nat>, t: State<V>, q: nat) returns (r: nat)
    requires sys.Ok() && Runs(sys, Init(sys), run, t) && Active(sys, t, q)
    ensures Enabled(sys, t, r)
  {
    InitInv(sys);
    RunInv(sys, Init(sys), run, t);
    r := SomeSlowest(sys, t, sys.world);
    SlowestSteps(sys, t, r);
  }

  // --- Runs end --------------------------------------------------------------------------------

  // The steps a rank still has in the calls from c on: its operations, and one to finish each.
  ghost function CallsLeft<V(!new)>(sys: System<V>, c: nat): nat
    requires c <= |sys.calls|
    decreases |sys.calls| - c
  {
    if c == |sys.calls| then 0 else sys.calls[c].len + 1 + CallsLeft(sys, c + 1)
  }

  ghost function RankLeft<V(!new)>(sys: System<V>, rank: Rank<V>): int {
    if rank.done <= |sys.calls| then CallsLeft(sys, rank.done) - rank.pc else 0
  }

  ghost function StepsLeft<V(!new)>(sys: System<V>, ranks: seq<Rank<V>>, n: nat): int
    requires n <= |ranks|
  {
    if n == 0 then 0 else StepsLeft(sys, ranks, n - 1) + RankLeft(sys, ranks[n - 1])
  }

  lemma {:induction false} OneLess<V(!new)>(sys: System<V>, a: seq<Rank<V>>, b: seq<Rank<V>>, r: nat, n: nat)
    requires n <= |a| == |b| && r < |a| && forall q: nat | q < |a| && q != r :: b[q] == a[q]
    requires RankLeft(sys, b[r]) == RankLeft(sys, a[r]) - 1
    ensures StepsLeft(sys, b, n) == StepsLeft(sys, a, n) - if r < n then 1 else 0
  {
    if n > 0 {
      OneLess(sys, a, b, r, n - 1);
    }
  }

  lemma StepShortens<V(!new)>(sys: System<V>, s: State<V>, r: nat)
    requires RanksOk(sys, s) && Enabled(sys, s, r)
    ensures |Do(sys, s, r).ranks| == sys.world
    ensures StepsLeft(sys, Do(sys, s, r).ranks, sys.world) == StepsLeft(sys, s.ranks, sys.world) - 1
  {
    assert RankOk(sys, s.ranks[r], r);
    OneLess(sys, s.ranks, Do(sys, s, r).ranks, r, sys.world);
  }

  lemma {:induction false} LeftNonNegative<V(!new)>(sys: System<V>, s: State<V>, n: nat)
    requires RanksOk(sys, s) && n <= sys.world
    ensures 0 <= StepsLeft(sys, s.ranks, n)
    ensures StepsLeft(sys, s.ranks, n) == 0 <==> forall r: nat | r < n :: s.ranks[r].done == |sys.calls|
  {
    if n > 0 {
      assert RankOk(sys, s.ranks[n - 1], n - 1);
      LeftNonNegative(sys, s, n - 1);
    }
  }

  lemma {:induction false} RunShortens<V(!new)>(sys: System<V>, s: State<V>, run: seq<nat>, t: State<V>)
    requires sys.Ok() && Inv(sys, s) && Runs(sys, s, run, t)
    ensures |t.ranks| == sys.world && |run| == StepsLeft(sys, s.ranks, sys.world) - StepsLeft(sys, t.ranks, sys.world)
    decreases |run|
  {
    if run != [] {
      StepInv(sys, s, run[0]);
      StepShortens(sys, s, run[0]);
      RunShortens(sys, Do(sys, s, run[0]), run[1..], t);
    }
  }

  // Whatever the order of the steps, a run ends within that many, and where it cannot go on
  // every rank has finished every call.
  lemma RunsOut<V(!new)>(sys: System<V>, run: seq<nat>, t: State<V>)
    requires sys.Ok() && Runs(sys, Init(sys), run, t)
    ensures |run| <= StepsLeft(sys, Init(sys).ranks, sys.world)
    ensures |t.ranks| == sys.world
    ensures (forall r: nat :: !Enabled(sys, t, r)) <==> (forall r: nat | r < sys.world :: t.ranks[r].done == |sys.calls|)
  {
    InitInv(sys);
    RunInv(sys, Init(sys), run, t);
    RunShortens(sys, Init(sys), run, t);
    LeftNonNegative(sys, t, sys.world);
    if q: nat :| q < sys.world && t.ranks[q].done != |sys.calls| {
      assert RankOk(sys, t.ranks[q], q);
      var r := NoDeadlock(sys, run, t, q);
    }
  }
}
