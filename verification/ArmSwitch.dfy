// The switch of arms voted by all ranks: each rank checks, applies and if need be
// restores on its own; control collectives keep the ranks together, and the outcome is
// the same on all of them.
module ArmSwitch {

  // S is the state a rank acknowledges (the arm or pairs on, the generation, the replay
  // flag); D its device state (graph flags, eager state), dev(s) the one that belongs
  // to s. Both switches run the protocol; only the hot pairs gather what is carried.
  // target(r) is what rank r is asked for. resolved: the ranks that have resolved their
  // switch before, available: those that can. ready(r): rank r's own checks pass; names(r):
  // the pairs it carries; applies(r), restores(r): its apply, or restore, succeeds.
  datatype Request<!S(==), !D, !N(==)> = Request(ranks: nat, target: nat -> S, dev: S -> D, hot: bool, on: set<N>,
                                                 resolved: set<nat>, available: set<nat>, ready: nat -> bool,
                                                 names: nat -> set<N>, applies: nat -> bool, restores: nat -> bool)
  {
    predicate Ready(r: nat) {
      Resolves(r) && ready(r)
    }

    predicate Resolves(r: nat) {
      r in resolved || r in available
    }

    // A rank of the arm switch that cannot resolve it raises an error before it votes; of
    // the hot pairs it votes no.
    predicate Votes(r: nat) {
      hot || Resolves(r)
    }

    predicate AllVote() {
      forall r: nat | r < ranks :: Votes(r)
    }

    predicate NoneVotes() {
      forall r: nat | r < ranks :: !Votes(r)
    }
  }

  datatype Outcome = Refused | Committed | RolledBack | Raised

  // Local steps are Checking, Carrying, Applying and Restoring; at the others the rank
  // is in a collective with what it contributes.
  datatype Pc<!N(==)> =
    | Checking | Vote1(ready: bool)
    | Carrying | Gather(names: set<N>)
    | Ack1 | Applying | Vote2(applied: bool)
    | Ack2 | Restoring | Vote3(restored: bool) | Ack3
    | Done(outcome: Outcome) | Stopped

  // verdicts lists the results of the collectives the rank has been through.
  datatype Rank<!S(==), !D, !N(==)> = Rank(pc: Pc<N>, st: S, dev: D, previous: S, verdicts: seq<bool>)

  type State<!S(==), !D, !N(==)> = seq<Rank<S, D, N>>

  ghost predicate Start<S(!new), D(!new), N(!new)>(req: Request<S, D, N>, s: State<S, D, N>) {
    |s| == req.ranks && 0 < req.ranks
    && forall r | 0 <= r < |s| :: s[r].pc == Checking && s[r].previous == s[r].st && s[r].dev == req.dev(s[r].st) && s[r].verdicts == []
  }

  // --- Local steps -------------------------------------------------------------------

  // A rank does what it does whatever the others do: it refuses, and must if it cannot resolve
  // its switch; applying or restoring may fail half done, leaving any state.
  ghost predicate LocalStep<S(!new), D(!new), N(!new)>(req: Request<S, D, N>, r: nat, a: Rank<S, D, N>, b: Rank<S, D, N>) {
    && b.previous == a.previous && b.verdicts == a.verdicts
    && match a.pc
       case Checking =>
         && b.st == a.st && b.dev == a.dev
         && b.pc == (if req.Votes(r) then Vote1(req.Ready(r)) else Done(Raised))
       case Carrying => b.pc == Gather(req.names(r)) && b.st == a.st && b.dev == a.dev
       case Applying => b.pc == Vote2(req.applies(r)) && (req.applies(r) ==> b.st == req.target(r) && b.dev == req.dev(req.target(r)))
       case Restoring => b.pc == Vote3(req.restores(r)) && (req.restores(r) ==> b.st == a.previous && b.dev == req.dev(a.previous))
       case _ => false
  }

  // --- Collectives --------------------------------------------------------------------

  datatype Kind = KVote1 | KGather | KAck1 | KVote2 | KAck2 | KVote3 | KAck3

  function KindOf<N>(pc: Pc<N>): (k: Kind)
    requires InCollective(pc)
  {
    match pc
    case Vote1(_) => KVote1 case Gather(_) => KGather case Ack1 => KAck1 case Vote2(_) => KVote2
    case Ack2 => KAck2 case Vote3(_) => KVote3 case Ack3 => KAck3
  }

  predicate InCollective<N>(pc: Pc<N>) {
    pc.Vote1? || pc.Gather? || pc.Ack1? || pc.Vote2? || pc.Ack2? || pc.Vote3? || pc.Ack3?
  }

  // What a rank has put into the collective it is in, as far as votes go.
  predicate Yes<N>(pc: Pc<N>) {
    match pc
    case Vote1(ready) => ready
    case Vote2(applied) => applied
    case Vote3(restored) => restored
    case _ => true
  }

  ghost function Names<S(!new), D(!new), N(!new)>(s: State<S, D, N>, n: nat): set<N>
    requires n <= |s|
  {
    if n == 0 then {} else Names(s, n - 1) + (if s[n - 1].pc.Gather? then s[n - 1].pc.names else {})
  }

  // The collective's result: the votes' minimum; whether the names wanted are carried
  // anywhere; whether every state gathered equals the rank's own.
  ghost predicate Verdict<S(!new), D(!new), N(!new)>(req: Request<S, D, N>, s: State<S, D, N>, k: Kind, r: nat)
    requires r < |s|
  {
    match k
    case KGather => req.on <= Names(s, |s|)
    case KAck1 => forall q | 0 <= q < |s| :: s[q].st == s[r].st
    case KAck2 => forall q | 0 <= q < |s| :: s[q].st == s[r].st
    case KAck3 => forall q | 0 <= q < |s| :: s[q].st == s[r].st
    case _ => forall q | 0 <= q < |s| :: Yes(s[q].pc)
  }

  // Where a rank goes with a verdict.
  function After<N>(hot: bool, k: Kind, verdict: bool): Pc<N> {
    match k
    case KVote1 => if !verdict then Done(Refused) else if hot then Carrying else Ack1
    case KGather => if verdict then Ack1 else Done(Refused)
    case KAck1 => if verdict then Applying else Stopped
    case KVote2 => if verdict then Ack2 else Restoring
    case KAck2 => if verdict then Done(Committed) else Restoring
    case KVote3 => if verdict then Ack3 else Stopped
    case KAck3 => if verdict then Done(RolledBack) else Stopped
  }

  // Every rank is in a collective, and it is the same one.
  ghost predicate Meets<S(!new), D(!new), N(!new)>(s: State<S, D, N>, k: Kind) {
    forall r | 0 <= r < |s| :: InCollective(s[r].pc) && KindOf(s[r].pc) == k
  }

  ghost function Concluded<S(!new), D(!new), N(!new)>(req: Request<S, D, N>, s: State<S, D, N>, k: Kind): State<S, D, N> {
    seq(|s|, r requires 0 <= r < |s| =>
      var v := Verdict(req, s, k, r);
      s[r].(pc := After(req.hot, k, v), verdicts := s[r].verdicts + [v]))
  }

  ghost predicate Step<S(!new), D(!new), N(!new)>(req: Request<S, D, N>, s: State<S, D, N>, t: State<S, D, N>) {
    || (exists r, b :: 0 <= r < |s| && LocalStep(req, r, s[r], b) && t == s[r := b])
    || (exists k :: Meets(s, k) && t == Concluded(req, s, k))
  }

  // --- Together -----------------------------------------------------------------------

  // The stage of a rank: its last collective's place in the protocol.
  function Stage<N>(pc: Pc<N>): nat {
    match pc
    case Checking => 0 case Vote1(_) => 0
    case Carrying => 1 case Gather(_) => 1
    case Ack1 => 2
    case Applying => 3 case Vote2(_) => 3
    case Ack2 => 4
    case Restoring => 5 case Vote3(_) => 5
    case Ack3 => 6
    case Done(Refused) => 7 case Done(Committed) => 8 case Done(RolledBack) => 9
    case Stopped => 10 case Done(Raised) => 11
  }

  // Every rank is at the same stage with the same verdicts behind it, and its own state
  // is what the stage allows.
  ghost predicate Inv<S(!new), D(!new), N(!new)>(req: Request<S, D, N>, s: State<S, D, N>) {
    && |s| == req.ranks && 0 < req.ranks
    && (forall r, q | 0 <= r < |s| && 0 <= q < |s| :: Stage(s[r].pc) == Stage(s[q].pc) && s[r].verdicts == s[q].verdicts)
    && (forall r: nat | r < |s| :: RankOk(req, r, s[r]))
    && (forall r: nat, q: nat | r < |s| && q < |s| && s[r].pc == Done(Committed) :: req.target(r) == req.target(q))
    && (forall r, q | 0 <= r < |s| && 0 <= q < |s| && 3 <= Stage(s[r].pc) <= 9 && Stage(s[r].pc) != 7 :: s[r].previous == s[q].previous)
  }

  ghost predicate RankOk<S(!new), D(!new), N(!new)>(req: Request<S, D, N>, r: nat, a: Rank<S, D, N>) {
    && a.pc != Done(Raised)
    && (Stage(a.pc) <= 2 || a.pc == Applying || a.pc == Done(Refused) ==> a.st == a.previous && a.dev == req.dev(a.previous))
    && (Stage(a.pc) == 4 || a.pc == Done(Committed) || (a.pc.Vote2? && a.pc.applied) ==> a.st == req.target(r) && a.dev == req.dev(req.target(r)))
    && (Stage(a.pc) == 6 || a.pc == Done(RolledBack) || (a.pc.Vote3? && a.pc.restored) ==> a.st == a.previous && a.dev == req.dev(a.previous))
  }

  lemma StartInv<S(!new), D(!new), N(!new)>(req: Request<S, D, N>, s: State<S, D, N>)
    requires Start(req, s)
    ensures Inv(req, s)
  {
  }

  lemma LocalInv<S(!new), D(!new), N(!new)>(req: Request<S, D, N>, s: State<S, D, N>, r: nat, b: Rank<S, D, N>)
    requires Inv(req, s) && r < |s| && req.Votes(r) && LocalStep(req, r, s[r], b)
    ensures Inv(req, s[r := b])
  {
  }

  // A collective gives every rank the same verdict.
  lemma SameVerdict<S(!new), D(!new), N(!new)>(req: Request<S, D, N>, s: State<S, D, N>, k: Kind, r: nat, q: nat)
    requires r < |s| && q < |s|
    ensures Verdict(req, s, k, r) == Verdict(req, s, k, q)
  {
    if k == KAck1 || k == KAck2 || k == KAck3 {
      if Verdict(req, s, k, r) {
        assert forall o | 0 <= o < |s| :: s[o].st == s[r].st;
      }
      if Verdict(req, s, k, q) {
        assert forall o | 0 <= o < |s| :: s[o].st == s[q].st;
      }
    }
  }

  lemma CollectiveInv<S(!new), D(!new), N(!new)>(req: Request<S, D, N>, s: State<S, D, N>, k: Kind)
    requires Inv(req, s) && Meets(s, k)
    ensures Inv(req, Concluded(req, s, k))
  {
    var t := Concluded(req, s, k);
    var v := Verdict(req, s, k, 0);
    forall r: nat | r < |s|
      ensures t[r].pc == After(req.hot, k, v) && t[r].verdicts == s[0].verdicts + [v]
    {
      SameVerdict(req, s, k, r, 0);
      assert s[r].verdicts == s[0].verdicts;
    }
    forall r: nat | r < |s|
      ensures RankOk(req, r, t[r])
    {
      assert RankOk(req, r, s[r]);
      RankMoves(req, s, k, r);
    }
    SamePrevious(req, s, k, v);
  }

  lemma RankMoves<S(!new), D(!new), N(!new)>(req: Request<S, D, N>, s: State<S, D, N>, k: Kind, r: nat)
    requires Meets(s, k) && r < |s| && RankOk(req, r, s[r])
    ensures RankOk(req, r, Concluded(req, s, k)[r])
  {
    if k == KVote2 || k == KVote3 {
      assert Verdict(req, s, k, r) ==> Yes(s[r].pc);
    }
  }

  // Past the first acknowledgement every rank had the same state before.
  lemma SamePrevious<S(!new), D(!new), N(!new)>(req: Request<S, D, N>, s: State<S, D, N>, k: Kind, v: bool)
    requires Inv(req, s) && Meets(s, k) && v == Verdict(req, s, k, 0)
    requires forall r: nat | r < |s| :: Concluded(req, s, k)[r].pc == After(req.hot, k, v)
    ensures var t := Concluded(req, s, k);
      forall r, q | 0 <= r < |t| && 0 <= q < |t| && 3 <= Stage(t[r].pc) <= 9 && Stage(t[r].pc) != 7 :: t[r].previous == t[q].previous
  {
    forall r: nat | r < |s| && 3 <= Stage(After<N>(req.hot, k, v)) <= 9 && Stage(After<N>(req.hot, k, v)) != 7
      ensures s[r].previous == s[0].previous
    {
      AsBefore(req, s, k, v, r);
    }
  }

  lemma AsBefore<S(!new), D(!new), N(!new)>(req: Request<S, D, N>, s: State<S, D, N>, k: Kind, v: bool, r: nat)
    requires Inv(req, s) && Meets(s, k) && v == Verdict(req, s, k, 0) && r < |s|
    requires 3 <= Stage(After<N>(req.hot, k, v)) <= 9 && Stage(After<N>(req.hot, k, v)) != 7
    ensures s[r].previous == s[0].previous
  {
    assert RankOk(req, 0, s[0]) && RankOk(req, r, s[r]) && Stage(s[r].pc) == Stage(s[0].pc);
    if k == KAck1 {
      assert s[r].st == s[0].st;
    } else {
      LaterStage(req.hot, k, v, s[0].pc);
    }
  }

  // Only the first acknowledgement leads into the stages that change state.
  lemma LaterStage<N>(hot: bool, k: Kind, v: bool, pc: Pc<N>)
    requires InCollective(pc) && KindOf(pc) == k && k != KAck1
    requires 3 <= Stage(After<N>(hot, k, v)) <= 9 && Stage(After<N>(hot, k, v)) != 7
    ensures 3 <= Stage(pc) <= 9 && Stage(pc) != 7
  {
  }

  lemma StepInv<S(!new), D(!new), N(!new)>(req: Request<S, D, N>, s: State<S, D, N>, t: State<S, D, N>)
    requires Inv(req, s) && Step(req, s, t) && req.AllVote()
    ensures Inv(req, t)
  {
    if k :| Meets(s, k) && t == Concluded(req, s, k) {
      CollectiveInv(req, s, k);
    } else {
      var r, b :| 0 <= r < |s| && LocalStep(req, r, s[r], b) && t == s[r := b];
      LocalInv(req, s, r, b);
    }
  }

  ghost predicate Runs<S(!new), D(!new), N(!new)>(req: Request<S, D, N>, run: seq<State<S, D, N>>) {
    && |run| > 0 && Start(req, run[0])
    && forall i | 0 <= i < |run| - 1 :: Step(req, run[i], run[i + 1])
  }

  lemma {:induction false} RunInv<S(!new), D(!new), N(!new)>(req: Request<S, D, N>, run: seq<State<S, D, N>>, i: nat)
    requires Runs(req, run) && i < |run| && req.AllVote()
    ensures Inv(req, run[i]) && forall r | 0 <= r < |run[i]| :: run[i][r].previous == run[0][r].previous
    ensures |run[i]| == |run[0]|
    decreases i
  {
    if i == 0 {
      StartInv(req, run[0]);
    } else {
      RunInv(req, run, i - 1);
      assert Step(req, run[i - 1], run[i]);
      StepInv(req, run[i - 1], run[i]);
    }
  }

  // All ranks serve on with the new state, all with the state each had before, or all
  // have stopped.
  ghost predicate AllOrNone<S(!new), D(!new), N(!new)>(req: Request<S, D, N>, first: State<S, D, N>, s: State<S, D, N>)
    requires |s| == |first|
  {
    || (forall r | 0 <= r < |s| :: s[r].pc == Done(Committed) && s[r].st == req.target(r) && s[r].dev == req.dev(req.target(r)) && req.target(r) == req.target(0))
    || (forall r | 0 <= r < |s| ::
          (s[r].pc == Done(Refused) || s[r].pc == Done(RolledBack) || s[r].pc == Done(Raised)) && s[r].st == first[r].st && s[r].dev == req.dev(first[r].st))
    || (forall r | 0 <= r < |s| :: s[r].pc == Stopped)
  }

  ghost predicate Finished<N>(pc: Pc<N>) {
    pc.Done? || pc.Stopped?
  }

  // Once any rank that voted has finished, all have, in one of the three ways, and they have
  // been through the same collectives with the same verdicts.
  lemma FinishedTogether<S(!new), D(!new), N(!new)>(req: Request<S, D, N>, run: seq<State<S, D, N>>, s: State<S, D, N>, r: nat)
    requires Runs(req, run) && s == run[|run| - 1] && r < |s| && Finished(s[r].pc) && req.AllVote()
    ensures |s| == |run[0]| && AllOrNone(req, run[0], s)
    ensures forall q | 0 <= q < |s| :: s[q].verdicts == s[r].verdicts
  {
    RunInv(req, run, |run| - 1);
    forall q | 0 <= q < |s|
      ensures s[q].pc == s[r].pc && RankOk(req, q, s[q]) && s[q].previous == run[0][q].st
    {
      assert Stage(s[q].pc) == Stage(s[r].pc);
    }
  }

  // A local step of rank r.
  lemma LocalNext<S(!new), D(!new), N(!new)>(req: Request<S, D, N>, r: nat, a: Rank<S, D, N>) returns (b: Rank<S, D, N>)
    requires req.Votes(r) && (a.pc.Checking? || a.pc.Carrying? || a.pc.Applying? || a.pc.Restoring?)
    ensures LocalStep(req, r, a, b)
  {
    match a.pc
    case Checking => b := a.(pc := Vote1(req.Ready(r)));
    case Carrying => b := a.(pc := Gather(req.names(r)));
    case Applying => b := a.(pc := Vote2(req.applies(r)), st := req.target(r), dev := req.dev(req.target(r)));
    case Restoring => b := a.(pc := Vote3(req.restores(r)), st := a.previous, dev := req.dev(a.previous));
  }

  // Until then some rank can go on, or all of them meet in one collective: none ever
  // waits in a collective another has left out.
  lemma NeverApart<S(!new), D(!new), N(!new)>(req: Request<S, D, N>, run: seq<State<S, D, N>>, s: State<S, D, N>) returns (t: State<S, D, N>)
    requires Runs(req, run) && s == run[|run| - 1] && req.AllVote() && exists r :: 0 <= r < |s| && !Finished(s[r].pc)
    ensures Step(req, s, t)
  {
    RunInv(req, run, |run| - 1);
    if r :| 0 <= r < |s| && (s[r].pc.Checking? || s[r].pc.Carrying? || s[r].pc.Applying? || s[r].pc.Restoring?) {
      var a := s[r];
      var b := LocalNext(req, r, a);
      t := s[r := b];
    } else {
      var r :| 0 <= r < |s| && !Finished(s[r].pc);
      var k := KindOf(s[r].pc);
      forall q | 0 <= q < |s|
        ensures InCollective(s[q].pc) && KindOf(s[q].pc) == k
      {
        SameStage(s[q].pc, s[r].pc);
      }
      t := Concluded(req, s, k);
    }
  }

  lemma SameStage<N>(pc: Pc<N>, other: Pc<N>)
    requires Stage(pc) == Stage(other) && InCollective(other) && !(pc.Checking? || pc.Carrying? || pc.Applying? || pc.Restoring?)
    ensures InCollective(pc) && KindOf(pc) == KindOf(other)
  {
  }

  // --- How a switch ends ---------------------------------------------------------------------

  // Every rank is ready, and the names asked for are carried somewhere.
  ghost predicate Allowed<S(!new), D(!new), N(!new)>(req: Request<S, D, N>) {
    && (forall r: nat | r < req.ranks :: req.Ready(r))
    && (req.hot ==> Carried(req))
  }

  ghost predicate Carried<S(!new), D(!new), N(!new)>(req: Request<S, D, N>) {
    forall n | n in req.on :: exists r: nat :: r < req.ranks && n in req.names(r)
  }

  ghost predicate Agreed<S(!new), D(!new), N(!new)>(first: State<S, D, N>) {
    forall r: nat, q: nat | r < |first| && q < |first| :: first[r].st == first[q].st
  }

  ghost predicate AllApply<S(!new), D(!new), N(!new)>(req: Request<S, D, N>) {
    forall r: nat | r < req.ranks :: req.applies(r)
  }

  ghost predicate SameTarget<S(!new), D(!new), N(!new)>(req: Request<S, D, N>) {
    forall r: nat, q: nat | r < req.ranks && q < req.ranks :: req.target(r) == req.target(q)
  }

  ghost predicate AllRestore<S(!new), D(!new), N(!new)>(req: Request<S, D, N>) {
    forall r: nat | r < req.ranks :: req.restores(r)
  }

  // What each collective finds out.
  ghost predicate Finds<S(!new), D(!new), N(!new)>(req: Request<S, D, N>, first: State<S, D, N>, k: Kind) {
    match k
    case KVote1 => forall r: nat | r < req.ranks :: req.Ready(r)
    case KGather => Carried(req)
    case KAck1 => Agreed(first)
    case KVote2 => AllApply(req)
    case KAck2 => SameTarget(req)
    case KVote3 => AllRestore(req)
    case KAck3 => true
  }

  // What rank r's being at pc tells of the inputs.
  ghost predicate Told<S(!new), D(!new), N(!new)>(req: Request<S, D, N>, first: State<S, D, N>, r: nat, pc: Pc<N>) {
    match pc
    case Checking => true
    case Vote1(ready) => ready == req.Ready(r)
    case Carrying => req.hot && Finds(req, first, KVote1)
    case Gather(names) => req.hot && Finds(req, first, KVote1) && names == req.names(r)
    case Ack1 => Allowed(req)
    case Applying => Allowed(req) && Agreed(first)
    case Vote2(applied) => Allowed(req) && Agreed(first) && applied == req.applies(r)
    case Ack2 => Allowed(req) && Agreed(first) && AllApply(req)
    case Restoring => Allowed(req) && Agreed(first) && !(AllApply(req) && SameTarget(req))
    case Vote3(restored) => Allowed(req) && Agreed(first) && !(AllApply(req) && SameTarget(req)) && restored == req.restores(r)
    case Ack3 => Allowed(req) && Agreed(first) && !(AllApply(req) && SameTarget(req)) && AllRestore(req)
    case Done(Refused) => !Allowed(req)
    case Done(Committed) => Allowed(req) && Agreed(first) && AllApply(req) && SameTarget(req)
    case Done(RolledBack) => Allowed(req) && Agreed(first) && !(AllApply(req) && SameTarget(req)) && AllRestore(req)
    case Done(Raised) => false
    case Stopped => Allowed(req) && (!Agreed(first) || (!(AllApply(req) && SameTarget(req)) && !AllRestore(req)))
  }

  // Each rank is where the inputs lead, and remembers its first state.
  ghost predicate AllTold<S(!new), D(!new), N(!new)>(req: Request<S, D, N>, first: State<S, D, N>, s: State<S, D, N>) {
    |s| == |first| && forall r: nat | r < |s| :: Told(req, first, r, s[r].pc) && s[r].previous == first[r].st
  }

  lemma {:induction false} InNames<S(!new), D(!new), N(!new)>(s: State<S, D, N>, m: nat, n: N)
    requires m <= |s|
    ensures n in Names(s, m) <==> exists r: nat :: r < m && s[r].pc.Gather? && n in s[r].pc.names
    decreases m
  {
    if m > 0 {
      InNames(s, m - 1, n);
    }
  }

  lemma GatherFinds<S(!new), D(!new), N(!new)>(req: Request<S, D, N>, first: State<S, D, N>, s: State<S, D, N>)
    requires Inv(req, s) && AllTold(req, first, s) && Meets(s, KGather)
    ensures Verdict(req, s, KGather, 0) <==> Carried(req)
  {
    forall n | n in req.on
      ensures n in Names(s, |s|) <==> exists r: nat :: r < req.ranks && n in req.names(r)
    {
      InNames(s, |s|, n);
      forall r: nat | r < |s|
        ensures s[r].pc == Gather(req.names(r))
      {
        assert Told(req, first, r, s[r].pc);
      }
    }
  }

  // What rank r votes.
  function Vote<S, D, N>(req: Request<S, D, N>, k: Kind, r: nat): bool {
    match k
    case KVote1 => req.Ready(r) case KVote2 => req.applies(r) case KVote3 => req.restores(r)
    case _ => true
  }

  lemma VotesFind<S(!new), D(!new), N(!new)>(req: Request<S, D, N>, first: State<S, D, N>, s: State<S, D, N>, k: Kind)
    requires |s| == req.ranks && 0 < |s| && AllTold(req, first, s) && Meets(s, k) && (k == KVote1 || k == KVote2 || k == KVote3)
    ensures Verdict(req, s, k, 0) <==> Finds(req, first, k)
  {
    forall r: nat | r < |s|
      ensures Yes(s[r].pc) == Vote(req, k, r)
    {
      assert Told(req, first, r, s[r].pc) && KindOf(s[r].pc) == k;
    }
    if Verdict(req, s, k, 0) {
      forall r: nat | r < req.ranks
        ensures k == KVote1 ==> req.Ready(r)
        ensures k == KVote2 ==> req.applies(r)
        ensures k == KVote3 ==> req.restores(r)
      {
        assert Yes(s[r].pc) == Vote(req, k, r);
      }
    }
  }

  // What rank r acknowledges.
  function Shown<S, D, N>(req: Request<S, D, N>, first: State<S, D, N>, k: Kind, r: nat): S
    requires r < |first|
  {
    if k == KAck2 then req.target(r) else first[r].st
  }

  lemma AcksFind<S(!new), D(!new), N(!new)>(req: Request<S, D, N>, first: State<S, D, N>, s: State<S, D, N>, k: Kind)
    requires Inv(req, s) && AllTold(req, first, s) && Meets(s, k) && (k == KAck1 || k == KAck2 || k == KAck3)
    ensures Verdict(req, s, k, 0) <==> Finds(req, first, k)
  {
    forall r: nat | r < |s|
      ensures s[r].st == Shown(req, first, k, r) && Told(req, first, r, s[r].pc)
    {
      assert RankOk(req, r, s[r]) && KindOf(s[r].pc) == k;
    }
    if Verdict(req, s, k, 0) {
      forall r: nat, q: nat | r < |s| && q < |s|
        ensures Shown(req, first, k, r) == Shown(req, first, k, q)
      {
        assert s[r].st == s[0].st && s[q].st == s[0].st;
      }
    }
  }

  // Each collective's verdict is what it is to find out.
  lemma VerdictFinds<S(!new), D(!new), N(!new)>(req: Request<S, D, N>, first: State<S, D, N>, s: State<S, D, N>, k: Kind)
    requires Inv(req, s) && AllTold(req, first, s) && Meets(s, k)
    ensures Verdict(req, s, k, 0) <==> Finds(req, first, k)
  {
    match k
    case KGather => GatherFinds(req, first, s);
    case KVote1 => VotesFind(req, first, s, k);
    case KVote2 => VotesFind(req, first, s, k);
    case KVote3 => VotesFind(req, first, s, k);
    case KAck1 => AcksFind(req, first, s, k);
    case KAck2 => AcksFind(req, first, s, k);
    case KAck3 => AcksFind(req, first, s, k);
  }

  lemma AfterTold<S(!new), D(!new), N(!new)>(req: Request<S, D, N>, first: State<S, D, N>, r: nat, pc: Pc<N>, k: Kind, v: bool)
    requires InCollective(pc) && KindOf(pc) == k && Told(req, first, r, pc) && v == Finds(req, first, k)
    ensures Told(req, first, r, After(req.hot, k, v))
  {
  }

  lemma CollectiveTold<S(!new), D(!new), N(!new)>(req: Request<S, D, N>, first: State<S, D, N>, s: State<S, D, N>, k: Kind)
    requires Inv(req, s) && AllTold(req, first, s) && Meets(s, k)
    ensures AllTold(req, first, Concluded(req, s, k))
  {
    VerdictFinds(req, first, s, k);
    forall r: nat | r < |s|
      ensures Told(req, first, r, Concluded(req, s, k)[r].pc)
    {
      SameVerdict(req, s, k, r, 0);
      AfterTold(req, first, r, s[r].pc, k, Verdict(req, s, k, r));
    }
  }

  lemma LocalTold<S(!new), D(!new), N(!new)>(req: Request<S, D, N>, first: State<S, D, N>, s: State<S, D, N>, r: nat, b: Rank<S, D, N>)
    requires AllTold(req, first, s) && r < |s| && req.Votes(r) && LocalStep(req, r, s[r], b)
    ensures AllTold(req, first, s[r := b])
  {
    assert Told(req, first, r, s[r].pc);
  }

  lemma {:induction false} RunTold<S(!new), D(!new), N(!new)>(req: Request<S, D, N>, run: seq<State<S, D, N>>, i: nat)
    requires Runs(req, run) && i < |run| && req.AllVote()
    ensures AllTold(req, run[0], run[i])
    decreases i
  {
    if i > 0 {
      var s := run[i - 1];
      RunTold(req, run, i - 1);
      RunInv(req, run, i - 1);
      assert Step(req, s, run[i]);
      if k :| Meets(s, k) && run[i] == Concluded(req, s, k) {
        CollectiveTold(req, run[0], s, k);
      } else {
        var r, b :| 0 <= r < |s| && LocalStep(req, r, s[r], b) && run[i] == s[r := b];
        LocalTold(req, run[0], s, r, b);
      }
    }
  }

  // How a switch on ranks that all vote ends is decided by the inputs, in every run.
  lemma EndsBy<S(!new), D(!new), N(!new)>(req: Request<S, D, N>, run: seq<State<S, D, N>>, s: State<S, D, N>, r: nat)
    requires Runs(req, run) && s == run[|run| - 1] && r < |s| && Finished(s[r].pc) && req.AllVote()
    ensures s[r].pc == Done(Committed) <==> Allowed(req) && Agreed(run[0]) && AllApply(req) && SameTarget(req)
    ensures s[r].pc == Done(Refused) <==> !Allowed(req)
    ensures s[r].pc == Done(RolledBack)
            <==> Allowed(req) && Agreed(run[0]) && !(AllApply(req) && SameTarget(req)) && AllRestore(req)
    ensures s[r].pc == Stopped
            <==> Allowed(req) && (!Agreed(run[0]) || (!(AllApply(req) && SameTarget(req)) && !AllRestore(req)))
  {
    RunTold(req, run, |run| - 1);
    assert Told(req, run[0], r, s[r].pc);
  }

  // --- Runs end --------------------------------------------------------------------------------

  // The steps a rank has left at most.
  function Left<N>(pc: Pc<N>): nat {
    match pc
    case Checking => 13 case Vote1(_) => 12 case Carrying => 11 case Gather(_) => 10 case Ack1 => 9
    case Applying => 8 case Vote2(_) => 7 case Ack2 => 6 case Restoring => 5 case Vote3(_) => 4 case Ack3 => 3
    case Done(_) => 0 case Stopped => 0
  }

  ghost function AllLeft<S(!new), D(!new), N(!new)>(s: State<S, D, N>): nat {
    if s == [] then 0 else AllLeft(s[..|s| - 1]) + Left(s[|s| - 1].pc)
  }

  lemma {:induction false} LeftFalls<S(!new), D(!new), N(!new)>(s: State<S, D, N>, t: State<S, D, N>)
    requires |s| == |t| && forall r: nat | r < |s| :: Left(t[r].pc) <= Left(s[r].pc)
    ensures AllLeft(t) <= AllLeft(s)
    ensures (exists r: nat :: r < |s| && Left(t[r].pc) < Left(s[r].pc)) ==> AllLeft(t) < AllLeft(s)
  {
    if s != [] {
      LeftFalls(s[..|s| - 1], t[..|t| - 1]);
      if r: nat :| r < |s| - 1 && Left(t[r].pc) < Left(s[r].pc) {
        assert s[..|s| - 1][r] == s[r] && t[..|t| - 1][r] == t[r];
      }
    }
  }

  lemma {:induction false} StartLeft<S(!new), D(!new), N(!new)>(s: State<S, D, N>)
    requires forall r: nat | r < |s| :: s[r].pc == Checking
    ensures AllLeft(s) == 13 * |s|
  {
    if s != [] {
      StartLeft(s[..|s| - 1]);
    }
  }

  lemma StepLeft<S(!new), D(!new), N(!new)>(req: Request<S, D, N>, s: State<S, D, N>, t: State<S, D, N>)
    requires 0 < |s| && Step(req, s, t)
    ensures |t| == |s| && AllLeft(t) < AllLeft(s)
  {
    if k :| Meets(s, k) && t == Concluded(req, s, k) {
      forall r: nat | r < |s|
        ensures Left(t[r].pc) < Left(s[r].pc)
      {
        AfterLeft(s[r].pc, req.hot, k, Verdict(req, s, k, r));
      }
      assert Left(t[0].pc) < Left(s[0].pc);
    } else {
      var r, b :| 0 <= r < |s| && LocalStep(req, r, s[r], b) && t == s[r := b];
      LocalLeft(req, r, s[r], b);
      assert Left(t[r].pc) < Left(s[r].pc);
    }
    LeftFalls(s, t);
  }

  lemma AfterLeft<N>(pc: Pc<N>, hot: bool, k: Kind, v: bool)
    requires InCollective(pc) && KindOf(pc) == k
    ensures Left(After<N>(hot, k, v)) < Left(pc)
  {
  }

  lemma LocalLeft<S(!new), D(!new), N(!new)>(req: Request<S, D, N>, r: nat, a: Rank<S, D, N>, b: Rank<S, D, N>)
    requires LocalStep(req, r, a, b)
    ensures Left(b.pc) < Left(a.pc)
  {
  }

  // Steps in any order end, so that every run goes on to one of the endings.
  lemma {:induction false} RunsOut<S(!new), D(!new), N(!new)>(req: Request<S, D, N>, run: seq<State<S, D, N>>, i: nat)
    requires Runs(req, run) && i < |run|
    ensures |run[i]| == req.ranks && i + AllLeft(run[i]) <= 13 * req.ranks
    decreases i
  {
    if i == 0 {
      StartLeft(run[0]);
    } else {
      RunsOut(req, run, i - 1);
      assert Step(req, run[i - 1], run[i]);
      StepLeft(req, run[i - 1], run[i]);
    }
  }

  // --- Raised before the vote ------------------------------------------------------------

  // The switch is resolved or can be on every rank, or on none; the hot pairs always vote.
  // A caller can check it before the call.
  predicate Even<S, D, N>(req: Request<S, D, N>) {
    req.AllVote() || req.NoneVotes()
  }

  // All have finished all or none, or some rank or collective can go on.
  ghost predicate Sound<S(!new), D(!new), N(!new)>(req: Request<S, D, N>, run: seq<State<S, D, N>>)
    requires Runs(req, run)
  {
    var s := run[|run| - 1];
    if |s| == |run[0]| && forall r | 0 <= r < |s| :: Finished(s[r].pc) then AllOrNone(req, run[0], s)
    else !Stuck(req, s)
  }

  ghost predicate Stuck<S(!new), D(!new), N(!new)>(req: Request<S, D, N>, s: State<S, D, N>) {
    forall t :: !Step(req, s, t)
  }

  // When no rank votes, each raises and keeps its state.
  lemma {:induction false} RaisedInv<S(!new), D(!new), N(!new)>(req: Request<S, D, N>, run: seq<State<S, D, N>>, i: nat)
    requires Runs(req, run) && i < |run| && req.NoneVotes()
    ensures |run[i]| == |run[0]| == req.ranks
    ensures forall r | 0 <= r < |run[i]| ::
              (run[i][r].pc == Checking || run[i][r].pc == Done(Raised)) && run[i][r].st == run[0][r].st && run[i][r].dev == run[0][r].dev
    decreases i
  {
    if i > 0 {
      var s := run[i - 1];
      RaisedInv(req, run, i - 1);
      assert Step(req, s, run[i]);
      assert forall k :: Meets(s, k) ==> !InCollective(s[0].pc);
    }
  }

  lemma EvenSound<S(!new), D(!new), N(!new)>(req: Request<S, D, N>, run: seq<State<S, D, N>>)
    requires Runs(req, run) && Even(req)
    ensures Sound(req, run)
  {
    var s := run[|run| - 1];
    if req.AllVote() {
      RunInv(req, run, |run| - 1);
      if r :| 0 <= r < |s| && !Finished(s[r].pc) {
        var t := NeverApart(req, run, s);
      } else {
        FinishedTogether(req, run, s, 0);
      }
    } else {
      RaisedInv(req, run, |run| - 1);
      if r :| 0 <= r < |s| && !Finished(s[r].pc) {
        var a: Rank<S, D, N> := s[r];
        var b: Rank<S, D, N> := a.(pc := Done(Raised));
        assert LocalStep(req, r, a, b);
        assert Step(req, s, s[r := b]);
      }
    }
  }

  // Each rank in turn checks, and votes or raises.
  function Checked<S, D, N>(req: Request<S, D, N>, first: State<S, D, N>, i: nat): (s: State<S, D, N>)
    ensures |s| == |first|
  {
    seq(|first|, r requires 0 <= r < |first| =>
      var a: Rank<S, D, N> := first[r];
      if r < i then a.(pc := if req.Votes(r) then Vote1(req.Ready(r)) else Done(Raised)) else a)
  }

  lemma CheckedStep<S(!new), D(!new), N(!new)>(req: Request<S, D, N>, first: State<S, D, N>, i: nat)
    requires Start(req, first) && i < |first|
    ensures Step(req, Checked(req, first, i), Checked(req, first, i + 1))
  {
    var s, t := Checked(req, first, i), Checked(req, first, i + 1);
    assert t == s[i := t[i]];
    assert LocalStep(req, i, s[i], t[i]);
  }

  // Otherwise the ranks that vote wait for ever for those that have raised.
  lemma UnevenStuck<S(!new), D(!new), N(!new)>(req: Request<S, D, N>, first: State<S, D, N>) returns (run: seq<State<S, D, N>>)
    requires Start(req, first) && !Even(req)
    ensures Runs(req, run) && run[0] == first && !Sound(req, run)
    ensures run[|run| - 1] == Checked(req, first, |first|) && Stuck(req, run[|run| - 1])
  {
    var n := |first|;
    run := seq(n + 1, i requires 0 <= i < n + 1 => Checked(req, first, i));
    assert run[0] == first;
    forall i | 0 <= i < |run| - 1
      ensures Step(req, run[i], run[i + 1])
    {
      CheckedStep(req, first, i);
    }
    var s := run[n];
    var a: nat :| a < req.ranks && !req.Votes(a);
    var b: nat :| b < req.ranks && req.Votes(b);
    assert s[a].pc == Done(Raised) && s[b].pc.Vote1?;
    assert forall k :: Meets(s, k) ==> InCollective(s[a].pc);
  }

  // The switch is all or none in every run exactly when the ranks are even.
  lemma SoundIffEven<S(!new), D(!new), N(!new)>(req: Request<S, D, N>, first: State<S, D, N>)
    requires Start(req, first)
    ensures Even(req) <==> forall run | Runs(req, run) && run[0] == first :: Sound(req, run)
  {
    if Even(req) {
      forall run | Runs(req, run) && run[0] == first
        ensures Sound(req, run)
      {
        EvenSound(req, run);
      }
    } else {
      var run := UnevenStuck(req, first);
    }
  }

  // Two ranks, the first ready, the second unable to resolve the switch: the first waits in its vote.
  lemma OneRankRaises()
    ensures var req: Request<int, int, int> := Request(2, (r: nat) => 1, (x: int) => x, false, {}, {}, {0}, (r: nat) => true, (r: nat) => {},
                                                     (r: nat) => true, (r: nat) => true);
            var rank: Rank<int, int, int> := Rank(Checking, 0, 0, 0, []);
            exists run :: Runs(req, run) && run[0] == [rank, rank]
              && run[|run| - 1] == [Rank(Vote1(true), 0, 0, 0, []), Rank(Done(Raised), 0, 0, 0, [])]
              && Stuck(req, run[|run| - 1])
  {
    var req: Request<int, int, int> := Request(2, (r: nat) => 1, (x: int) => x, false, {}, {}, {0}, (r: nat) => true, (r: nat) => {},
                                                     (r: nat) => true, (r: nat) => true);
    var rank: Rank<int, int, int> := Rank(Checking, 0, 0, 0, []);
    assert req.Votes(0) && !req.Votes(1);
    var run := UnevenStuck(req, [rank, rank]);
    assert Checked(req, [rank, rank], 2) == [Rank(Vote1(true), 0, 0, 0, []), Rank(Done(Raised), 0, 0, 0, [])];
  }
}
