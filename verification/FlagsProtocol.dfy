// The flags-in-data all-reduce protocol: ranks push packs into their peers'
// buffers, a pack is ready when none of its words is the sentinel, and three
// stages rotate, each call refilling the stage of the call before. The 32-bit
// words of a store arrive one by one, at any later time and in any order.
//
// A call is given by the packs it sends (`Call`); `FlagsKernels` shows that the
// two-shot, one-shot and compressed kernels are such calls.
module FlagsProtocol {
  import opened WireFormat

  // A 32-bit word: two bf16 values.
  datatype Word = Word(lo: Half, hi: Half)

  const SENTINEL := Word(0xFFFF, 0xFFFF)
  const CANONICAL_PAIR := Word(0x7FFF, 0x7FFF)

  function WordOf(p: Pack, w: nat): Word
    requires w < 4
  {
    Word(p[2 * w], p[2 * w + 1])
  }

  function PackOf(a: Word, b: Word, c: Word, d: Word): Pack {
    [a.lo, a.hi, b.lo, b.hi, c.lo, c.hi, d.lo, d.hi]
  }

  ghost predicate Clean(p: Pack) {
    forall w: nat :: w < 4 ==> WordOf(p, w) != SENTINEL
  }

  // --- Calls -------------------------------------------------------------------------

  // A pack of a stage of rank dst's buffer.
  datatype Place = Place(dst: nat, addr: nat)

  // What `sender` puts there: `make` of the packs it finds at `needs` in its own
  // stage, `pack` when those packs are the ones meant.
  datatype Slot = Slot(sender: nat, needs: set<nat>, make: map<nat, Pack> -> Pack, pack: Pack)

  // `used` goes into the epoch words and tells the next call what to refill.
  datatype Call = Call(slots: map<Place, Slot>, used: nat)

  // region(n) are the words refilled when the epoch word says n.
  datatype Config = Config(ranks: nat, calls: seq<Call>, region: nat -> set<(nat, nat)>)
  {
    ghost predicate NeedsOk(call: Call, p: Place)
      requires p in call.slots
    {
      var slot := call.slots[p];
      && (forall n: nat | n in slot.needs ::
            && Place(slot.sender, n) in call.slots
            && call.slots[Place(slot.sender, n)].needs == {})
      && slot.pack == slot.make(PacksAt(call, slot.sender, slot.needs))
    }

    ghost predicate SlotOk(call: Call, p: Place)
      requires p in call.slots
    {
      var slot := call.slots[p];
      && p.dst < ranks && slot.sender < ranks && slot.sender != p.dst
      && (forall w: nat | w < 4 :: (p.addr, w) in region(call.used))
      && Clean(slot.pack)
      && NeedsOk(call, p)
    }

    // Rank r cannot end the call before rank s has started it.
    ghost predicate Hears(call: Call, r: nat, s: nat) {
      exists p :: p in call.slots && p.dst == r
        && (call.slots[p].sender == s
            || exists n :: n in call.slots[p].needs && Place(call.slots[p].sender, n) in call.slots
                 && call.slots[Place(call.slots[p].sender, n)].sender == s)
    }

    ghost predicate CallOk(call: Call) {
      && (forall p | p in call.slots :: SlotOk(call, p))
      && (forall r: nat, s: nat | r < ranks && s < ranks && r != s :: Hears(call, r, s))
    }

    ghost predicate Ok() {
      && (forall c | 0 <= c < |calls| :: CallOk(calls[c]))
      && region(0) == {}
    }
  }

  ghost function PacksAt(call: Call, r: nat, needs: set<nat>): map<nat, Pack>
    requires forall n: nat | n in needs :: Place(r, n) in call.slots
  {
    map n: nat | n in needs :: call.slots[Place(r, n)].pack
  }

  // Everything rank r receives in a call.
  ghost function Received(call: Call, r: nat): map<Place, Pack> {
    map p | p in call.slots && p.dst == r :: call.slots[p].pack
  }

  // --- Steps -------------------------------------------------------------------------

  datatype Cell = Cell(dst: nat, stage: nat, addr: nat, w: nat)

  // A word on its way. `call` records where it comes from; delivery ignores it.
  datatype Msg = Msg(cell: Cell, word: Word, call: nat)

  // stage is w[0], used w[2..4], done w[8]. pushed, refilled and got are what the
  // threads of the running call have done; log is what each past call received.
  datatype Rank = Rank(stage: nat, used: seq<nat>, done: nat, pushed: set<Place>,
                       refilled: set<(nat, nat)>, got: map<Place, Pack>, log: seq<map<Place, Pack>>)

  // A cell absent from mem holds the sentinel.
  datatype State = State(ranks: seq<Rank>, mem: map<Cell, Word>, air: set<Msg>)

  datatype Action =
    | Push(r: nat, p: Place)
    | Land(m: Msg)
    | Refill(r: nat, addr: nat, w: nat)
    | Take(r: nat, addr: nat)
    | Finish(r: nat)

  ghost function Init(cfg: Config): State {
    State(seq(cfg.ranks, i => Rank(0, [0, 0, 0], 0, {}, {}, map[], [])), map[], {})
  }

  ghost predicate Shaped(cfg: Config, s: State) {
    |s.ranks| == cfg.ranks && forall r | 0 <= r < cfg.ranks :: |s.ranks[r].used| == 3
  }

  ghost function Read(s: State, cell: Cell): Word {
    if cell in s.mem then s.mem[cell] else SENTINEL
  }

  // A 16-byte load.
  ghost function Load(s: State, r: nat, stage: nat, addr: nat): Pack {
    PackOf(Read(s, Cell(r, stage, addr, 0)), Read(s, Cell(r, stage, addr, 1)),
           Read(s, Cell(r, stage, addr, 2)), Read(s, Cell(r, stage, addr, 3)))
  }

  ghost function DirtyStage(rank: Rank): nat {
    (rank.stage + 2) % 3
  }

  ghost function ToRefill(cfg: Config, rank: Rank): set<(nat, nat)>
    requires |rank.used| == 3
  {
    cfg.region(rank.used[DirtyStage(rank)])
  }

  ghost predicate Active(cfg: Config, s: State, r: nat) {
    r < cfg.ranks == |s.ranks| && s.ranks[r].done < |cfg.calls|
  }

  ghost function Current(cfg: Config, s: State, r: nat): Call
    requires Active(cfg, s, r)
  {
    cfg.calls[s.ranks[r].done]
  }

  ghost predicate Mine(call: Call, r: nat, p: Place) {
    p in call.slots && call.slots[p].sender == r
  }

  ghost predicate Enabled(cfg: Config, s: State, a: Action)
    requires Shaped(cfg, s)
  {
    match a
    case Push(r, p) =>
      && Active(cfg, s, r) && Mine(Current(cfg, s, r), r, p) && p !in s.ranks[r].pushed
      && forall n: nat | n in Current(cfg, s, r).slots[p].needs :: Place(r, n) in s.ranks[r].got
    case Land(m) => m in s.air
    case Refill(r, addr, w) => Active(cfg, s, r) && w < 4 && (addr, w) in ToRefill(cfg, s.ranks[r])
    case Take(r, addr) =>
      && Active(cfg, s, r) && Place(r, addr) in Current(cfg, s, r).slots && Place(r, addr) !in s.ranks[r].got
      && Clean(Load(s, r, s.ranks[r].stage, addr))
    case Finish(r) =>
      && Active(cfg, s, r)
      && (forall p | Mine(Current(cfg, s, r), r, p) :: p in s.ranks[r].pushed)
      && (forall addr: nat, w: nat | w < 4 :: Refilled(cfg, s.ranks[r], addr, w))
      && (forall p | p in Current(cfg, s, r).slots && p.dst == r :: p in s.ranks[r].got)
  }

  // The pack a push sends, from the packs found so far.
  ghost function Sends(slot: Slot, got: map<Place, Pack>): Pack
    requires forall n: nat | n in slot.needs :: Place(slot.sender, n) in got
  {
    slot.make(map n: nat | n in slot.needs :: got[Place(slot.sender, n)])
  }

  ghost function WordsOf(p: Place, stage: nat, pack: Pack, call: nat): set<Msg> {
    set w: nat | w < 4 :: Msg(Cell(p.dst, stage, p.addr, w), WordOf(pack, w), call)
  }

  ghost function Do(cfg: Config, s: State, a: Action): State
    requires Shaped(cfg, s) && Enabled(cfg, s, a)
  {
    match a
    case Push(r, p) =>
      var rank := s.ranks[r];
      var pack := Sends(Current(cfg, s, r).slots[p], rank.got);
      s.(ranks := s.ranks[r := rank.(pushed := rank.pushed + {p})],
         air := s.air + WordsOf(p, rank.stage, pack, rank.done))
    case Land(m) => s.(mem := s.mem[m.cell := m.word], air := s.air - {m})
    case Refill(r, addr, w) =>
      var rank := s.ranks[r];
      s.(ranks := s.ranks[r := rank.(refilled := rank.refilled + {(addr, w)})],
         mem := s.mem[Cell(r, DirtyStage(rank), addr, w) := SENTINEL])
    case Take(r, addr) =>
      var rank := s.ranks[r];
      s.(ranks := s.ranks[r := rank.(got := rank.got[Place(r, addr) := Load(s, r, rank.stage, addr)])])
    case Finish(r) =>
      var rank := s.ranks[r];
      if rank.stage < 3 then
        s.(ranks := s.ranks[r := Rank((rank.stage + 1) % 3, rank.used[rank.stage := Current(cfg, s, r).used],
                                      rank.done + 1, {}, {}, map[], rank.log + [rank.got])])
      else s
  }

  // --- Invariant ---------------------------------------------------------------------

  // The sender has issued place p's store in call c.
  ghost predicate Sent(cfg: Config, s: State, c: nat, p: Place)
    requires Shaped(cfg, s)
  {
    && c < |cfg.calls| && p in cfg.calls[c].slots
    && var q := cfg.calls[c].slots[p].sender;
    q < cfg.ranks && (s.ranks[q].done > c || (s.ranks[q].done == c && p in s.ranks[q].pushed))
  }

  ghost function MsgOf(cfg: Config, c: nat, p: Place, w: nat): Msg
    requires c < |cfg.calls| && p in cfg.calls[c].slots && w < 4
  {
    Msg(Cell(p.dst, c % 3, p.addr, w), WordOf(cfg.calls[c].slots[p].pack, w), c)
  }

  ghost predicate Landed(cfg: Config, s: State, c: nat, p: Place, w: nat)
    requires Shaped(cfg, s) && w < 4
  {
    Sent(cfg, s, c, p) && MsgOf(cfg, c, p, w) !in s.air
  }

  // A word of the stage of call c is the pack's if that has landed, else the sentinel.
  ghost predicate CellOk(cfg: Config, s: State, c: nat, p: Place, w: nat)
    requires Shaped(cfg, s) && w < 4
  {
    Read(s, Cell(p.dst, c % 3, p.addr, w))
    == if Landed(cfg, s, c, p, w) then WordOf(cfg.calls[c].slots[p].pack, w) else SENTINEL
  }

  // This call's stage and the next one's hold exactly what has landed in them.
  ghost predicate MemOk(cfg: Config, s: State)
    requires Shaped(cfg, s)
  {
    forall c: nat, p: Place, w: nat
      | p.dst < cfg.ranks && w < 4 && s.ranks[p.dst].done <= c <= s.ranks[p.dst].done + 1 ::
      CellOk(cfg, s, c, p, w)
  }

  ghost predicate Refilled(cfg: Config, rank: Rank, addr: nat, w: nat)
    requires |rank.used| == 3
  {
    (addr, w) !in ToRefill(cfg, rank) || (addr, w) in rank.refilled
  }

  ghost predicate DirtyCellOk(cfg: Config, s: State, r: nat, addr: nat, w: nat)
    requires Shaped(cfg, s) && r < cfg.ranks
  {
    Refilled(cfg, s.ranks[r], addr, w) ==> Read(s, Cell(r, DirtyStage(s.ranks[r]), addr, w)) == SENTINEL
  }

  // The stage before is all sentinel but for what is still to refill.
  ghost predicate DirtyOk(cfg: Config, s: State)
    requires Shaped(cfg, s)
  {
    forall r: nat, addr: nat, w: nat | r < cfg.ranks && w < 4 :: DirtyCellOk(cfg, s, r, addr, w)
  }

  ghost predicate FlightOk(cfg: Config, s: State, m: Msg)
    requires Shaped(cfg, s)
  {
    && m.call < |cfg.calls| && m.cell.w < 4
    && var p := Place(m.cell.dst, m.cell.addr);
    && Sent(cfg, s, m.call, p) && m == MsgOf(cfg, m.call, p, m.cell.w)
    && p.dst < cfg.ranks && s.ranks[p.dst].done <= m.call
  }

  ghost predicate AirOk(cfg: Config, s: State)
    requires Shaped(cfg, s)
  {
    forall m | m in s.air :: FlightOk(cfg, s, m)
  }

  ghost predicate RankOk(cfg: Config, s: State, r: nat)
    requires Shaped(cfg, s) && r < cfg.ranks
  {
    EpochOk(cfg, s.ranks[r], r)
  }

  ghost predicate EpochOk(cfg: Config, rank: Rank, r: nat)
    requires |rank.used| == 3
  {
    && rank.stage == rank.done % 3 && rank.done <= |cfg.calls| && |rank.log| == rank.done
    && rank.used[DirtyStage(rank)] == (if rank.done == 0 then 0 else cfg.calls[rank.done - 1].used)
    && (rank.done == |cfg.calls| ==> rank.got == map[] && rank.pushed == {})
    && rank.refilled <= ToRefill(cfg, rank)
    && (forall c | 0 <= c < rank.done :: rank.log[c] == Received(cfg.calls[c], r))
  }

  ghost predicate GotOk(cfg: Config, s: State)
    requires Shaped(cfg, s)
  {
    forall r: nat, p | r < cfg.ranks && p in s.ranks[r].got :: FoundOk(cfg, s, r, p)
  }

  ghost predicate FoundOk(cfg: Config, s: State, r: nat, p: Place)
    requires Shaped(cfg, s) && r < cfg.ranks && p in s.ranks[r].got
  {
    && Active(cfg, s, r) && p in Current(cfg, s, r).slots && p.dst == r
    && s.ranks[r].got[p] == Current(cfg, s, r).slots[p].pack
    && Sent(cfg, s, s.ranks[r].done, p)
    && forall w: nat | w < 4 :: MsgOf(cfg, s.ranks[r].done, p, w) !in s.air
  }

  ghost predicate PushedOk(cfg: Config, s: State)
    requires Shaped(cfg, s)
  {
    forall r: nat, p | r < cfg.ranks && p in s.ranks[r].pushed ::
      && Active(cfg, s, r) && Mine(Current(cfg, s, r), r, p)
      && forall n | n in Current(cfg, s, r).slots[p].needs :: Place(r, n) in s.ranks[r].got
  }

  // What a rank has finished was sent, and all its peers have started.
  ghost predicate PastOk(cfg: Config, s: State)
    requires Shaped(cfg, s)
  {
    && (forall c: nat, p | c < |cfg.calls| && p in cfg.calls[c].slots && p.dst < cfg.ranks && c < s.ranks[p.dst].done ::
          Sent(cfg, s, c, p))
    && (forall r: nat, q: nat | r < cfg.ranks && q < cfg.ranks :: s.ranks[r].done <= s.ranks[q].done + 1)
  }

  ghost predicate Inv(cfg: Config, s: State) {
    && Shaped(cfg, s)
    && MemOk(cfg, s) && DirtyOk(cfg, s) && AirOk(cfg, s)
    && RanksOk(cfg, s)
    && GotOk(cfg, s) && PushedOk(cfg, s) && PastOk(cfg, s)
  }

  lemma InitInv(cfg: Config)
    requires cfg.Ok()
    ensures Inv(cfg, Init(cfg))
  {
    var s := Init(cfg);
    assert Shaped(cfg, s);
    forall c: nat, p
      ensures !Sent(cfg, s, c, p)
    {
    }
    assert MemOk(cfg, s);
    assert PushedOk(cfg, s) && GotOk(cfg, s) && PastOk(cfg, s);
    assert RanksOk(cfg, s);
    assert DirtyOk(cfg, s) && AirOk(cfg, s);
  }

  // A word of this call's stage other than the sentinel has landed.
  lemma CleanWord(cfg: Config, s: State, r: nat, addr: nat, w: nat)
    requires Shaped(cfg, s) && MemOk(cfg, s) && Active(cfg, s, r) && w < 4
    requires Read(s, Cell(r, s.ranks[r].done % 3, addr, w)) != SENTINEL
    ensures Landed(cfg, s, s.ranks[r].done, Place(r, addr), w)
    ensures Read(s, Cell(r, s.ranks[r].done % 3, addr, w)) == WordOf(Current(cfg, s, r).slots[Place(r, addr)].pack, w)
  {
    assert CellOk(cfg, s, s.ranks[r].done, Place(r, addr), w);
  }

  // A pack read without a sentinel word is the one sent in this call.
  lemma CleanLoad(cfg: Config, s: State, r: nat, addr: nat)
    requires Inv(cfg, s) && Active(cfg, s, r)
    requires Clean(Load(s, r, s.ranks[r].stage, addr))
    ensures Sent(cfg, s, s.ranks[r].done, Place(r, addr))
    ensures Load(s, r, s.ranks[r].stage, addr) == Current(cfg, s, r).slots[Place(r, addr)].pack
    ensures forall w: nat | w < 4 :: MsgOf(cfg, s.ranks[r].done, Place(r, addr), w) !in s.air
  {
    assert RankOk(cfg, s, r);
    var stage := s.ranks[r].stage;
    var x := Load(s, r, stage, addr);
    assert forall w: nat | w < 4 :: WordOf(x, w) == Read(s, Cell(r, stage, addr, w));
    CleanWord(cfg, s, r, addr, 0);
    CleanWord(cfg, s, r, addr, 1);
    CleanWord(cfg, s, r, addr, 2);
    CleanWord(cfg, s, r, addr, 3);
    SameWords(x, Current(cfg, s, r).slots[Place(r, addr)].pack);
    forall w: nat | w < 4
      ensures MsgOf(cfg, s.ranks[r].done, Place(r, addr), w) !in s.air
    {
      assert w == 0 || w == 1 || w == 2 || w == 3;
    }
  }

  lemma SameWords(x: Pack, y: Pack)
    requires WordOf(x, 0) == WordOf(y, 0) && WordOf(x, 1) == WordOf(y, 1)
    requires WordOf(x, 2) == WordOf(y, 2) && WordOf(x, 3) == WordOf(y, 3)
    ensures x == y
  {
  }

  // --- Every step keeps the invariant --------------------------------------------------

  // t is s but for what the current call of one rank has pushed, refilled and got.
  ghost predicate SameCalls(cfg: Config, s: State, t: State) {
    && Shaped(cfg, s) && Shaped(cfg, t)
    && forall r: nat | r < cfg.ranks ::
         && t.ranks[r].done == s.ranks[r].done && t.ranks[r].stage == s.ranks[r].stage
         && t.ranks[r].used == s.ranks[r].used && t.ranks[r].log == s.ranks[r].log
         && t.ranks[r].refilled <= s.ranks[r].refilled + ToRefill(cfg, s.ranks[r])
         && (t.ranks[r].done == |cfg.calls| ==> t.ranks[r].got == s.ranks[r].got && t.ranks[r].pushed == s.ranks[r].pushed)
  }

  ghost predicate RanksOk(cfg: Config, s: State)
    requires Shaped(cfg, s)
  {
    forall r: nat | r < cfg.ranks :: RankOk(cfg, s, r)
  }

  lemma RanksKeep(cfg: Config, s: State, t: State)
    requires SameCalls(cfg, s, t) && RanksOk(cfg, s)
    ensures RanksOk(cfg, t)
  {
    forall r: nat | r < cfg.ranks
      ensures RankOk(cfg, t, r)
    {
      assert RankOk(cfg, s, r);
    }
  }

  ghost predicate SameSent(cfg: Config, s: State, t: State)
    requires Shaped(cfg, s) && Shaped(cfg, t)
  {
    forall c: nat, p :: Sent(cfg, t, c, p) == Sent(cfg, s, c, p)
  }

  lemma SentKeeps(cfg: Config, s: State, t: State)
    requires SameCalls(cfg, s, t)
    requires forall r: nat | r < cfg.ranks :: t.ranks[r].pushed == s.ranks[r].pushed
    ensures SameSent(cfg, s, t)
  {
  }

  lemma TaskSame(cfg: Config, s: State, a: Action)
    requires Shaped(cfg, s) && Enabled(cfg, s, a) && (a.Refill? || a.Take?)
    ensures SameCalls(cfg, s, Do(cfg, s, a))
    ensures forall r: nat | r < cfg.ranks :: Do(cfg, s, a).ranks[r].pushed == s.ranks[r].pushed
    ensures forall r: nat, p | r < cfg.ranks && p in s.ranks[r].got :: p in Do(cfg, s, a).ranks[r].got
    ensures a.Refill? ==> forall r: nat | r < cfg.ranks :: Do(cfg, s, a).ranks[r].got == s.ranks[r].got
    ensures a.Take? ==> forall r: nat | r < cfg.ranks :: Do(cfg, s, a).ranks[r].refilled == s.ranks[r].refilled
  {
  }

  // Memory stays right when every word either keeps its value and its arrival, or
  // arrives now.
  lemma MemKeeps(cfg: Config, s: State, t: State)
    requires SameCalls(cfg, s, t) && MemOk(cfg, s)
    requires forall c: nat, p: Place, w: nat
               | p.dst < cfg.ranks && w < 4 && s.ranks[p.dst].done <= c <= s.ranks[p.dst].done + 1 ::
               Landed(cfg, t, c, p, w) == Landed(cfg, s, c, p, w)
    requires forall c: nat, p: Place, w: nat
               | p.dst < cfg.ranks && w < 4 && s.ranks[p.dst].done <= c <= s.ranks[p.dst].done + 1 ::
               Read(t, Cell(p.dst, c % 3, p.addr, w)) == Read(s, Cell(p.dst, c % 3, p.addr, w))
    ensures MemOk(cfg, t)
  {
    forall c: nat, p: Place, w: nat
      | p.dst < cfg.ranks && w < 4 && t.ranks[p.dst].done <= c <= t.ranks[p.dst].done + 1
      ensures CellOk(cfg, t, c, p, w)
    {
      assert CellOk(cfg, s, c, p, w);
      assert Landed(cfg, t, c, p, w) == Landed(cfg, s, c, p, w);
      assert Read(t, Cell(p.dst, c % 3, p.addr, w)) == Read(s, Cell(p.dst, c % 3, p.addr, w));
    }
  }

  // The packs a push computes from what it found are the ones meant.
  lemma SendsExpected(cfg: Config, s: State, r: nat, p: Place)
    requires cfg.Ok() && Inv(cfg, s) && Enabled(cfg, s, Push(r, p))
    ensures Sends(Current(cfg, s, r).slots[p], s.ranks[r].got) == Current(cfg, s, r).slots[p].pack
  {
    var call := Current(cfg, s, r);
    var slot := call.slots[p];
    var got := s.ranks[r].got;
    assert cfg.CallOk(call) && cfg.SlotOk(call, p) && cfg.NeedsOk(call, p);
    var have := map n: nat | n in slot.needs :: got[Place(slot.sender, n)];
    assert have == PacksAt(call, r, slot.needs);
  }

  // After a push exactly its place is newly sent.
  lemma PushSent(cfg: Config, s: State, r: nat, p: Place, t: State)
    requires Shaped(cfg, s) && RanksOk(cfg, s) && Enabled(cfg, s, Push(r, p))
    requires t == Do(cfg, s, Push(r, p))
    ensures SameCalls(cfg, s, t)
    ensures forall c: nat, q :: Sent(cfg, t, c, q) <==> Sent(cfg, s, c, q) || (c == s.ranks[r].done && q == p)
  {
    assert RankOk(cfg, s, r);
  }

  // A receiver still to be sent a pack has not finished the call.
  lemma PushFirst(cfg: Config, s: State, r: nat, p: Place)
    requires Shaped(cfg, s) && PastOk(cfg, s) && Enabled(cfg, s, Push(r, p)) && cfg.Ok()
    ensures !Sent(cfg, s, s.ranks[r].done, p) && p.dst < cfg.ranks && s.ranks[p.dst].done <= s.ranks[r].done
  {
    var c := s.ranks[r].done;
    assert cfg.CallOk(cfg.calls[c]) && cfg.SlotOk(cfg.calls[c], p);
    assert !Sent(cfg, s, c, p);
  }

  lemma PushMsgs(cfg: Config, s: State, r: nat, p: Place)
    requires Shaped(cfg, s) && RanksOk(cfg, s) && Enabled(cfg, s, Push(r, p))
    requires Sends(Current(cfg, s, r).slots[p], s.ranks[r].got) == Current(cfg, s, r).slots[p].pack
    ensures Do(cfg, s, Push(r, p)).air == s.air + (set w: nat | w < 4 :: MsgOf(cfg, s.ranks[r].done, p, w))
  {
    var c := s.ranks[r].done;
    assert RankOk(cfg, s, r);
    var pack := cfg.calls[c].slots[p].pack;
    var sent := set w: nat | w < 4 :: MsgOf(cfg, c, p, w);
    forall m
      ensures m in WordsOf(p, c % 3, pack, c) <==> m in sent
    {
      if m in WordsOf(p, c % 3, pack, c) {
        assert m == MsgOf(cfg, c, p, m.cell.w);
      }
    }
  }

  lemma PushMem(cfg: Config, s: State, c: nat, p: Place, t: State)
    requires SameCalls(cfg, s, t) && MemOk(cfg, s)
    requires c < |cfg.calls| && p in cfg.calls[c].slots && !Sent(cfg, s, c, p)
    requires t.mem == s.mem && t.air == s.air + (set w: nat | w < 4 :: MsgOf(cfg, c, p, w))
    requires forall b: nat, q :: Sent(cfg, t, b, q) <==> Sent(cfg, s, b, q) || (b == c && q == p)
    ensures MemOk(cfg, t)
  {
    forall b: nat, q: Place, w: nat
      | q.dst < cfg.ranks && w < 4 && s.ranks[q.dst].done <= b <= s.ranks[q.dst].done + 1
      ensures Landed(cfg, t, b, q, w) == Landed(cfg, s, b, q, w)
    {
      if Sent(cfg, t, b, q) {
        var m := MsgOf(cfg, b, q, w);
        if b == c && q == p {
          assert m in t.air;
        } else {
          assert m !in (set v: nat | v < 4 :: MsgOf(cfg, c, p, v));
        }
      }
    }
    MemKeeps(cfg, s, t);
  }

  lemma PushAir(cfg: Config, s: State, c: nat, p: Place, t: State)
    requires SameCalls(cfg, s, t) && AirOk(cfg, s)
    requires c < |cfg.calls| && p in cfg.calls[c].slots && p.dst < cfg.ranks && s.ranks[p.dst].done <= c
    requires t.air == s.air + (set w: nat | w < 4 :: MsgOf(cfg, c, p, w))
    requires forall b: nat, q :: Sent(cfg, t, b, q) <==> Sent(cfg, s, b, q) || (b == c && q == p)
    ensures AirOk(cfg, t)
  {
    forall m | m in t.air
      ensures FlightOk(cfg, t, m)
    {
      if m in s.air {
        assert FlightOk(cfg, s, m);
      } else {
        var w: nat :| w < 4 && m == MsgOf(cfg, c, p, w);
        assert Place(m.cell.dst, m.cell.addr) == p;
      }
    }
  }

  // A pack found stays found, and none of its words comes to be in flight.
  lemma GotKeeps(cfg: Config, s: State, t: State)
    requires SameCalls(cfg, s, t) && GotOk(cfg, s)
    requires forall r: nat | r < cfg.ranks :: t.ranks[r].got == s.ranks[r].got
    requires forall c: nat, p | Sent(cfg, s, c, p) :: Sent(cfg, t, c, p)
    requires forall c: nat, p, w: nat | Sent(cfg, s, c, p) && w < 4 :: MsgOf(cfg, c, p, w) in t.air ==> MsgOf(cfg, c, p, w) in s.air
    ensures GotOk(cfg, t)
  {
    forall r: nat, p | r < cfg.ranks && p in t.ranks[r].got
      ensures FoundOk(cfg, t, r, p)
    {
      assert FoundOk(cfg, s, r, p);
    }
  }

  lemma PushKeeps(cfg: Config, s: State, r: nat, p: Place)
    requires cfg.Ok() && Inv(cfg, s) && Enabled(cfg, s, Push(r, p))
    ensures Inv(cfg, Do(cfg, s, Push(r, p)))
  {
    var t := Do(cfg, s, Push(r, p));
    var c := s.ranks[r].done;
    PushSent(cfg, s, r, p, t);
    PushFirst(cfg, s, r, p);
    SendsExpected(cfg, s, r, p);
    PushMsgs(cfg, s, r, p);
    PushMem(cfg, s, c, p, t);
    PushAir(cfg, s, c, p, t);
    RanksKeep(cfg, s, t);
    PushGot(cfg, s, c, p, t);
    DirtyKeeps(cfg, s, t);
    PastKeeps(cfg, s, t);
    PushPushed(cfg, s, r, p, t);
  }

  lemma PushGot(cfg: Config, s: State, c: nat, p: Place, t: State)
    requires SameCalls(cfg, s, t) && GotOk(cfg, s)
    requires c < |cfg.calls| && p in cfg.calls[c].slots && !Sent(cfg, s, c, p)
    requires t.air == s.air + (set w: nat | w < 4 :: MsgOf(cfg, c, p, w))
    requires forall r: nat | r < cfg.ranks :: t.ranks[r].got == s.ranks[r].got
    requires forall b: nat, q :: Sent(cfg, t, b, q) <==> Sent(cfg, s, b, q) || (b == c && q == p)
    ensures GotOk(cfg, t)
  {
    forall b: nat, q, w: nat | Sent(cfg, s, b, q) && w < 4 && MsgOf(cfg, b, q, w) in t.air
      ensures MsgOf(cfg, b, q, w) in s.air
    {
      assert MsgOf(cfg, b, q, w) !in (set v: nat | v < 4 :: MsgOf(cfg, c, p, v));
    }
    GotKeeps(cfg, s, t);
  }

  lemma PushPushed(cfg: Config, s: State, r: nat, p: Place, t: State)
    requires Shaped(cfg, s) && PushedOk(cfg, s) && Enabled(cfg, s, Push(r, p)) && t == Do(cfg, s, Push(r, p))
    ensures Shaped(cfg, t) && PushedOk(cfg, t)
  {
  }

  lemma PushedKeeps(cfg: Config, s: State, t: State)
    requires SameCalls(cfg, s, t) && PushedOk(cfg, s)
    requires forall r: nat | r < cfg.ranks :: t.ranks[r].pushed == s.ranks[r].pushed
    requires forall r: nat, p | r < cfg.ranks && p in s.ranks[r].got :: p in t.ranks[r].got
    ensures PushedOk(cfg, t)
  {
    forall r: nat, p | r < cfg.ranks && p in t.ranks[r].pushed
      ensures Active(cfg, t, r) && Mine(Current(cfg, t, r), r, p)
      ensures forall n | n in Current(cfg, t, r).slots[p].needs :: Place(r, n) in t.ranks[r].got
    {
      assert p in s.ranks[r].pushed;
    }
  }

  lemma DirtyKeeps(cfg: Config, s: State, t: State)
    requires SameCalls(cfg, s, t) && DirtyOk(cfg, s) && t.mem == s.mem
    requires forall r: nat | r < cfg.ranks :: t.ranks[r].refilled == s.ranks[r].refilled
    ensures DirtyOk(cfg, t)
  {
    forall r: nat, addr: nat, w: nat | r < cfg.ranks && w < 4
      ensures DirtyCellOk(cfg, t, r, addr, w)
    {
      assert DirtyCellOk(cfg, s, r, addr, w);
    }
  }

  lemma PastKeeps(cfg: Config, s: State, t: State)
    requires SameCalls(cfg, s, t) && PastOk(cfg, s)
    requires forall c: nat, p | Sent(cfg, s, c, p) :: Sent(cfg, t, c, p)
    ensures PastOk(cfg, t)
  {
  }

  lemma LandMem(cfg: Config, s: State, m: Msg, t: State)
    requires SameCalls(cfg, s, t) && MemOk(cfg, s) && SameSent(cfg, s, t) && FlightOk(cfg, s, m)
    requires t.air == s.air - {m} && t.mem == s.mem[m.cell := m.word]
    requires m.call <= s.ranks[m.cell.dst].done + 1
    ensures MemOk(cfg, t)
  {
    var p := Place(m.cell.dst, m.cell.addr);
    forall c: nat, q: Place, w: nat
      | q.dst < cfg.ranks && w < 4 && t.ranks[q.dst].done <= c <= t.ranks[q.dst].done + 1
      ensures CellOk(cfg, t, c, q, w)
    {
      assert CellOk(cfg, s, c, q, w);
      assert Sent(cfg, t, c, q) == Sent(cfg, s, c, q);
      if Cell(q.dst, c % 3, q.addr, w) == m.cell {
        assert q == p && c == m.call;
        assert Landed(cfg, t, c, q, w);
      } else if Sent(cfg, s, c, q) {
        assert MsgOf(cfg, c, q, w) != m;
      }
    }
  }

  lemma LandKeeps(cfg: Config, s: State, m: Msg)
    requires cfg.Ok() && Inv(cfg, s) && Enabled(cfg, s, Land(m))
    ensures Inv(cfg, Do(cfg, s, Land(m)))
  {
    var t := Do(cfg, s, Land(m));
    assert SameCalls(cfg, s, t);
    SentKeeps(cfg, s, t);
    assert FlightOk(cfg, s, m);
    LandClose(cfg, s, m);
    LandMem(cfg, s, m, t);
    RanksKeep(cfg, s, t);
    LandAirDirty(cfg, s, m, t);
    GotKeeps(cfg, s, t);
    PastKeeps(cfg, s, t);
    PushedKeeps(cfg, s, t);
  }

  // A word in flight is for its receiver's current call or the next one.
  lemma LandClose(cfg: Config, s: State, m: Msg)
    requires Shaped(cfg, s) && PastOk(cfg, s) && FlightOk(cfg, s, m)
    ensures s.ranks[m.cell.dst].done <= m.call <= s.ranks[m.cell.dst].done + 1
    ensures m.cell.stage == m.call % 3
  {
    var q := cfg.calls[m.call].slots[Place(m.cell.dst, m.cell.addr)].sender;
    assert s.ranks[q].done <= s.ranks[m.cell.dst].done + 1;
  }

  lemma LandAirDirty(cfg: Config, s: State, m: Msg, t: State)
    requires SameCalls(cfg, s, t) && SameSent(cfg, s, t) && AirOk(cfg, s) && DirtyOk(cfg, s) && FlightOk(cfg, s, m)
    requires forall r: nat | r < cfg.ranks :: t.ranks[r].refilled == s.ranks[r].refilled
    requires t.air == s.air - {m} && t.mem == s.mem[m.cell := m.word]
    requires RanksOk(cfg, s) && s.ranks[m.cell.dst].done <= m.call <= s.ranks[m.cell.dst].done + 1
    ensures AirOk(cfg, t) && DirtyOk(cfg, t)
  {
    assert RankOk(cfg, s, m.cell.dst);
    forall r: nat, addr: nat, w: nat | r < cfg.ranks && w < 4
      ensures DirtyCellOk(cfg, t, r, addr, w)
    {
      assert RankOk(cfg, s, r);
      assert DirtyCellOk(cfg, s, r, addr, w);
    }
    forall n | n in t.air
      ensures FlightOk(cfg, t, n)
    {
      assert FlightOk(cfg, s, n);
    }
  }

  lemma RefillKeeps(cfg: Config, s: State, r: nat, addr: nat, w: nat)
    requires cfg.Ok() && Inv(cfg, s) && Enabled(cfg, s, Refill(r, addr, w))
    ensures Inv(cfg, Do(cfg, s, Refill(r, addr, w)))
  {
    var t := Do(cfg, s, Refill(r, addr, w));
    assert RankOk(cfg, s, r);
    TaskSame(cfg, s, Refill(r, addr, w));
    SentKeeps(cfg, s, t);
    RefillMem(cfg, s, Cell(r, DirtyStage(s.ranks[r]), addr, w), t);
    RanksKeep(cfg, s, t);
    AirKeeps(cfg, s, t);
    GotKeeps(cfg, s, t);
    PastKeeps(cfg, s, t);
    RefillDirty(cfg, s, r, addr, w, t);
    PushedKeeps(cfg, s, t);
  }

  lemma RefillMem(cfg: Config, s: State, cell: Cell, t: State)
    requires SameCalls(cfg, s, t) && MemOk(cfg, s) && SameSent(cfg, s, t)
    requires t.air == s.air && t.mem == s.mem[cell := SENTINEL]
    requires cell.dst < cfg.ranks && cell.stage == DirtyStage(s.ranks[cell.dst]) && RankOk(cfg, s, cell.dst)
    ensures MemOk(cfg, t)
  {
    assert cell.stage == (s.ranks[cell.dst].done + 2) % 3;
    forall c: nat, p: Place, w: nat
      | p.dst < cfg.ranks && w < 4 && s.ranks[p.dst].done <= c <= s.ranks[p.dst].done + 1
      ensures Landed(cfg, t, c, p, w) == Landed(cfg, s, c, p, w)
    {
      assert Sent(cfg, t, c, p) == Sent(cfg, s, c, p);
    }
    MemKeeps(cfg, s, t);
  }

  lemma RefillDirty(cfg: Config, s: State, r: nat, addr: nat, w: nat, t: State)
    requires Shaped(cfg, s) && DirtyOk(cfg, s) && Enabled(cfg, s, Refill(r, addr, w))
    requires t == Do(cfg, s, Refill(r, addr, w))
    ensures Shaped(cfg, t) && DirtyOk(cfg, t)
  {
    forall q: nat, a: nat, v: nat | q < cfg.ranks && v < 4
      ensures DirtyCellOk(cfg, t, q, a, v)
    {
      assert DirtyCellOk(cfg, s, q, a, v);
    }
  }

  lemma AirKeeps(cfg: Config, s: State, t: State)
    requires SameCalls(cfg, s, t) && SameSent(cfg, s, t) && AirOk(cfg, s) && t.air == s.air
    ensures AirOk(cfg, t)
  {
    forall m | m in t.air
      ensures FlightOk(cfg, t, m)
    {
      assert FlightOk(cfg, s, m);
    }
  }

  lemma TakeKeeps(cfg: Config, s: State, r: nat, addr: nat)
    requires cfg.Ok() && Inv(cfg, s) && Enabled(cfg, s, Take(r, addr))
    ensures Inv(cfg, Do(cfg, s, Take(r, addr)))
  {
    var t := Do(cfg, s, Take(r, addr));
    TaskSame(cfg, s, Take(r, addr));
    SentKeeps(cfg, s, t);
    MemKeeps(cfg, s, t);
    RanksKeep(cfg, s, t);
    AirKeeps(cfg, s, t);
    PastKeeps(cfg, s, t);
    CleanLoad(cfg, s, r, addr);
    TakeGot(cfg, s, r, addr, t);
    DirtyKeeps(cfg, s, t);
    PushedKeeps(cfg, s, t);
  }

  lemma TakeGot(cfg: Config, s: State, r: nat, addr: nat, t: State)
    requires SameCalls(cfg, s, t) && SameSent(cfg, s, t) && GotOk(cfg, s) && t.air == s.air
    requires Active(cfg, s, r) && Sent(cfg, s, s.ranks[r].done, Place(r, addr))
    requires forall w: nat | w < 4 :: MsgOf(cfg, s.ranks[r].done, Place(r, addr), w) !in s.air
    requires t.ranks == s.ranks[r := s.ranks[r].(got := s.ranks[r].got[Place(r, addr) := Current(cfg, s, r).slots[Place(r, addr)].pack])]
    ensures GotOk(cfg, t)
  {
  }

  // A rank that can finish has heard from every peer in this call.
  lemma AllStarted(cfg: Config, s: State, r: nat, q: nat)
    requires cfg.Ok() && Inv(cfg, s) && Enabled(cfg, s, Finish(r)) && q < cfg.ranks
    ensures s.ranks[r].done <= s.ranks[q].done
  {
    var c := s.ranks[r].done;
    var call := cfg.calls[c];
    if q != r {
      assert cfg.CallOk(call) && cfg.Hears(call, r, q);
      var p :| p in call.slots && p.dst == r
        && (call.slots[p].sender == q
            || exists n :: n in call.slots[p].needs && Place(call.slots[p].sender, n) in call.slots
                 && call.slots[Place(call.slots[p].sender, n)].sender == q);
      assert p in s.ranks[r].got;
      assert Sent(cfg, s, c, p);
      var sender := call.slots[p].sender;
      assert cfg.SlotOk(call, p);
      if sender != q {
        var n :| n in call.slots[p].needs && Place(sender, n) in call.slots
          && call.slots[Place(sender, n)].sender == q;
        if s.ranks[sender].done > c {
          assert Sent(cfg, s, c, Place(sender, n));
        } else {
          assert p in s.ranks[sender].pushed;
          assert Place(sender, n) in s.ranks[sender].got;
        }
      }
    }
  }

  // Finishing sends nothing.
  lemma FinishSent(cfg: Config, s: State, r: nat, t: State)
    requires Shaped(cfg, s) && RanksOk(cfg, s) && Enabled(cfg, s, Finish(r)) && t == Do(cfg, s, Finish(r))
    ensures Shaped(cfg, t) && SameSent(cfg, s, t)
  {
    assert RankOk(cfg, s, r);
  }

  lemma FinishMem(cfg: Config, s: State, r: nat, t: State)
    requires Shaped(cfg, s) && Shaped(cfg, t) && MemOk(cfg, s) && DirtyOk(cfg, s) && PastOk(cfg, s)
    requires SameSent(cfg, s, t) && RanksOk(cfg, s)
    requires Enabled(cfg, s, Finish(r)) && t == Do(cfg, s, Finish(r))
    ensures MemOk(cfg, t)
  {
    assert RankOk(cfg, s, r);
    forall b: nat, q: Place, w: nat
      | q.dst < cfg.ranks && w < 4 && t.ranks[q.dst].done <= b <= t.ranks[q.dst].done + 1
      ensures CellOk(cfg, t, b, q, w)
    {
      assert Sent(cfg, t, b, q) == Sent(cfg, s, b, q);
      if q.dst != r || b <= s.ranks[r].done + 1 {
        assert CellOk(cfg, s, b, q, w);
      } else {
        assert DirtyCellOk(cfg, s, r, q.addr, w);
        TwoAhead(cfg, s, r, q);
      }
    }
  }

  // Nobody has sent anything for the call after next.
  lemma TwoAhead(cfg: Config, s: State, r: nat, p: Place)
    requires Shaped(cfg, s) && PastOk(cfg, s) && r < cfg.ranks
    ensures !Sent(cfg, s, s.ranks[r].done + 2, p)
  {
  }

  lemma InsideRegion(cfg: Config, c: nat)
    requires cfg.Ok() && c < |cfg.calls|
    ensures forall p | p in cfg.calls[c].slots :: forall w: nat | w < 4 :: (p.addr, w) in cfg.region(cfg.calls[c].used)
  {
    assert cfg.CallOk(cfg.calls[c]);
    forall p | p in cfg.calls[c].slots
      ensures forall w: nat | w < 4 :: (p.addr, w) in cfg.region(cfg.calls[c].used)
    {
      assert cfg.SlotOk(cfg.calls[c], p);
    }
  }

  lemma FinishDirty(cfg: Config, s: State, r: nat, t: State)
    requires cfg.Ok() && Shaped(cfg, s) && RanksOk(cfg, s) && MemOk(cfg, s) && DirtyOk(cfg, s) && Enabled(cfg, s, Finish(r)) && t == Do(cfg, s, Finish(r))
    ensures Shaped(cfg, t) && DirtyOk(cfg, t)
  {
    assert RankOk(cfg, s, r);
    var c := s.ranks[r].done;
    assert DirtyStage(t.ranks[r]) == c % 3;
    assert t.ranks[r].used[c % 3] == cfg.calls[c].used;
    InsideRegion(cfg, c);
    forall q: nat, addr: nat, w: nat | q < cfg.ranks && w < 4 && Refilled(cfg, t.ranks[q], addr, w)
      ensures DirtyCellOk(cfg, t, q, addr, w)
    {
      assert DirtyCellOk(cfg, s, q, addr, w);
      if q == r {
        assert Place(r, addr) !in cfg.calls[c].slots;
        assert CellOk(cfg, s, c, Place(r, addr), w);
      }
    }
  }

  // No word is in flight to a rank that has found every pack of its call.
  lemma FinishAir(cfg: Config, s: State, r: nat, t: State)
    requires Shaped(cfg, s) && Shaped(cfg, t) && AirOk(cfg, s) && GotOk(cfg, s) && SameSent(cfg, s, t)
    requires Enabled(cfg, s, Finish(r)) && t == Do(cfg, s, Finish(r))
    ensures AirOk(cfg, t)
  {
    var c := s.ranks[r].done;
    forall m | m in t.air
      ensures FlightOk(cfg, t, m)
    {
      assert FlightOk(cfg, s, m);
      var p := Place(m.cell.dst, m.cell.addr);
      assert Sent(cfg, t, m.call, p);
      if p.dst == r && m.call == c {
        assert false;
      }
    }
  }

  lemma FinishPast(cfg: Config, s: State, r: nat, t: State)
    requires Shaped(cfg, s) && Shaped(cfg, t) && PastOk(cfg, s) && GotOk(cfg, s) && SameSent(cfg, s, t)
    requires Enabled(cfg, s, Finish(r)) && t == Do(cfg, s, Finish(r)) && s.ranks[r].stage < 3
    requires forall q: nat | q < cfg.ranks :: s.ranks[r].done <= s.ranks[q].done
    ensures PastOk(cfg, t)
  {
    var c := s.ranks[r].done;
    forall b: nat, p | b < |cfg.calls| && p in cfg.calls[b].slots && p.dst < cfg.ranks && b < t.ranks[p.dst].done
      ensures Sent(cfg, t, b, p)
    {
      if p.dst == r && b == c {
        assert p in s.ranks[r].got;
      }
      assert Sent(cfg, s, b, p);
    }
  }

  lemma FinishRanks(cfg: Config, s: State, r: nat, t: State)
    requires Shaped(cfg, s) && Shaped(cfg, t) && RanksOk(cfg, s)
    requires r < cfg.ranks && t.ranks == s.ranks[r := t.ranks[r]] && RankOk(cfg, t, r)
    ensures RanksOk(cfg, t)
  {
    forall q: nat | q < cfg.ranks
      ensures RankOk(cfg, t, q)
    {
      assert RankOk(cfg, s, q);
    }
  }

  lemma FinishLog(cfg: Config, s: State, r: nat)
    requires Shaped(cfg, s) && RanksOk(cfg, s) && GotOk(cfg, s) && Enabled(cfg, s, Finish(r))
    ensures Shaped(cfg, Do(cfg, s, Finish(r))) && RankOk(cfg, Do(cfg, s, Finish(r)), r)
  {
    GotAll(cfg, s, r);
    assert RankOk(cfg, s, r);
    var rank := s.ranks[r];
    var after := Do(cfg, s, Finish(r)).ranks[r];
    assert after.stage == after.done % 3 && DirtyStage(after) == rank.stage;
    assert after.log == rank.log + [rank.got];
  }

  lemma FinishTasks(cfg: Config, s: State, r: nat, t: State)
    requires Shaped(cfg, s) && Shaped(cfg, t) && GotOk(cfg, s) && PushedOk(cfg, s) && SameSent(cfg, s, t)
    requires Enabled(cfg, s, Finish(r)) && t == Do(cfg, s, Finish(r)) && s.ranks[r].stage < 3
    ensures GotOk(cfg, t) && PushedOk(cfg, t)
  {
    forall q: nat, p | q < cfg.ranks && p in t.ranks[q].got
      ensures FoundOk(cfg, t, q, p)
    {
      assert q != r && FoundOk(cfg, s, q, p);
    }
  }

  lemma FinishKeeps(cfg: Config, s: State, r: nat)
    requires cfg.Ok() && Inv(cfg, s) && Enabled(cfg, s, Finish(r))
    ensures Inv(cfg, Do(cfg, s, Finish(r)))
  {
    var t := Do(cfg, s, Finish(r));
    assert RankOk(cfg, s, r);
    FinishSent(cfg, s, r, t);
    FinishMem(cfg, s, r, t);
    FinishDirty(cfg, s, r, t);
    FinishAir(cfg, s, r, t);
    FinishLog(cfg, s, r);
    FinishRanks(cfg, s, r, t);
    FinishTasks(cfg, s, r, t);
    forall q: nat | q < cfg.ranks
      ensures s.ranks[r].done <= s.ranks[q].done
    {
      AllStarted(cfg, s, r, q);
    }
    FinishPast(cfg, s, r, t);
  }

  lemma GotAll(cfg: Config, s: State, r: nat)
    requires Shaped(cfg, s) && GotOk(cfg, s) && Enabled(cfg, s, Finish(r))
    ensures s.ranks[r].got == Received(Current(cfg, s, r), r)
  {
    var call := Current(cfg, s, r);
    forall p | p in s.ranks[r].got
      ensures p in Received(call, r) && s.ranks[r].got[p] == Received(call, r)[p]
    {
      assert FoundOk(cfg, s, r, p);
    }
  }

  lemma StepInv(cfg: Config, s: State, a: Action)
    requires cfg.Ok() && Inv(cfg, s) && Enabled(cfg, s, a)
    ensures Inv(cfg, Do(cfg, s, a))
  {
    match a
    case Push(r, p) => PushKeeps(cfg, s, r, p);
    case Land(m) => LandKeeps(cfg, s, m);
    case Refill(r, addr, w) => RefillKeeps(cfg, s, r, addr, w);
    case Take(r, addr) => TakeKeeps(cfg, s, r, addr);
    case Finish(r) => FinishKeeps(cfg, s, r);
  }

  // --- Safety over every run -----------------------------------------------------------

  // A step that is not the rewriting of a word refilled before.
  ghost predicate Step(cfg: Config, s: State, a: Action)
    requires Shaped(cfg, s)
  {
    Enabled(cfg, s, a) && (a.Refill? ==> (a.addr, a.w) !in s.ranks[a.r].refilled)
  }

  ghost predicate Runs(cfg: Config, s: State, run: seq<Action>, t: State)
    decreases |run|
  {
    Shaped(cfg, s)
    && if run == [] then t == s else Enabled(cfg, s, run[0]) && Runs(cfg, Do(cfg, s, run[0]), run[1..], t)
  }

  // A word of the stage after this call's is the sentinel, or was sent in the next call.
  ghost predicate NextOk(cfg: Config, s: State, r: nat, addr: nat, w: nat)
    requires Shaped(cfg, s) && r < cfg.ranks
  {
    Read(s, Cell(r, (s.ranks[r].stage + 1) % 3, addr, w)) != SENTINEL ==> Sent(cfg, s, s.ranks[r].done + 1, Place(r, addr))
  }

  ghost predicate WaitOk(cfg: Config, s: State, r: nat, addr: nat)
    requires Shaped(cfg, s) && Active(cfg, s, r)
  {
    var call := Current(cfg, s, r);
    Clean(Load(s, r, s.ranks[r].stage, addr)) ==>
      Place(r, addr) in call.slots && Load(s, r, s.ranks[r].stage, addr) == call.slots[Place(r, addr)].pack
  }

  ghost predicate FlightSafe(cfg: Config, s: State, m: Msg)
    requires Shaped(cfg, s)
  {
    m.cell.dst < cfg.ranks && m.cell.stage != DirtyStage(s.ranks[m.cell.dst]) && Read(s, m.cell) == SENTINEL
  }

  ghost predicate LogOk(cfg: Config, rank: Rank, r: nat) {
    |rank.log| == rank.done <= |cfg.calls| && forall c | 0 <= c < rank.done :: rank.log[c] == Received(cfg.calls[c], r)
  }

  ghost predicate Safe(cfg: Config, s: State)
    requires Shaped(cfg, s)
  {
    // A successful wait returns what its peer sends there in this very call.
    && (forall r: nat, addr: nat | Active(cfg, s, r) :: WaitOk(cfg, s, r, addr))
    // Ranks are at most one call apart.
    && (forall r: nat, q: nat | r < cfg.ranks && q < cfg.ranks :: s.ranks[r].done <= s.ranks[q].done + 1)
    // The next stage is all sentinel but for what a rank one call ahead has sent.
    && (forall r: nat, addr: nat, w: nat | r < cfg.ranks && w < 4 :: NextOk(cfg, s, r, addr, w))
    // Nothing is on its way to a stage being refilled, and no word is overwritten.
    && (forall m | m in s.air :: FlightSafe(cfg, s, m))
    // Each finished call received every pack of its own, and nothing else.
    && (forall r: nat | r < cfg.ranks :: LogOk(cfg, s.ranks[r], r))
  }

  lemma InvSafe(cfg: Config, s: State)
    requires cfg.Ok() && Inv(cfg, s)
    ensures Safe(cfg, s)
  {
    forall r: nat, addr: nat | Active(cfg, s, r)
      ensures WaitOk(cfg, s, r, addr)
    {
      if Clean(Load(s, r, s.ranks[r].stage, addr)) {
        CleanLoad(cfg, s, r, addr);
      }
    }
    forall r: nat, addr: nat, w: nat | r < cfg.ranks && w < 4
      ensures NextOk(cfg, s, r, addr, w)
    {
      NextStage(cfg, s, r, addr, w);
    }
    forall m | m in s.air
      ensures FlightSafe(cfg, s, m)
    {
      Flight(cfg, s, m);
    }
    forall r: nat | r < cfg.ranks
      ensures LogOk(cfg, s.ranks[r], r)
    {
      assert RankOk(cfg, s, r);
    }
  }

  lemma NextStage(cfg: Config, s: State, r: nat, addr: nat, w: nat)
    requires Shaped(cfg, s) && RanksOk(cfg, s) && MemOk(cfg, s) && r < cfg.ranks && w < 4
    ensures NextOk(cfg, s, r, addr, w)
  {
    assert RankOk(cfg, s, r);
    assert CellOk(cfg, s, s.ranks[r].done + 1, Place(r, addr), w);
  }

  lemma Flight(cfg: Config, s: State, m: Msg)
    requires Shaped(cfg, s) && RanksOk(cfg, s) && MemOk(cfg, s) && AirOk(cfg, s) && PastOk(cfg, s) && m in s.air
    ensures FlightSafe(cfg, s, m)
  {
    assert FlightOk(cfg, s, m);
    LandClose(cfg, s, m);
    assert RankOk(cfg, s, m.cell.dst);
    assert CellOk(cfg, s, m.call, Place(m.cell.dst, m.cell.addr), m.cell.w);
  }

  lemma {:induction false} RunInv(cfg: Config, s: State, run: seq<Action>, t: State)
    requires cfg.Ok() && Inv(cfg, s) && Runs(cfg, s, run, t)
    ensures Inv(cfg, t)
    decreases |run|
  {
    if run != [] {
      StepInv(cfg, s, run[0]);
      RunInv(cfg, Do(cfg, s, run[0]), run[1..], t);
    }
  }

  // Every state of every interleaving of every sequence of calls is safe.
  lemma EveryRunSafe(cfg: Config, run: seq<Action>, t: State)
    requires cfg.Ok() && Runs(cfg, Init(cfg), run, t)
    ensures Shaped(cfg, t) && Safe(cfg, t)
  {
    InitInv(cfg);
    RunInv(cfg, Init(cfg), run, t);
    InvSafe(cfg, t);
  }

  // --- Progress ------------------------------------------------------------------------

  // Nothing more can arrive, and no rank is behind call c.
  ghost predicate Settled(cfg: Config, s: State, c: nat) {
    Shaped(cfg, s) && s.air == {} && forall r: nat | r < cfg.ranks :: s.ranks[r].done >= c
  }

  ghost predicate FirstSent(cfg: Config, s: State, c: nat)
    requires Shaped(cfg, s) && c < |cfg.calls|
  {
    forall p | p in cfg.calls[c].slots && cfg.calls[c].slots[p].needs == {} :: Sent(cfg, s, c, p)
  }

  ghost predicate AllSent(cfg: Config, s: State, c: nat)
    requires Shaped(cfg, s) && c < |cfg.calls|
  {
    forall p | p in cfg.calls[c].slots :: Sent(cfg, s, c, p)
  }

  // A sent pack that has arrived can be taken.
  lemma SentReady(cfg: Config, s: State, r: nat, addr: nat)
    requires cfg.Ok() && Inv(cfg, s) && Active(cfg, s, r) && s.air == {}
    requires Sent(cfg, s, s.ranks[r].done, Place(r, addr))
    ensures Place(r, addr) in s.ranks[r].got || Enabled(cfg, s, Take(r, addr))
  {
    var c := s.ranks[r].done;
    var p := Place(r, addr);
    assert RankOk(cfg, s, r);
    assert cfg.CallOk(cfg.calls[c]) && cfg.SlotOk(cfg.calls[c], p);
    ArrivedClean(cfg, s, c, p);
  }

  lemma ArrivedClean(cfg: Config, s: State, c: nat, p: Place)
    requires Shaped(cfg, s) && MemOk(cfg, s) && s.air == {} && p.dst < cfg.ranks && s.ranks[p.dst].done == c
    requires Sent(cfg, s, c, p) && Clean(cfg.calls[c].slots[p].pack)
    ensures Clean(Load(s, p.dst, c % 3, p.addr))
  {
    var x := Load(s, p.dst, c % 3, p.addr);
    assert forall w: nat | w < 4 :: WordOf(x, w) == Read(s, Cell(p.dst, c % 3, p.addr, w));
    forall w: nat | w < 4
      ensures WordOf(x, w) != SENTINEL
    {
      assert CellOk(cfg, s, c, p, w);
    }
  }

  // The phases of a call: pushes that need nothing and refills can always run;
  // once all the former have, so can every wait of the pushes that follow; once
  // these have been sent, so can every wait. Threads that keep the phases in this
  // order therefore never block each other, whatever else their order is.
  lemma PhasesReady(cfg: Config, s: State, c: nat, r: nat)
    requires cfg.Ok() && Inv(cfg, s) && Settled(cfg, s, c) && r < cfg.ranks && s.ranks[r].done == c < |cfg.calls|
    ensures forall p | Mine(cfg.calls[c], r, p) && cfg.calls[c].slots[p].needs == {} ::
              p in s.ranks[r].pushed || Enabled(cfg, s, Push(r, p))
    ensures FirstSent(cfg, s, c) ==>
              forall p, n: nat | Mine(cfg.calls[c], r, p) && n in cfg.calls[c].slots[p].needs ::
                Place(r, n) in s.ranks[r].got || Enabled(cfg, s, Take(r, n))
    ensures AllSent(cfg, s, c) ==>
              forall p | p in cfg.calls[c].slots && p.dst == r ::
                p in s.ranks[r].got || Enabled(cfg, s, Take(r, p.addr))
  {
    if FirstSent(cfg, s, c) {
      forall p, n: nat | Mine(cfg.calls[c], r, p) && n in cfg.calls[c].slots[p].needs
        ensures Place(r, n) in s.ranks[r].got || Enabled(cfg, s, Take(r, n))
      {
        assert cfg.CallOk(cfg.calls[c]) && cfg.SlotOk(cfg.calls[c], p) && cfg.NeedsOk(cfg.calls[c], p);
        SentReady(cfg, s, r, n);
      }
    }
    if AllSent(cfg, s, c) {
      forall p | p in cfg.calls[c].slots && p.dst == r
        ensures p in s.ranks[r].got || Enabled(cfg, s, Take(r, p.addr))
      {
        assert p == Place(r, p.addr);
        SentReady(cfg, s, r, p.addr);
      }
    }
  }

  // A place of call c not yet sent: its sender is at call c and can step.
  lemma UnsentStep(cfg: Config, s: State, c: nat, p: Place) returns (a: Action)
    requires cfg.Ok() && Inv(cfg, s) && Settled(cfg, s, c) && c < |cfg.calls|
    requires p in cfg.calls[c].slots && !Sent(cfg, s, c, p)
    requires FirstSent(cfg, s, c) || cfg.calls[c].slots[p].needs == {}
    ensures Step(cfg, s, a)
  {
    var slot := cfg.calls[c].slots[p];
    assert cfg.CallOk(cfg.calls[c]) && cfg.SlotOk(cfg.calls[c], p);
    var r := slot.sender;
    PhasesReady(cfg, s, c, r);
    if n: nat :| n in slot.needs && Place(r, n) !in s.ranks[r].got {
      a := Take(r, n);
    } else {
      a := Push(r, p);
    }
  }

  // While a rank has calls to make, some step is possible.
  lemma NoStall(cfg: Config, s: State, r: nat) returns (a: Action)
    requires cfg.Ok() && Inv(cfg, s) && Active(cfg, s, r)
    ensures Step(cfg, s, a)
  {
    if m :| m in s.air {
      return Land(m);
    }
    var q := Slowest(cfg, s, r);
    var c := s.ranks[q].done;
    if p :| p in cfg.calls[c].slots && cfg.calls[c].slots[p].needs == {} && !Sent(cfg, s, c, p) {
      a := UnsentStep(cfg, s, c, p);
    } else if p :| p in cfg.calls[c].slots && !Sent(cfg, s, c, p) {
      a := UnsentStep(cfg, s, c, p);
    } else {
      a := SentStep(cfg, s, q);
    }
  }

  // Once everything of its call is sent, the slowest rank refills, takes and finishes.
  lemma SentStep(cfg: Config, s: State, q: nat) returns (a: Action)
    requires cfg.Ok() && Inv(cfg, s) && Active(cfg, s, q)
    requires Settled(cfg, s, s.ranks[q].done) && AllSent(cfg, s, s.ranks[q].done)
    ensures Step(cfg, s, a)
  {
    var c := s.ranks[q].done;
    if addr: nat, w: nat :| w < 4 && !Refilled(cfg, s.ranks[q], addr, w) {
      return Refill(q, addr, w);
    }
    PhasesReady(cfg, s, c, q);
    if p :| p in cfg.calls[c].slots && p.dst == q && p !in s.ranks[q].got {
      return Take(q, p.addr);
    }
    forall p | Mine(cfg.calls[c], q, p)
      ensures p in s.ranks[q].pushed
    {
      assert Sent(cfg, s, c, p);
    }
    a := Finish(q);
  }

  lemma Slowest(cfg: Config, s: State, r: nat) returns (q: nat)
    requires Shaped(cfg, s) && Active(cfg, s, r) && PastOk(cfg, s)
    ensures Active(cfg, s, q) && forall o: nat | o < cfg.ranks :: s.ranks[o].done >= s.ranks[q].done
  {
    q := r;
    if o: nat :| o < cfg.ranks && s.ranks[o].done < s.ranks[r].done {
      q := o;
    }
  }

  // --- Every run ends --------------------------------------------------------------------

  ghost function UsedBefore(cfg: Config, c: nat): nat
    requires c <= |cfg.calls|
  {
    if c == 0 then 0 else cfg.calls[c - 1].used
  }

  // A bound on the steps left of the calls from c on: six for a push, which sends
  // four words to take up once.
  ghost function CallsLeft(cfg: Config, c: nat): nat
    requires c <= |cfg.calls|
    decreases |cfg.calls| - c
  {
    if c == |cfg.calls| then 0
    else 6 * |cfg.calls[c].slots| + |cfg.region(UsedBefore(cfg, c))| + 1 + CallsLeft(cfg, c + 1)
  }

  ghost function RankLeft(cfg: Config, rank: Rank): int {
    if rank.done >= |cfg.calls| then 0
    else CallsLeft(cfg, rank.done) - 5 * |rank.pushed| - |rank.refilled| - |rank.got|
  }

  ghost function SumLeft(cfg: Config, ranks: seq<Rank>, n: nat): int
    requires n <= |ranks|
  {
    if n == 0 then 0 else SumLeft(cfg, ranks, n - 1) + RankLeft(cfg, ranks[n - 1])
  }

  ghost function StepsLeft(cfg: Config, s: State): int {
    |s.air| + SumLeft(cfg, s.ranks, |s.ranks|)
  }

  lemma {:induction false} SumOne(cfg: Config, a: seq<Rank>, b: seq<Rank>, r: nat, n: nat)
    requires r < |a| == |b| && n <= |a| && b == a[r := b[r]]
    ensures SumLeft(cfg, b, n) == SumLeft(cfg, a, n) + if r < n then RankLeft(cfg, b[r]) - RankLeft(cfg, a[r]) else 0
    decreases n
  {
    if n > 0 {
      SumOne(cfg, a, b, r, n - 1);
    }
  }

  ghost predicate Down(cfg: Config, before: Rank, after: Rank, n: nat) {
    RankLeft(cfg, after) < RankLeft(cfg, before) - n
  }

  lemma FinishDown(cfg: Config, r: nat, s: State, t: State)
    requires Shaped(cfg, s) && RanksOk(cfg, s) && GotOk(cfg, s) && PushedOk(cfg, s)
    requires Enabled(cfg, s, Finish(r)) && t == Do(cfg, s, Finish(r))
    ensures Down(cfg, s.ranks[r], t.ranks[r], 0)
  {
    assert RankOk(cfg, s, r);
    assert |t.ranks[r].got| == 0;
    DoneOfCall(cfg, s, r);
  }

  // What a rank has done of its call is no more than there is to do.
  lemma DoneOfCall(cfg: Config, s: State, r: nat)
    requires Shaped(cfg, s) && RanksOk(cfg, s) && GotOk(cfg, s) && PushedOk(cfg, s) && Active(cfg, s, r)
    ensures |s.ranks[r].pushed| <= |Current(cfg, s, r).slots| && |s.ranks[r].got| <= |Current(cfg, s, r).slots|
    ensures |s.ranks[r].refilled| <= |cfg.region(UsedBefore(cfg, s.ranks[r].done))|
  {
    assert RankOk(cfg, s, r);
    var rank := s.ranks[r];
    var all := Current(cfg, s, r).slots.Keys;
    Subset(rank.pushed, all);
    assert forall p | p in rank.got :: FoundOk(cfg, s, r, p);
    Subset(rank.got.Keys, all);
    assert |rank.got.Keys| == |rank.got|;
    Subset(rank.refilled, cfg.region(UsedBefore(cfg, rank.done)));
  }

  lemma {:induction false} Subset<T>(a: set<T>, b: set<T>)
    requires a <= b
    ensures |a| <= |b|
  {
    assert b == a + (b - a);
  }

  lemma RankStep(cfg: Config, s: State, a: Action)
    requires Shaped(cfg, s) && RanksOk(cfg, s) && GotOk(cfg, s) && PushedOk(cfg, s) && Step(cfg, s, a) && !a.Land?
    ensures a.r < |Do(cfg, s, a).ranks| == |s.ranks|
    ensures Do(cfg, s, a).ranks == s.ranks[a.r := Do(cfg, s, a).ranks[a.r]]
    ensures Down(cfg, s.ranks[a.r], Do(cfg, s, a).ranks[a.r], if a.Push? then 4 else 0)
  {
    assert RankOk(cfg, s, a.r);
    if a.Finish? {
      FinishDown(cfg, a.r, s, Do(cfg, s, a));
    }
  }

  lemma AirStep(cfg: Config, s: State, a: Action)
    requires Shaped(cfg, s) && Enabled(cfg, s, a)
    ensures |Do(cfg, s, a).air| <= |s.air| + if a.Push? then 4 else if a.Land? then -1 else 0
  {
    if a.Push? {
      var rank := s.ranks[a.r];
      var pack := Sends(Current(cfg, s, a.r).slots[a.p], rank.got);
      var m := (w: nat) requires w < 4 => Msg(Cell(a.p.dst, rank.stage, a.p.addr, w), WordOf(pack, w), rank.done);
      assert WordsOf(a.p, rank.stage, pack, rank.done) == {m(0), m(1), m(2), m(3)};
      assert |{m(0), m(1), m(2), m(3)}| <= 4;
      Union(s.air, {m(0), m(1), m(2), m(3)});
    }
  }

  lemma Union<T>(a: set<T>, b: set<T>)
    ensures |a + b| <= |a| + |b|
  {
  }

  lemma StepDown(cfg: Config, s: State, a: Action)
    requires cfg.Ok() && Inv(cfg, s) && Step(cfg, s, a)
    ensures StepsLeft(cfg, Do(cfg, s, a)) < StepsLeft(cfg, s)
  {
    AirStep(cfg, s, a);
    if !a.Land? {
      RankStep(cfg, s, a);
      SumOne(cfg, s.ranks, Do(cfg, s, a).ranks, a.r, |s.ranks|);
    }
  }

  lemma {:induction false} SumSomeLeft(cfg: Config, ranks: seq<Rank>, n: nat)
    requires n <= |ranks| && forall r: nat | r < |ranks| :: RankLeft(cfg, ranks[r]) >= 0
    ensures SumLeft(cfg, ranks, n) >= 0
    decreases n
  {
    if n > 0 {
      SumSomeLeft(cfg, ranks, n - 1);
    }
  }

  lemma SomeLeft(cfg: Config, s: State)
    requires Inv(cfg, s)
    ensures StepsLeft(cfg, s) >= 0
  {
    forall r: nat | r < cfg.ranks
      ensures RankLeft(cfg, s.ranks[r]) >= 0
    {
      RankSomeLeft(cfg, s, r);
    }
    SumSomeLeft(cfg, s.ranks, |s.ranks|);
  }

  lemma RankSomeLeft(cfg: Config, s: State, r: nat)
    requires Shaped(cfg, s) && RanksOk(cfg, s) && GotOk(cfg, s) && PushedOk(cfg, s) && r < cfg.ranks
    ensures RankLeft(cfg, s.ranks[r]) >= 0
  {
    if Active(cfg, s, r) {
      DoneOfCall(cfg, s, r);
      assert CallsLeft(cfg, s.ranks[r].done + 1) >= 0;
    }
  }

  // From every reachable state, steps taken in any order at all reach, within
  // StepsLeft of them, the state where every rank has made every call.
  lemma {:induction false} RunsOut(cfg: Config, s: State, run: seq<Action>, t: State)
    requires cfg.Ok() && Inv(cfg, s) && StepsRun(cfg, s, run, t)
    ensures Inv(cfg, t) && |run| <= StepsLeft(cfg, s)
    ensures (forall a :: !Step(cfg, t, a)) ==> forall r: nat | r < cfg.ranks :: t.ranks[r].done == |cfg.calls|
    decreases |run|
  {
    if run != [] {
      StepInv(cfg, s, run[0]);
      StepDown(cfg, s, run[0]);
      RunsOut(cfg, Do(cfg, s, run[0]), run[1..], t);
    } else {
      SomeLeft(cfg, s);
    }
    if run == [] && forall a :: !Step(cfg, t, a) {
      forall r: nat | r < cfg.ranks
        ensures t.ranks[r].done == |cfg.calls|
      {
        assert RankOk(cfg, t, r);
        if Active(cfg, t, r) {
          var a := NoStall(cfg, t, r);
        }
      }
    }
  }

  ghost predicate StepsRun(cfg: Config, s: State, run: seq<Action>, t: State)
    decreases |run|
  {
    Shaped(cfg, s)
    && if run == [] then t == s else Step(cfg, s, run[0]) && StepsRun(cfg, Do(cfg, s, run[0]), run[1..], t)
  }
}
