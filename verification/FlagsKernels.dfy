// The two-shot and one-shot kernels as calls of the flags protocol, and what
// their threads write to the output.
module FlagsKernels {
  import opened Arith
  import opened WireFormat
  import opened FlagsProtocol
  import opened AllReduceSum

  // Words of the first n packs of a stage.
  ghost function Prefix(n: nat): set<(nat, nat)> {
    set addr: nat, w: nat | addr < n && w < 4 :: (addr, w)
  }

  // --- Two-shot ---------------------------------------------------------------------

  // Area a of rank d's stage holds sender a's part for d (a < ranks) or owner
  // a - ranks's reduced packs; pack i of it is used.
  predicate TwoUses(m: Message, d: nat, a: nat, i: nat) {
    d < m.ranks
    && if a < m.ranks then a != d && i < PartLen(m.ranks, d, m.size)
       else a < 2 * m.ranks && a - m.ranks != d && i < PartLen(m.ranks, a - m.ranks, m.size)
  }

  function TwoLen(m: Message): nat
    requires 0 < m.ranks
  {
    PartFacts(m.ranks, m.size);
    Largest(m.ranks, m.size)
  }

  lemma TwoUsesBelow(m: Message, d: nat, a: nat, i: nat)
    requires TwoUses(m, d, a, i)
    ensures i < TwoLen(m) && At(TwoLen(m), a, i) < At(TwoLen(m), 2 * m.ranks, 0)
  {
    PartFacts(m.ranks, m.size);
    AtBelow(TwoLen(m), a, i, 2 * m.ranks);
  }

  ghost function Input(m: Message, r: nat, q: nat, i: nat): Pack
    requires m.Ok() && r < m.ranks && q < m.ranks && i < PartLen(m.ranks, q, m.size)
  {
    PartitionOwner(m.ranks, m.size, q, i);
    Sanitize(m.input[r][PackAt(m.ranks, m.size, q, i)])
  }

  ghost function PeerAddr(m: Message, q: nat, i: nat, j: nat): nat
    requires q < m.ranks && j < m.ranks - 1
  {
    At(TwoLen(m), Around(q + 1 + j, m.ranks), i)
  }

  // Where owner q finds its peers' packs i.
  ghost function PeerAddrs(m: Message, q: nat, i: nat): (s: set<nat>)
    requires q < m.ranks
  {
    set j: nat | j < m.ranks - 1 :: PeerAddr(m, q, i, j)
  }

  const ZERO_PACK: Pack := [0, 0, 0, 0, 0, 0, 0, 0]

  function Lookup(got: map<nat, Pack>, addr: nat): Pack {
    if addr in got then got[addr] else ZERO_PACK
  }

  // What owner q finds there, in owner order.
  ghost function PeerPacks(m: Message, q: nat, i: nat, got: map<nat, Pack>): (v: seq<Pack>)
    requires q < m.ranks
    ensures |v| == m.ranks - 1
  {
    seq(m.ranks - 1, (j: nat) requires j < m.ranks - 1 => Lookup(got, PeerAddr(m, q, i, j)))
  }

  // The sanitized packs owner q reduces, in owner order.
  ghost function OwnerPacks(m: Message, q: nat, i: nat): (v: seq<Pack>)
    requires m.Ok() && q < m.ranks && i < PartLen(m.ranks, q, m.size)
    ensures |v| == m.ranks
  {
    PartitionOwner(m.ranks, m.size, q, i);
    Rotated(Sanitized(m.Column(PackAt(m.ranks, m.size, q, i))), q)
  }

  ghost function Reduce<F>(fl: Floats<F>, v: seq<Pack>): Pack
    requires |v| > 0
  {
    Sanitize(SumPacks(fl, v))
  }

  // The reduced pack i of owner q, as computed and as meant.
  ghost function GatherSlot<F>(fl: Floats<F>, m: Message, q: nat, i: nat): Slot
    requires m.Ok() && q < m.ranks && i < PartLen(m.ranks, q, m.size)
  {
    var own := Input(m, q, q, i);
    Slot(q, PeerAddrs(m, q, i), got => Reduce(fl, [own] + PeerPacks(m, q, i, got)), Reduce(fl, OwnerPacks(m, q, i)))
  }

  ghost function TwoSlot<F>(fl: Floats<F>, m: Message, d: nat, a: nat, i: nat): Slot
    requires m.Ok() && TwoUses(m, d, a, i)
  {
    if a < m.ranks then
      var p := Input(m, a, d, i);
      Slot(a, {}, got => p, p)
    else
      GatherSlot(fl, m, a - m.ranks, i)
  }

  ghost predicate TwoPlace(m: Message, p: Place)
    requires m.Ok()
  {
    PartFacts(m.ranks, m.size);
    TwoUses(m, p.dst, Area(TwoLen(m), p.addr), Offset(TwoLen(m), p.addr))
  }

  ghost function TwoShot<F>(fl: Floats<F>, m: Message): Call
    requires m.Ok()
  {
    PartFacts(m.ranks, m.size);
    var n := TwoLen(m);
    var places := set d: nat, addr: nat | d < m.ranks && addr < At(n, 2 * m.ranks, 0) && TwoPlace(m, Place(d, addr)) :: Place(d, addr);
    Call(map p | p in places :: TwoSlot(fl, m, p.dst, Area(n, p.addr), Offset(n, p.addr)), At(n, 2 * m.ranks, 0))
  }

  lemma TwoAt<F>(fl: Floats<F>, m: Message, d: nat, a: nat, i: nat)
    requires m.Ok() && TwoUses(m, d, a, i)
    ensures var p := Place(d, At(TwoLen(m), a, i));
      p in TwoShot(fl, m).slots && TwoShot(fl, m).slots[p] == TwoSlot(fl, m, d, a, i)
  {
    TwoUsesBelow(m, d, a, i);
    AtInverse(TwoLen(m), a, i);
  }

  lemma TwoIn<F>(fl: Floats<F>, m: Message, p: Place) returns (a: nat, i: nat)
    requires m.Ok() && p in TwoShot(fl, m).slots
    ensures TwoUses(m, p.dst, a, i) && p == Place(p.dst, At(TwoLen(m), a, i))
    ensures TwoShot(fl, m).slots[p] == TwoSlot(fl, m, p.dst, a, i)
    ensures p.addr < At(TwoLen(m), 2 * m.ranks, 0)
  {
    PartFacts(m.ranks, m.size);
    var n := TwoLen(m);
    a, i := Area(n, p.addr), Offset(n, p.addr);
    AtOfArea(n, p.addr);
  }

  ghost predicate TwoSlotAt<F>(fl: Floats<F>, m: Message, call: Call, d: nat, a: nat, i: nat)
    requires m.Ok() && TwoUses(m, d, a, i)
  {
    var p := Place(d, At(TwoLen(m), a, i));
    p in call.slots && call.slots[p] == TwoSlot(fl, m, d, a, i)
  }

  // The slots of the two-shot call, by area.
  ghost predicate IsTwoShot<F>(fl: Floats<F>, m: Message, call: Call)
    requires m.Ok()
  {
    forall d, a, i | TwoUses(m, d, a, i) :: TwoSlotAt(fl, m, call, d, a, i)
  }

  lemma TwoShotIs<F>(fl: Floats<F>, m: Message) returns (call: Call)
    requires m.Ok()
    ensures call == TwoShot(fl, m) && IsTwoShot(fl, m, call)
  {
    call := TwoShot(fl, m);
    forall d, a, i | TwoUses(m, d, a, i)
      ensures TwoSlotAt(fl, m, call, d, a, i)
    {
      TwoAt(fl, m, d, a, i);
    }
  }

  // Pack j of an owner's peers is where it looks for it.
  lemma TwoNeed<F>(fl: Floats<F>, m: Message, call: Call, q: nat, i: nat, j: nat)
    requires m.Ok() && IsTwoShot(fl, m, call) && q < m.ranks && i < PartLen(m.ranks, q, m.size) && j < m.ranks - 1
    ensures var p := Place(q, PeerAddr(m, q, i, j));
      p in call.slots && call.slots[p].needs == {} && call.slots[p].pack == OwnerPacks(m, q, i)[j + 1]
      && call.slots[p].sender == Around(q + 1 + j, m.ranks)
  {
    var a := Around(q + 1 + j, m.ranks);
    assert TwoUses(m, q, a, i);
    assert TwoSlotAt(fl, m, call, q, a, i);
    assert OwnerPacks(m, q, i)[j + 1] == Input(m, a, q, i);
  }

  // What an owner's push needs is what its peers sent it, in owner order.
  lemma TwoNeeds<F>(fl: Floats<F>, m: Message, call: Call, q: nat, i: nat)
    requires m.Ok() && IsTwoShot(fl, m, call) && q < m.ranks && i < PartLen(m.ranks, q, m.size)
    ensures forall n: nat | n in PeerAddrs(m, q, i) :: Place(q, n) in call.slots && call.slots[Place(q, n)].needs == {}
    ensures [Input(m, q, q, i)] + PeerPacks(m, q, i, PacksAt(call, q, PeerAddrs(m, q, i))) == OwnerPacks(m, q, i)
  {
    forall j: nat | j < m.ranks - 1
      ensures var p := Place(q, PeerAddr(m, q, i, j));
        p in call.slots && call.slots[p].needs == {} && call.slots[p].pack == OwnerPacks(m, q, i)[j + 1]
    {
      TwoNeed(fl, m, call, q, i, j);
    }
    var got := PacksAt(call, q, PeerAddrs(m, q, i));
    forall j: nat | j < m.ranks - 1
      ensures PeerPacks(m, q, i, got)[j] == OwnerPacks(m, q, i)[j + 1]
    {
      assert PeerAddr(m, q, i, j) in PeerAddrs(m, q, i);
    }
    FirstAndRest(Input(m, q, q, i), PeerPacks(m, q, i, got), OwnerPacks(m, q, i));
  }

  lemma FirstAndRest<T>(x: T, rest: seq<T>, all: seq<T>)
    requires |all| == |rest| + 1 && all[0] == x
    requires forall j | 0 <= j < |rest| :: rest[j] == all[j + 1]
    ensures [x] + rest == all
  {
  }

  ghost function FlagsConfig(ranks: nat, calls: seq<Call>): Config {
    Config(ranks, calls, Prefix)
  }

  lemma InPrefix(addr: nat, n: nat)
    requires addr < n
    ensures forall w: nat | w < 4 :: (addr, w) in Prefix(n)
  {
  }

  lemma TwoSlotsOk<F>(fl: Floats<F>, m: Message, call: Call, cfg: Config, d: nat, a: nat, i: nat)
    requires m.Ok() && IsTwoShot(fl, m, call) && cfg.ranks == m.ranks && cfg.region == Prefix
    requires TwoUses(m, d, a, i) && call.used == At(TwoLen(m), 2 * m.ranks, 0)
    ensures Place(d, At(TwoLen(m), a, i)) in call.slots
    ensures cfg.SlotOk(call, Place(d, At(TwoLen(m), a, i)))
  {
    var p := Place(d, At(TwoLen(m), a, i));
    TwoUsesBelow(m, d, a, i);
    InPrefix(p.addr, call.used);
    var slot := SlotSent(fl, m, call, d, a, i);
    if a >= m.ranks {
      TwoNeeds(fl, m, call, a - m.ranks, i);
      ReduceNeeds(fl, m, call, cfg, p, a - m.ranks, i);
    } else {
      FreeNeeds(cfg, call, p);
    }
  }

  // A push that needs nothing sends a fixed pack.
  lemma FreeNeeds(cfg: Config, call: Call, p: Place)
    requires p in call.slots && call.slots[p].needs == {} && call.slots[p].pack == call.slots[p].make(map[])
    ensures cfg.NeedsOk(call, p)
  {
    assert PacksAt(call, call.slots[p].sender, {}) == map[];
  }

  lemma SlotSent<F>(fl: Floats<F>, m: Message, call: Call, d: nat, a: nat, i: nat) returns (slot: Slot)
    requires m.Ok() && IsTwoShot(fl, m, call) && TwoUses(m, d, a, i)
    ensures Place(d, At(TwoLen(m), a, i)) in call.slots && call.slots[Place(d, At(TwoLen(m), a, i))] == slot
    ensures a >= m.ranks ==> slot == GatherSlot(fl, m, a - m.ranks, i)
    ensures a < m.ranks ==> slot.sender == a && slot.needs == {} && slot.pack == slot.make(map[])
    ensures slot.sender < m.ranks && slot.sender != d && Clean(slot.pack)
  {
    assert TwoSlotAt(fl, m, call, d, a, i);
    slot := TwoSlot(fl, m, d, a, i);
  }

  lemma ReduceNeeds<F>(fl: Floats<F>, m: Message, call: Call, cfg: Config, p: Place, q: nat, i: nat)
    requires m.Ok() && q < m.ranks && i < PartLen(m.ranks, q, m.size) && p in call.slots
    requires call.slots[p] == GatherSlot(fl, m, q, i)
    requires forall n: nat | n in PeerAddrs(m, q, i) :: Place(q, n) in call.slots && call.slots[Place(q, n)].needs == {}
    requires [Input(m, q, q, i)] + PeerPacks(m, q, i, PacksAt(call, q, PeerAddrs(m, q, i))) == OwnerPacks(m, q, i)
    ensures cfg.NeedsOk(call, p)
  {
  }

  // Every rank hears from every other: directly, or through the last owner, whose
  // partition is never empty.
  lemma TwoHears<F>(fl: Floats<F>, m: Message, call: Call, cfg: Config, r: nat, s: nat)
    requires m.Ok() && IsTwoShot(fl, m, call) && cfg.ranks == m.ranks && r < m.ranks && s < m.ranks && r != s
    ensures cfg.Hears(call, r, s)
  {
    var last := m.ranks - 1;
    PartFacts(m.ranks, m.size);
    if r == last {
      assert TwoUses(m, r, s, 0);
      var slot := SlotSent(fl, m, call, r, s, 0);
      HearsFrom(cfg, call, r, s, Place(r, At(TwoLen(m), s, 0)));
    } else {
      var p := FromLast(fl, m, call, r);
      if s == last {
        HearsFrom(cfg, call, r, s, p);
      } else {
        TwoNeed(fl, m, call, last, 0, s);
        assert PeerAddr(m, last, 0, s) in PeerAddrs(m, last, 0);
        HearsThrough(cfg, call, r, s, p, PeerAddr(m, last, 0, s));
      }
    }
  }

  lemma FromLast<F>(fl: Floats<F>, m: Message, call: Call, r: nat) returns (p: Place)
    requires m.Ok() && IsTwoShot(fl, m, call) && r < m.ranks - 1
    ensures p in call.slots && p.dst == r && call.slots[p].sender == m.ranks - 1
    ensures call.slots[p].needs == PeerAddrs(m, m.ranks - 1, 0)
  {
    PartFacts(m.ranks, m.size);
    var a := m.ranks + (m.ranks - 1);
    assert TwoUses(m, r, a, 0);
    var slot := SlotSent(fl, m, call, r, a, 0);
    p := Place(r, At(TwoLen(m), a, 0));
  }

  lemma HearsFrom(cfg: Config, call: Call, r: nat, s: nat, p: Place)
    requires p in call.slots && p.dst == r && call.slots[p].sender == s
    ensures cfg.Hears(call, r, s)
  {
  }

  lemma HearsThrough(cfg: Config, call: Call, r: nat, s: nat, p: Place, n: nat)
    requires p in call.slots && p.dst == r && n in call.slots[p].needs
    requires Place(call.slots[p].sender, n) in call.slots && call.slots[Place(call.slots[p].sender, n)].sender == s
    ensures cfg.Hears(call, r, s)
  {
  }

  lemma TwoShotOk<F>(fl: Floats<F>, m: Message, cfg: Config)
    requires m.Ok() && cfg.ranks == m.ranks && cfg.region == Prefix
    ensures cfg.CallOk(TwoShot(fl, m))
  {
    var call := TwoShotIs(fl, m);
    forall p | p in call.slots
      ensures cfg.SlotOk(call, p)
    {
      var a, i := TwoIn(fl, m, p);
      TwoSlotsOk(fl, m, call, cfg, p.dst, a, i);
    }
    forall r: nat, s: nat | r < cfg.ranks && s < cfg.ranks && r != s
      ensures cfg.Hears(call, r, s)
    {
      TwoHears(fl, m, call, cfg, r, s);
    }
  }

  // --- One-shot ---------------------------------------------------------------------

  // Area a of rank d's stage holds rank a's whole message.
  predicate OneUses(m: Message, d: nat, a: nat, i: nat) {
    d < m.ranks && a < m.ranks && a != d && i < m.size
  }

  ghost function OneSlot(m: Message, a: nat, i: nat): Slot
    requires m.Ok() && a < m.ranks && i < m.size
  {
    var p := Sanitize(m.input[a][i]);
    Slot(a, {}, got => p, p)
  }

  ghost function OneShot(m: Message): Call
    requires m.Ok()
  {
    var places := set d: nat, addr: nat
      | d < m.ranks && addr < At(m.size, m.ranks, 0) && OneUses(m, d, Area(m.size, addr), Offset(m.size, addr)) :: Place(d, addr);
    Call(map p | p in places :: OneSlot(m, Area(m.size, p.addr), Offset(m.size, p.addr)), At(m.size, m.ranks, 0))
  }

  ghost predicate OneSlotAt(m: Message, call: Call, d: nat, a: nat, i: nat)
    requires m.Ok() && OneUses(m, d, a, i)
  {
    var p := Place(d, At(m.size, a, i));
    p in call.slots && call.slots[p] == OneSlot(m, a, i)
  }

  lemma OneAt(m: Message, d: nat, a: nat, i: nat)
    requires m.Ok() && OneUses(m, d, a, i)
    ensures OneSlotAt(m, OneShot(m), d, a, i)
    ensures At(m.size, a, i) < At(m.size, m.ranks, 0)
  {
    AtBelow(m.size, a, i, m.ranks);
    AtInverse(m.size, a, i);
  }

  lemma OneShotOk(m: Message, cfg: Config)
    requires m.Ok() && cfg.ranks == m.ranks && cfg.region == Prefix
    ensures cfg.CallOk(OneShot(m))
  {
    var call := OneShot(m);
    forall p | p in call.slots
      ensures cfg.SlotOk(call, p)
    {
      AtOfArea(m.size, p.addr);
      InPrefix(p.addr, call.used);
    }
    forall r: nat, s: nat | r < cfg.ranks && s < cfg.ranks && r != s
      ensures cfg.Hears(call, r, s)
    {
      OneAt(m, r, s, 0);
      HearsFrom(cfg, call, r, s, Place(r, At(m.size, s, 0)));
    }
  }

  // --- The output ---------------------------------------------------------------------

  // What rank r's waits of one element return, its own pack in its own place.
  function Waited(got: map<Place, Pack>, ranks: nat, r: nat, own: Pack, len: nat, i: nat): (v: seq<Pack>)
    requires forall s: nat | s < ranks && s != r :: Place(r, At(len, s, i)) in got
    ensures |v| == ranks
  {
    seq(ranks, s requires 0 <= s < ranks => if s == r then own else got[Place(r, At(len, s, i))])
  }

  lemma RotateSanitized(v: seq<Pack>, owner: nat)
    requires owner < |v|
    ensures Rotated(Sanitized(v), owner) == Sanitized(Rotated(v, owner))
  {
    var a, b := Rotated(Sanitized(v), owner), Sanitized(Rotated(v, owner));
    forall j | 0 <= j < |v|
      ensures a[j] == b[j]
    {
      assert a[j] == Sanitize(v[Around(owner + j, |v|)]);
      assert b[j] == Sanitize(Rotated(v, owner)[j]);
    }
  }

  // Reducing the sanitized packs of element i in owner order gives the result's bits.
  lemma ReducedIsResult<F(!new)>(fl: Floats<F>, m: Message, i: nat, q: nat)
    requires NanOk(fl) && m.Ok() && i < m.size && q == Owner(m.ranks, m.size, i) < m.ranks
    ensures Sanitize(SumPacks(fl, Rotated(Sanitized(m.Column(i)), q))) == m.Result(fl)[i]
  {
    var v := Rotated(m.Column(i), q);
    RotateSanitized(m.Column(i), q);
    SanitizeKeepsBits(fl, v);
  }

  // A reduce-scatter wait of the two-shot returns the sanitized inputs.
  lemma TwoWaited<F>(fl: Floats<F>, m: Message, call: Call, r: nat, got: map<Place, Pack>, i: nat)
    requires m.Ok() && r < m.ranks && i < PartLen(m.ranks, r, m.size) && IsTwoShot(fl, m, call) && got == Received(call, r)
    ensures forall s: nat | s < m.ranks && s != r :: Place(r, At(TwoLen(m), s, i)) in got
    ensures PackAt(m.ranks, m.size, r, i) < m.size
    ensures Waited(got, m.ranks, r, Input(m, r, r, i), TwoLen(m), i) == Sanitized(m.Column(PackAt(m.ranks, m.size, r, i)))
  {
    PartitionOwner(m.ranks, m.size, r, i);
    forall s: nat | s < m.ranks && s != r
      ensures Place(r, At(TwoLen(m), s, i)) in got && got[Place(r, At(TwoLen(m), s, i))] == Input(m, s, r, i)
    {
      assert TwoUses(m, r, s, i) && TwoSlotAt(fl, m, call, r, s, i);
    }
  }

  lemma TwoGot<F>(fl: Floats<F>, m: Message, call: Call, r: nat, got: map<Place, Pack>, q: nat, i: nat)
    requires m.Ok() && r < m.ranks && q < m.ranks && q != r && i < PartLen(m.ranks, q, m.size)
    requires IsTwoShot(fl, m, call) && got == Received(call, r)
    ensures Place(r, At(TwoLen(m), m.ranks + q, i)) in got
    ensures got[Place(r, At(TwoLen(m), m.ranks + q, i))] == GatherSlot(fl, m, q, i).pack
  {
    var pack := PackSent(fl, m, call, r, m.ranks + q, i);
  }

  lemma PackSent<F>(fl: Floats<F>, m: Message, call: Call, d: nat, a: nat, i: nat) returns (pack: Pack)
    requires m.Ok() && IsTwoShot(fl, m, call) && TwoUses(m, d, a, i)
    ensures Place(d, At(TwoLen(m), a, i)) in call.slots && call.slots[Place(d, At(TwoLen(m), a, i))].pack == pack
    ensures pack == if a < m.ranks then Input(m, a, d, i) else GatherSlot(fl, m, a - m.ranks, i).pack
  {
    assert TwoSlotAt(fl, m, call, d, a, i);
    pack := TwoSlot(fl, m, d, a, i).pack;
  }

  // An all-gather wait returns the result's pack.
  lemma TwoGathered<F(!new)>(fl: Floats<F>, m: Message, call: Call, r: nat, got: map<Place, Pack>, q: nat, i: nat)
    requires NanOk(fl) && m.Ok() && r < m.ranks && q < m.ranks && q != r && i < PartLen(m.ranks, q, m.size)
    requires IsTwoShot(fl, m, call) && got == Received(call, r)
    ensures PackAt(m.ranks, m.size, q, i) < m.size
    ensures Place(r, At(TwoLen(m), m.ranks + q, i)) in got
    ensures got[Place(r, At(TwoLen(m), m.ranks + q, i))] == m.Result(fl)[PackAt(m.ranks, m.size, q, i)]
  {
    TwoGot(fl, m, call, r, got, q, i);
    GatherIsResult(fl, m, q, i);
  }

  lemma GatherIsResult<F(!new)>(fl: Floats<F>, m: Message, q: nat, i: nat)
    requires NanOk(fl) && m.Ok() && q < m.ranks && i < PartLen(m.ranks, q, m.size)
    ensures PackAt(m.ranks, m.size, q, i) < m.size
    ensures GatherSlot(fl, m, q, i).pack == m.Result(fl)[PackAt(m.ranks, m.size, q, i)]
  {
    PartitionOwner(m.ranks, m.size, q, i);
    ReducedIsResult(fl, m, PackAt(m.ranks, m.size, q, i), q);
  }

  // Which thread of a grid-stride loop handles pack i of the message.
  function ThreadOf(m: Message, i: nat, stride: nat): nat
    requires 0 < m.ranks && i < m.size && 0 < stride
  {
    var idx := PartOffset(m, i);
    Offset(stride, idx)
  }

  // Pack i's index in its owner's partition.
  function PartOffset(m: Message, i: nat): (idx: nat)
    requires 0 < m.ranks && i < m.size
  {
    OwnerIsRank(m.ranks, m.size, i);
    PartOffsetIs(m, i);
    i - PackAt(m.ranks, m.size, Owner(m.ranks, m.size, i), 0)
  }

  lemma PartOffsetIs(m: Message, i: nat)
    requires 0 < m.ranks && i < m.size
    ensures 0 <= Owner(m.ranks, m.size, i) < m.ranks
    ensures i >= PackAt(m.ranks, m.size, Owner(m.ranks, m.size, i), 0)
    ensures i - PackAt(m.ranks, m.size, Owner(m.ranks, m.size, i), 0) < PartLen(m.ranks, Owner(m.ranks, m.size, i), m.size)
  {
    var q := Owner(m.ranks, m.size, i);
    var idx := OwnerPartition(m.ranks, m.size, i);
    AtIs(m.size / m.ranks, q, idx);
    AtIs(m.size / m.ranks, q, 0);
  }

  // Pack idx of partition q is pack i of the message.
  lemma PartCoordinates(m: Message, q: nat, idx: nat)
    requires q < m.ranks && idx < PartLen(m.ranks, q, m.size)
    ensures PackAt(m.ranks, m.size, q, idx) < m.size
    ensures Owner(m.ranks, m.size, PackAt(m.ranks, m.size, q, idx)) == q
    ensures PartOffset(m, PackAt(m.ranks, m.size, q, idx)) == idx
  {
    PartitionOwner(m.ranks, m.size, q, idx);
    AtIs(m.size / m.ranks, q, idx);
    AtIs(m.size / m.ranks, q, 0);
  }

  // A stride's indices lie a stride apart.
  lemma {:induction false} OffsetBetween(stride: nat, idx: nat, j: nat)
    requires 0 < stride && idx < j < idx + stride
    ensures Offset(stride, j) != Offset(stride, idx)
    decreases idx
  {
    if idx >= stride {
      OffsetBetween(stride, idx - stride, j - stride);
    }
  }
}
