// The warp code of the compressed all-reduce: encode2 fills a scratch in place
// and recv_blocks2 polls a slot until it holds the whole block. Lanes are loop
// iterations inside the phases that __syncwarp separates.
module WireKernel {
  import opened WireFormat

  // --- Encoding ----------------------------------------------------------------------

  // One lane's registers: largest code, a zero exponent seen, and both codes.
  datatype Lane = Lane(maxc: int, zero: bool, c3: int, c4: int)

  ghost predicate Over(cs: seq<int>, n: int, b: int)
    requires n <= |cs|
  {
    exists j :: 0 <= j < n && cs[j] > b
  }

  ghost predicate ZeroIn(cs: seq<int>, n: int)
    requires n <= |cs|
  {
    exists j :: 0 <= j < n && cs[j] == 0
  }

  ghost predicate LaneOk(p: Pack, top: int, r: Lane) {
    var cs := Codes(p, top);
    && (r.zero <==> ZeroIn(cs, 8)) && (r.maxc > 8 <==> Over(cs, 8, 8)) && (r.maxc > 15 <==> Over(cs, 8, 15))
    && r.c4 == FromDigits(16, cs) && r.c3 == FromDigits(8, MaskedCodes(p, top))
  }

  lemma AppendDigit(b: int, ds: seq<int>, d: int)
    ensures FromDigits(b, ds + [d]) == FromDigits(b, ds) + Pow(b, |ds|) * d
  {
    SplitDigits(b, ds + [d], |ds|);
    assert (ds + [d])[..|ds|] == ds && (ds + [d])[|ds|..] == [d];
    assert [d][1..] == [];
  }

  // The 3-bit fields as the loop builds them.
  function MaskedCodes(p: Pack, top: int): (cs: seq<int>)
    ensures |cs| == 8
  {
    seq(8, i requires 0 <= i < 8 => (Codes(p, top)[i] - 1) % 8)
  }

  lemma MaskedIsNarrow(p: Pack, top: int)
    requires !Wide(p, top)
    ensures MaskedCodes(p, top) == NarrowCodes(p, top)
  {
    forall i: nat | i < 8
      ensures MaskedCodes(p, top)[i] == NarrowCodes(p, top)[i]
    {
      assert 1 <= Codes(p, top)[i] <= 8;
    }
  }

  method LaneRegisters(p: Pack, top: int) returns (r: Lane)
    requires forall i :: 0 <= i < 8 ==> Exp(p[i]) <= top
    ensures LaneOk(p, top, r)
  {
    var maxc, c3, c4, zero := 0, 0, 0, false;
    ghost var cs, ms := Codes(p, top), MaskedCodes(p, top);
    for i := 0 to 8
      invariant 0 <= maxc
      invariant zero <==> ZeroIn(cs, i)
      invariant maxc > 8 <==> Over(cs, i, 8)
      invariant maxc > 15 <==> Over(cs, i, 15)
      invariant c4 == FromDigits(16, cs[..i]) && c3 == FromDigits(8, ms[..i])
    {
      var e := Exp(p[i]);
      var c := if e != 0 then top + 1 - e else 0;
      assert cs[i] == c && ms[i] == (c - 1) % 8;
      CodeStep(cs, ms, i);
      if c > maxc {
        maxc := c;
      }
      zero := zero || e == 0;
      c3 := c3 + Pow(8, i) * ((c - 1) % 8);
      c4 := c4 + Pow(16, i) * c;
    }
    assert cs[..8] == cs && ms[..8] == ms;
    r := Lane(maxc, zero, c3, c4);
  }

  lemma CodeStep(cs: seq<int>, ms: seq<int>, i: nat)
    requires |cs| == |ms| == 8 && i < 8
    ensures FromDigits(16, cs[..i + 1]) == FromDigits(16, cs[..i]) + Pow(16, i) * cs[i]
    ensures FromDigits(8, ms[..i + 1]) == FromDigits(8, ms[..i]) + Pow(8, i) * ms[i]
  {
    assert cs[..i + 1] == cs[..i] + [cs[i]] && ms[..i + 1] == ms[..i] + [ms[i]];
    AppendDigit(16, cs[..i], cs[i]);
    AppendDigit(8, ms[..i], ms[i]);
  }

  lemma {:induction false} MaxOfSnoc(xs: seq<int>, x: int)
    ensures MaxOf(xs + [x]) == if x > MaxOf(xs) then x else MaxOf(xs)
    decreases |xs|
  {
    if xs == [] {
      assert xs + [x] == [x] && [x][1..] == [];
    } else {
      assert (xs + [x])[1..] == xs[1..] + [x];
      MaxOfSnoc(xs[1..], x);
    }
  }

  method LaneTop(p: Pack) returns (t: int)
    ensures t == MaxOf(Exps(p))
  {
    t := 0;
    for i := 0 to 8
      invariant t == MaxOf(Exps(p)[..i])
    {
      assert Exps(p)[..i + 1] == Exps(p)[..i] + [Exp(p[i])];
      MaxOfSnoc(Exps(p)[..i], Exp(p[i]));
      if Exp(p[i]) > t {
        t := Exp(p[i]);
      }
    }
    assert Exps(p)[..8] == Exps(p);
  }

  method BlockTop(v: seq<Pack>) returns (top: int)
    ensures top == TopExp(v)
  {
    ghost var tops := seq(|v|, l requires 0 <= l < |v| => MaxOf(Exps(v[l])));
    top := 0;
    for l := 0 to |v|
      invariant top == MaxOf(tops[..l])
    {
      var t := LaneTop(v[l]);
      assert tops[..l + 1] == tops[..l] + [t];
      MaxOfSnoc(tops[..l], t);
      if t > top {
        top := t;
      }
    }
    assert tops[..|v|] == tops;
  }

  // The warp votes: may the block be coded, and which lanes are wide.
  method Vote(v: seq<Pack>, top: int) returns (regs: seq<Lane>, over: bool, mask: int)
    requires |v| == LANES && top == TopExp(v)
    ensures |regs| == LANES && forall l :: 0 <= l < LANES ==> LaneOk(v[l], top, regs[l])
    ensures (top != 255 && !over) <==> Codable(v)
    ensures mask == Mask(v)
  {
    regs, over, mask := [], false, 0;
    for l := 0 to LANES
      invariant |regs| == l && forall k :: 0 <= k < l ==> LaneOk(v[k], top, regs[k])
      invariant over <==> exists k :: 0 <= k < l && !AllBelow16(Codes(v[k], top))
      invariant mask == FromDigits(2, Wides(v)[..if l < BLOCK_PACKS then l else BLOCK_PACKS])
    {
      forall i: nat | i < 8
        ensures Exp(v[l][i]) <= top
      {
        TopExpBounds(v, l, i);
      }
      var r := LaneRegisters(v[l], top);
      WideVote(v[l], top, r);
      regs := regs + [r];
      over := over || r.maxc > 15;
      if l < BLOCK_PACKS {
        var wide := r.zero || r.maxc > 8;
        MaskStep(Wides(v), l);
        mask := mask + Pow(2, l) * if wide then 1 else 0;
      }
    }
    assert Wides(v)[..BLOCK_PACKS] == Wides(v);
  }

  lemma MaskStep(ws: seq<int>, l: nat)
    requires l < |ws|
    ensures FromDigits(2, ws[..l + 1]) == FromDigits(2, ws[..l]) + Pow(2, l) * ws[l]
  {
    assert ws[..l + 1] == ws[..l] + [ws[l]];
    AppendDigit(2, ws[..l], ws[l]);
  }

  lemma WideVote(p: Pack, top: int, r: Lane)
    requires LaneOk(p, top, r) && forall i :: 0 <= i < 8 ==> Exp(p[i]) <= top
    ensures (r.zero || r.maxc > 8) <==> Wide(p, top)
    ensures r.maxc > 15 <==> !AllBelow16(Codes(p, top))
    ensures CodeWord(p, top) == if Wide(p, top) then r.c4 else r.c3
  {
    if !Wide(p, top) {
      MaskedIsNarrow(p, top);
    }
  }

  // --- The scratch ---------------------------------------------------------------------

  // Lanes below n have written their bytes.
  ghost predicate Filled(s: seq<int>, v: seq<Pack>, n: nat)
    requires |s| == 512 && |v| == LANES && n <= BLOCK_PACKS
  {
    StreamSize(v);
    && 0 <= Start(v, n) <= |Stream(v, BLOCK_PACKS)|
    && s[4] == Digits(Mask(v), 256, 4)[3]
    && (forall i :: 0 <= i < 8 * n ==> s[8 + i] == Values(v)[i])
    && (forall k :: 0 <= k < Start(v, n) ==> s[StreamPos(k)] == Stream(v, BLOCK_PACKS)[k])
    && (forall i :: 256 <= i < 384 && 253 + Start(v, n) <= i ==> s[i] == 0)
  }

  // The stream index of a slot byte, or -1.
  function StreamIndex(i: int): int {
    if 5 <= i < 8 then i - 5 else if 256 <= i then i - 253 else -1
  }

  method WriteField(sm: array<int>, k: nat, code: int, wide: bool)
    requires sm.Length == 512 && k + 4 < 200
    modifies sm
    ensures forall j :: 0 <= j < (if wide then 4 else 3) ==> sm[StreamPos(k + j)] == Digit(code, 256, j)
    ensures forall i :: 0 <= i < 512 && !(k <= StreamIndex(i) < k + if wide then 4 else 3) ==> sm[i] == old(sm[i])
  {
    sm[StreamPos(k)] := Digit(code, 256, 0);
    sm[StreamPos(k + 1)] := Digit(code, 256, 1);
    sm[StreamPos(k + 2)] := Digit(code, 256, 2);
    if wide {
      sm[StreamPos(k + 3)] := Digit(code, 256, 3);
    }
  }

  method WriteValues(sm: array<int>, lane: nat, p: Pack)
    requires sm.Length == 512 && lane < BLOCK_PACKS
    modifies sm
    ensures forall i :: 0 <= i < 8 ==> sm[8 + 8 * lane + i] == SignMantissa(p[i])
    ensures forall i :: 0 <= i < 512 && !(8 + 8 * lane <= i < 16 + 8 * lane) ==> sm[i] == old(sm[i])
  {
    for i := 0 to 8
      invariant forall j :: 0 <= j < i ==> sm[8 + 8 * lane + j] == SignMantissa(p[j])
      invariant forall j :: 0 <= j < 512 && !(8 + 8 * lane <= j < 16 + 8 * lane) ==> sm[j] == old(sm[j])
    {
      sm[8 + 8 * lane + i] := SignMantissa(p[i]);
    }
  }

  // What one lane adds to the scratch.
  lemma FillStep(s: seq<int>, t: seq<int>, v: seq<Pack>, lane: nat, k: int, n: int)
    requires |s| == |t| == 512 && |v| == LANES && lane < BLOCK_PACKS && Filled(s, v, lane)
    requires k == Start(v, lane) && n == |CodeBytes(v[lane], TopExp(v))| && 0 <= k && k + n <= 124
    requires forall i :: 0 <= i < 8 ==> t[8 + 8 * lane + i] == SignMantissa(v[lane][i])
    requires forall j :: 0 <= j < n ==> t[StreamPos(k + j)] == CodeBytes(v[lane], TopExp(v))[j]
    requires forall i :: 0 <= i < 512 && !(8 + 8 * lane <= i < 16 + 8 * lane) && !(k <= StreamIndex(i) < k + n) ==>
               t[i] == s[i]
    ensures Filled(t, v, lane + 1)
  {
    StreamSize(v);
    StreamField(v, BLOCK_PACKS, lane);
    StartNext(v, lane);
    ValuesStep(s, t, v, lane, k, n);
    StreamStep(s, t, Stream(v, BLOCK_PACKS), CodeBytes(v[lane], TopExp(v)), lane, k);
  }

  // A lane's code bytes continue the stream.
  lemma StreamStep(s: seq<int>, t: seq<int>, all: seq<int>, code: seq<int>, lane: nat, k: nat)
    requires |s| == |t| == 512 && lane < BLOCK_PACKS && k + |code| <= 124 && FieldAt(all, k, code)
    requires forall x :: 0 <= x < k ==> s[StreamPos(x)] == all[x]
    requires forall j :: 0 <= j < |code| ==> t[StreamPos(k + j)] == code[j]
    requires forall i :: 0 <= i < 512 && !(8 + 8 * lane <= i < 16 + 8 * lane) && !(k <= StreamIndex(i) < k + |code|) ==>
               t[i] == s[i]
    ensures forall x :: 0 <= x < k + |code| ==> t[StreamPos(x)] == all[x]
  {
    forall x: nat | x < k + |code|
      ensures t[StreamPos(x)] == all[x]
    {
      if x >= k {
        assert t[StreamPos(k + (x - k))] == code[x - k] == all[k + (x - k)];
      } else {
        assert StreamIndex(StreamPos(x)) == x;
      }
    }
  }

  lemma ValuesStep(s: seq<int>, t: seq<int>, v: seq<Pack>, lane: nat, k: int, n: int)
    requires |s| == |t| == 512 && |v| == LANES && lane < BLOCK_PACKS && 0 <= k
    requires forall i :: 0 <= i < 8 * lane ==> s[8 + i] == Values(v)[i]
    requires forall i :: 0 <= i < 8 ==> t[8 + 8 * lane + i] == SignMantissa(v[lane][i])
    requires forall i :: 0 <= i < 512 && !(8 + 8 * lane <= i < 16 + 8 * lane) && !(k <= StreamIndex(i) < k + n) ==>
               t[i] == s[i]
    ensures forall i :: 0 <= i < 8 * (lane + 1) ==> t[8 + i] == Values(v)[i]
  {
    forall i: nat | i < 8 * (lane + 1)
      ensures t[8 + i] == Values(v)[i]
    {
      if i >= 8 * lane {
        var x := i - 8 * lane;
        assert t[8 + 8 * lane + x] == SignMantissa(v[lane][x]);
        assert i / 8 == lane && i % 8 == x;
      } else {
        assert t[8 + i] == s[8 + i];
      }
    }
  }

  // One lane's stores between the two barriers.
  method FillLane(v: seq<Pack>, top: int, mask: int, r: Lane, lane: nat, sm: array<int>)
    requires |v| == LANES && lane < BLOCK_PACKS && sm.Length == 512
    requires top == TopExp(v) && mask == Mask(v) && LaneOk(v[lane], top, r)
    requires Filled(sm[..], v, lane)
    modifies sm
    ensures Filled(sm[..], v, lane + 1)
  {
    ghost var s := sm[..];
    WriteValues(sm, lane, v[lane]);
    ghost var m := sm[..];
    FieldFacts(v, lane, r);
    var k := 3 * lane + Popc(LowBits(mask, lane), 32);
    var wide := r.zero || r.maxc > 8;
    WriteField(sm, k, if wide then r.c4 else r.c3, wide);
    ghost var t := sm[..];
    ghost var n := if wide then 4 else 3;
    forall i | 0 <= i < 512 && !(8 + 8 * lane <= i < 16 + 8 * lane) && !(k <= StreamIndex(i) < k + n)
      ensures t[i] == s[i]
    {
      assert m[i] == s[i];
    }
    forall i | 0 <= i < 8
      ensures t[8 + 8 * lane + i] == SignMantissa(v[lane][i])
    {
      assert m[8 + 8 * lane + i] == SignMantissa(v[lane][i]);
    }
    FillStep(s, t, v, lane, k, n);
  }

  // Where a lane's field goes and what it is.
  lemma FieldFacts(v: seq<Pack>, lane: nat, r: Lane)
    requires |v| == LANES && lane < BLOCK_PACKS && LaneOk(v[lane], TopExp(v), r)
    ensures (r.zero || r.maxc > 8) <==> Wide(v[lane], TopExp(v))
    ensures 3 * lane + Popc(LowBits(Mask(v), lane), 32) == Start(v, lane)
    ensures var n := if Wide(v[lane], TopExp(v)) then 4 else 3;
      n == |CodeBytes(v[lane], TopExp(v))| && Start(v, lane) + n <= 124
    ensures var code := if Wide(v[lane], TopExp(v)) then r.c4 else r.c3;
      forall j :: 0 <= j < |CodeBytes(v[lane], TopExp(v))| ==>
        CodeBytes(v[lane], TopExp(v))[j] == Digit(code, 256, j)
  {
    forall i: nat | i < 8
      ensures Exp(v[lane][i]) <= TopExp(v)
    {
      TopExpBounds(v, lane, i);
    }
    WideVote(v[lane], TopExp(v), r);
    MaskBit(v, lane);
    StreamSize(v);
    StreamField(v, BLOCK_PACKS, lane);
    var n := if Wide(v[lane], TopExp(v)) then 4 else 3;
    forall j: nat | j < n
      ensures CodeBytes(v[lane], TopExp(v))[j] == Digit(CodeWord(v[lane], TopExp(v)), 256, j)
    {
      DigitsAre(CodeWord(v[lane], TopExp(v)), 256, n, j);
    }
  }

  // The stores before the first barrier: zeros for the stream, and word 1.
  method ClearScratch(v: seq<Pack>, mask: int, sm: array<int>)
    requires |v| == LANES && sm.Length == 512 && mask == Mask(v)
    modifies sm
    ensures Filled(sm[..], v, 0)
  {
    for i := 256 to 384
      invariant forall j :: 256 <= j < i ==> sm[j] == 0
    {
      sm[i] := 0;
    }
    sm[4], sm[5], sm[6], sm[7] := Digit(mask, 256, 3), 0, 0, 0;
    DigitsAre(mask, 256, 4, 3);
    assert Wides(v)[..0] == [];
    StreamSize(v);
  }

  // All lanes' stores, in the order of the two phases.
  method FillScratch(v: seq<Pack>, top: int, mask: int, regs: seq<Lane>, sm: array<int>)
    requires |v| == |regs| == LANES && sm.Length == 512 && top == TopExp(v) && mask == Mask(v)
    requires forall l :: 0 <= l < LANES ==> LaneOk(v[l], top, regs[l])
    modifies sm
    ensures sm[..384] == SlotBytes(v)
  {
    ClearScratch(v, mask, sm);
    for lane := 0 to BLOCK_PACKS
      invariant Filled(sm[..], v, lane)
    {
      FillLane(v, top, mask, regs[lane], lane, sm);
    }
    ghost var s := sm[..];
    sm[0], sm[1], sm[2], sm[3] := top, Digit(mask, 256, 0), Digit(mask, 256, 1), Digit(mask, 256, 2);
    ghost var t := sm[..];
    forall j: nat | j < 3
      ensures t[1 + j] == Digits(mask, 256, 4)[j]
    {
      DigitsAre(mask, 256, 4, j);
    }
    assert t[4..] == s[4..];
    SlotFilled(s, t, v);
    assert sm[..384] == t[..384];
  }

  lemma SlotFilled(s: seq<int>, t: seq<int>, v: seq<Pack>)
    requires |s| == |t| == 512 && |v| == LANES && Filled(s, v, BLOCK_PACKS)
    requires t[4..] == s[4..] && t[0] == TopExp(v)
    requires forall j :: 0 <= j < 3 ==> t[1 + j] == Digits(Mask(v), 256, 4)[j]
    ensures t[..384] == SlotBytes(v)
  {
    StreamSize(v);
    SlotLayout(v);
    assert Wides(v)[..BLOCK_PACKS] == Wides(v);
    forall i: nat | i < 384
      ensures t[i] == SlotBytes(v)[i]
    {
      SlotByte(s, t, v, i);
    }
  }

  lemma SlotByte(s: seq<int>, t: seq<int>, v: seq<Pack>, i: nat)
    requires |s| == |t| == 512 && |v| == LANES && Filled(s, v, BLOCK_PACKS) && i < 384
    requires t[4..] == s[4..] && t[0] == TopExp(v)
    requires forall j :: 0 <= j < 3 ==> t[1 + j] == Digits(Mask(v), 256, 4)[j]
    ensures t[i] == SlotBytes(v)[i]
  {
    StreamSize(v);
    SlotLayout(v);
    StreamLength(v, BLOCK_PACKS);
    if 4 <= i {
      assert t[i] == t[4..][i - 4] == s[4..][i - 4] == s[i];
    } else if 1 <= i {
      assert t[1 + (i - 1)] == Digits(Mask(v), 256, 4)[i - 1];
    }
    if i == 4 {
      assert SlotBytes(v)[1 + 3] == Digits(Mask(v), 256, 4)[3];
    } else if StreamIndex(i) >= 0 {
      assert StreamPos(StreamIndex(i)) == i;
    } else if 8 <= i < 256 {
      assert s[8 + (i - 8)] == Values(v)[i - 8];
    }
  }

  function QuadIn(b: seq<int>, j: nat): Quad
    requires |b| == 384 && AllBelow(b, 256) && j < POLL_QUADS
  {
    b[16 * j..16 * j + 16]
  }

  // Each storing lane's quad, and whether some word of them is the sentinel.
  method ReadQuads(nq: int, sm: array<int>, ghost b: seq<int>) returns (ws: seq<Stored>, bad: bool)
    requires sm.Length == 512 && 0 <= nq <= POLL_QUADS
    requires |b| == 384 && AllBelow(b, 256) && sm[..384] == b
    ensures |ws| == LANES
    ensures forall l :: 0 <= l < LANES ==>
      ws[l] == if l < nq then Stored(QuadIn(b, l), l, true) else Stored(ZeroQuad(), l, false)
    ensures bad <==> exists j: nat :: j < nq && Dirty(QuadIn(b, j))
  {
    bad := false;
    ws := [];
    for lane := 0 to LANES
      invariant |ws| == lane
      invariant bad <==> exists j: nat :: j < lane && j < nq && Dirty(QuadIn(b, j))
      invariant forall l :: 0 <= l < lane ==>
        ws[l] == if l < nq then Stored(QuadIn(b, l), l, true) else Stored(ZeroQuad(), l, false)
    {
      var q := ZeroQuad();
      if lane < nq {
        assert sm[16 * lane..16 * lane + 16] == sm[..384][16 * lane..16 * lane + 16] == QuadIn(b, lane);
        q := sm[16 * lane..16 * lane + 16];
        bad := bad || Dirty(q);
      }
      ws := ws + [Stored(q, lane, lane < nq)];
    }
  }

  method RawQuads(v: seq<Pack>) returns (ws: seq<Stored>)
    requires |v| == LANES
    ensures |ws| == LANES
    ensures forall l :: 0 <= l < LANES ==>
      ws[l] == if l == LANES - 1 then Stored(RawHeader(), 0, true) else Stored(PackQuad(v[l]), l + 1, true)
  {
    ws := [];
    for lane := 0 to LANES
      invariant |ws| == lane
      invariant forall l :: 0 <= l < lane ==>
        ws[l] == if l == LANES - 1 then Stored(RawHeader(), 0, true) else Stored(PackQuad(v[l]), l + 1, true)
    {
      ws := ws + [if lane == LANES - 1 then Stored(RawHeader(), 0, true)
                  else Stored(PackQuad(v[lane]), lane + 1, true)];
    }
  }

  lemma DirtyIsRaw(v: seq<Pack>, nq: int)
    requires |v| == LANES && 0 <= nq <= POLL_QUADS && nq == QuadCount(v)
    requires exists j: nat :: j < nq && Dirty(QuadIn(SlotBytes(v), j))
    ensures !Compressed(v)
  {
    var j: nat :| j < nq && Dirty(QuadIn(SlotBytes(v), j));
    assert Dirty(SlotQuad(v, j));
  }

  // encode2: every lane's share of the block's slot.
  method Encode2(v: seq<Pack>, sm: array<int>) returns (ws: seq<Stored>)
    requires |v| == LANES && sm.Length == 512
    modifies sm
    ensures ws == Wire(v)
  {
    var top := BlockTop(v);
    var regs, over, mask := Vote(v, top);
    if top != 255 && !over {
      FillScratch(v, top, mask, regs, sm);
      QuadCountIs(v);
      var nq := (FIXED_BYTES + Popc(mask, 32) + 15) / 16;
      var bad;
      ws, bad := ReadQuads(nq, sm, SlotBytes(v));
      if !bad {
        CodedBlock(v, ws);
        return;
      }
      DirtyIsRaw(v, nq);
    }
    ws := RawQuads(v);
  }

  lemma CodedBlock(v: seq<Pack>, ws: seq<Stored>)
    requires |v| == |ws| == LANES && Codable(v) && 22 <= QuadCount(v) <= POLL_QUADS
    requires forall l :: 0 <= l < LANES ==>
      ws[l] == if l < QuadCount(v) then Stored(QuadIn(SlotBytes(v), l), l, true) else Stored(ZeroQuad(), l, false)
    requires !exists j: nat :: j < QuadCount(v) && Dirty(QuadIn(SlotBytes(v), j))
    ensures ws == Wire(v)
  {
    forall j: nat | j < QuadCount(v)
      ensures !Dirty(SlotQuad(v, j))
    {
      assert SlotQuad(v, j) == QuadIn(SlotBytes(v), j);
    }
    assert Compressed(v);
  }

  lemma QuadCountIs(v: seq<Pack>)
    requires |v| == LANES
    ensures (FIXED_BYTES + Popc(Mask(v), 32) + 15) / 16 == QuadCount(v) && 22 <= QuadCount(v) <= POLL_QUADS
  {
    PopcOfBits(Wides(v), 32);
    StreamSize(v);
  }

  // --- Receiving ---------------------------------------------------------------------

  // What the sender stores at index j of the slot, and all it stores.
  function StoredQuad(v: seq<Pack>, j: nat): Quad
    requires |v| == LANES && j < StoredQuads(v)
  {
    StreamSize(v);
    if Compressed(v) then SlotQuad(v, j) else if j == 0 then RawHeader() else PackQuad(v[j - 1])
  }

  function Sent(v: seq<Pack>): (qs: seq<Quad>)
    requires |v| == LANES
    ensures |qs| == StoredQuads(v)
  {
    seq(StoredQuads(v), j requires 0 <= j < StoredQuads(v) => StoredQuad(v, j))
  }

  ghost predicate WordIs(q: Quad, w: nat, r: Quad)
    requires w < 4
  {
    q[4 * w..4 * w + 4] == r[4 * w..4 * w + 4]
  }

  function SentinelQuad(): Quad {
    seq(16, i => 255)
  }

  // A quad some of whose words have arrived.
  ghost predicate Partly(q: Quad, r: Quad) {
    forall w: nat :: w < 4 ==> WordIs(q, w, r) || WordIs(q, w, SentinelQuad())
  }

  // What a poll may see of a slot while its sender's quads arrive.
  ghost predicate Arriving(view: seq<Quad>, sent: seq<Quad>) {
    && |view| == LANES >= |sent|
    && (forall j: nat :: j < |sent| ==> Partly(view[j], sent[j]))
    && (forall j: nat :: |sent| <= j < LANES ==> view[j] == SentinelQuad())
  }

  ghost predicate Arrived(view: seq<Quad>, sent: seq<Quad>) {
    |sent| <= |view| && forall j: nat :: j < |sent| ==> view[j] == sent[j]
  }

  // Two polls in a row see all of it.
  ghost predicate InTwice(views: seq<seq<Quad>>, t: int, sent: seq<Quad>)
    requires 0 <= t < |views| - 1
  {
    Arrived(views[t], sent) && Arrived(views[t + 1], sent)
  }

  ghost predicate NotYet(views: seq<seq<Quad>>, t: int, sent: seq<Quad>)
    requires t <= |views|
  {
    forall u :: 0 <= u < t - 1 ==> !InTwice(views, u, sent)
  }

  // A poll that saw everything told how many quads there are.
  ghost predicate SeenKnown(views: seq<seq<Quad>>, t: nat, sent: seq<Quad>, known: bool)
    requires t <= |views|
  {
    0 < t && Arrived(views[t - 1], sent) ==> known
  }

  lemma NotYetNext(views: seq<seq<Quad>>, t: nat, sent: seq<Quad>, known: bool)
    requires t < |views| && NotYet(views, t, sent) && SeenKnown(views, t, sent, known)
    requires known ==> !Arrived(views[t], sent)
    ensures NotYet(views, t + 1, sent)
  {
  }

  // Every word the sender stores differs from the sentinel.
  ghost predicate CleanBlock(v: seq<Pack>) {
    |v| == LANES && forall k :: 0 <= k < BLOCK_PACKS ==> !Dirty(PackQuad(v[k]))
  }

  lemma SentClean(v: seq<Pack>, j: nat)
    requires CleanBlock(v) && j < |Sent(v)|
    ensures !Dirty(Sent(v)[j])
  {
    if !Compressed(v) && j > 0 {
      assert !Dirty(PackQuad(v[j - 1]));
    }
  }

  lemma SentinelShows(q: Quad, w: nat)
    requires w < 4
    ensures WordIs(q, w, SentinelQuad()) ==> Dirty(q)
  {
    if WordIs(q, w, SentinelQuad()) {
      assert q[4 * w..4 * w + 4][0] == 255 && q[4 * w..4 * w + 4][1] == 255;
      assert q[4 * w..4 * w + 4][2] == 255 && q[4 * w..4 * w + 4][3] == 255;
      assert SentinelAt(q, w);
    }
  }

  // A torn quad shows a sentinel word; a clean one is whole.
  lemma CleanIsWhole(q: Quad, r: Quad)
    requires Partly(q, r) && !Dirty(q)
    ensures q == r
  {
    forall w: nat | w < 4
      ensures WordIs(q, w, r)
    {
      SentinelShows(q, w);
    }
    assert WordIs(q, 0, r) && WordIs(q, 1, r) && WordIs(q, 2, r) && WordIs(q, 3, r);
    assert q == q[0..4] + q[4..8] + q[8..12] + q[12..16];
    assert r == r[0..4] + r[4..8] + r[8..12] + r[12..16];
  }

  lemma Accepted(view: seq<Quad>, sent: seq<Quad>, j: nat)
    requires Arriving(view, sent) && j < LANES && !Dirty(view[j])
    ensures j < |sent| && view[j] == sent[j]
  {
    if j < |sent| {
      CleanIsWhole(view[j], sent[j]);
    }
  }

  lemma HeldWhenAllIn(got: seq<Quad>, v: seq<Pack>)
    requires |v| == |got| == LANES && forall j: nat :: j < |Sent(v)| ==> got[j] == Sent(v)[j]
    ensures Holds(got, v)
  {
    forall l: nat | l < LANES && Wire(v)[l].store
      ensures 0 <= Wire(v)[l].at < LANES && got[Wire(v)[l].at] == Wire(v)[l].quad
    {
      LaneSends(v, l);
    }
  }

  // A lane that stores a quad stores the one sent at its index.
  lemma LaneSends(v: seq<Pack>, l: nat)
    requires |v| == LANES && l < LANES && Wire(v)[l].store
    ensures 0 <= Wire(v)[l].at < |Sent(v)| && Wire(v)[l].quad == Sent(v)[Wire(v)[l].at]
  {
    StreamSize(v);
  }

  function QuadOr(qs: seq<Quad>, j: nat): Quad {
    if j < |qs| then qs[j] else ZeroQuad()
  }

  // The header a clean quad 0 carries gives the slot's count.
  lemma HeaderCount(v: seq<Pack>)
    requires |v| == LANES
    ensures |Sent(v)| > 0
    ensures QuadsOf(HeaderWord(Sent(v)[0], 0), HeaderWord(Sent(v)[0], 1)) == |Sent(v)|
  {
    var sent := Sent(v);
    var got: seq<Quad> := seq(LANES, j requires 0 <= j < LANES => QuadOr(sent, j));
    HeldWhenAllIn(got, v);
    CountFromHeader(got, v);
  }

  // The warp's state while it polls one source.
  datatype Poll = Poll(need: seq<bool>, got: seq<Quad>, known: bool)

  ghost predicate PollOk(s: Poll, sent: seq<Quad>) {
    && |s.need| == |s.got| == LANES >= |sent|
    && (s.known ==> !s.need[0])
    && (forall l: nat :: |sent| <= l < LANES ==> s.got[l] == ZeroQuad() && (s.known ==> !s.need[l]))
    && (forall l: nat :: l < |sent| ==>
          if s.need[l] || (!s.known && l >= POLL_QUADS) then s.got[l] == ZeroQuad()
          else s.got[l] == sent[l])
    && (!s.known ==> forall l: nat :: POLL_QUADS <= l < LANES ==> !s.need[l])
  }

  // Every lane that still needs its quad looks once.
  method PollLanes(s: Poll, view: seq<Quad>, ghost sent: seq<Quad>) returns (t: Poll)
    requires PollOk(s, sent) && Arriving(view, sent)
    ensures PollOk(t, sent) && t.known == s.known
    ensures forall l: nat :: l < LANES && t.need[l] ==> s.need[l] && Dirty(view[l])
  {
    t := s;
    for lane := 0 to LANES
      invariant PollOk(t, sent) && t.known == s.known
      invariant forall l: nat :: lane <= l < LANES ==> t.need[l] == s.need[l]
      invariant forall l: nat :: l < lane && t.need[l] ==> s.need[l] && Dirty(view[l])
    {
      if t.need[lane] && !Dirty(view[lane]) {
        Accepted(view, sent, lane);
        t := t.(got := t.got[lane := view[lane]], need := t.need[lane := false]);
      }
    }
  }

  // Once quad 0 is in, the header says which quads the slot has.
  method ReadHeader(s: Poll, ghost v: seq<Pack>) returns (t: Poll)
    requires |v| == LANES && PollOk(s, Sent(v)) && !s.known && !s.need[0]
    ensures PollOk(t, Sent(v)) && t.known
    ensures forall l: nat :: l < POLL_QUADS && t.need[l] ==> s.need[l]
    ensures forall l: nat :: l < LANES && t.need[l] ==> l < |Sent(v)|
  {
    HeaderCount(v);
    ghost var sent := Sent(v);
    assert s.got[0] == sent[0];
    var nq := QuadsOf(HeaderWord(s.got[0], 0), HeaderWord(s.got[0], 1));
    var need := seq(LANES, l requires 0 <= l < LANES =>
                      if l >= nq then false else if l >= POLL_QUADS then true else s.need[l]);
    t := Poll(need, s.got, true);
  }

  // The loop's exit: no lane waits for a quad any more.
  predicate Complete(s: Poll) {
    s.known && |s.need| == LANES && forall l :: 0 <= l < LANES ==> !s.need[l]
  }

  lemma CompleteHas(s: Poll, sent: seq<Quad>)
    requires PollOk(s, sent) && Complete(s)
    ensures forall j: nat :: j < |sent| ==> s.got[j] == sent[j]
  {
  }

  // One round of the polling loop.
  method PollRound(s: Poll, view: seq<Quad>, ghost v: seq<Pack>) returns (t: Poll)
    requires CleanBlock(v) && PollOk(s, Sent(v)) && Arriving(view, Sent(v))
    ensures PollOk(t, Sent(v))
    ensures Arrived(view, Sent(v)) ==>
              t.known && (s.known ==> Complete(t))
  {
    t := PollLanes(s, view, Sent(v));
    if Arrived(view, Sent(v)) {
      FullPoll(s, t, view, v);
    }
    if !t.known && !t.need[0] {
      t := ReadHeader(t, v);
    }
  }

  // What the loop knows of a source after t rounds: all its quads, or that no two polls in a
  // row have seen them all.
  ghost predicate SourceOk(views: seq<seq<Quad>>, t: nat, v: seq<Pack>, s: Poll)
    requires t <= |views| && |v| == LANES
  {
    PollOk(s, Sent(v)) && (Complete(s) || (SeenKnown(views, t, Sent(v), s.known) && NotYet(views, t, Sent(v))))
  }

  function StartPoll(): Poll {
    Poll(seq(LANES, l => l < POLL_QUADS), seq(LANES, l => ZeroQuad()), false)
  }

  lemma SourceStarts(views: seq<seq<Quad>>, v: seq<Pack>)
    requires CleanBlock(v)
    ensures SourceOk(views, 0, v, StartPoll())
  {
  }

  // Source p of a call: what its successive polls see, the block it sends, and its poll after t rounds.
  ghost predicate Arrives(views: seq<seq<Quad>>, v: seq<Pack>) {
    |v| == LANES && CleanBlock(v) && forall t: nat | t < |views| :: Arriving(views[t], Sent(v))
  }

  ghost predicate SourceAt(views: seq<seq<Quad>>, t: nat, v: seq<Pack>, s: Poll) {
    t <= |views| && |v| == LANES && SourceOk(views, t, v, s)
  }

  method PollSource(s: Poll, views: seq<seq<Quad>>, t: nat, ghost v: seq<Pack>) returns (u: Poll)
    requires t < |views| && Arrives(views, v) == true && SourceAt(views, t, v, s) == true
    ensures SourceAt(views, t + 1, v, u)
  {
    if Complete(s) {
      return s;
    }
    u := PollRound(s, views[t], v);
    if !Complete(u) {
      NotYetNext(views, t, Sent(v), s.known);
    }
  }

  ghost predicate SourcesOk(views: seq<seq<seq<Quad>>>, t: nat, vs: seq<seq<Pack>>, polls: seq<Poll>)
    requires |views| == |vs|
  {
    |polls| == |vs| && forall p: nat | p < |vs| :: SourceAt(views[p], t, vs[p], polls[p]) == true
  }

  lemma SourcesAppend(views: seq<seq<seq<Quad>>>, t: nat, vs: seq<seq<Pack>>, polls: seq<Poll>, p: nat, u: Poll)
    requires p < |views| && p < |vs| && SourcesOk(views[..p], t, vs[..p], polls) && SourceAt(views[p], t, vs[p], u) == true
    ensures SourcesOk(views[..p + 1], t, vs[..p + 1], polls + [u])
  {
  }

  lemma SourceOf(views: seq<seq<seq<Quad>>>, t: nat, vs: seq<seq<Pack>>, polls: seq<Poll>, p: nat)
    requires |views| == |vs| && SourcesOk(views, t, vs, polls) && p < |vs|
    ensures SourceAt(views[p], t, vs[p], polls[p])
  {
  }

  // One round over the sources.
  method PollAll(polls: seq<Poll>, views: seq<seq<seq<Quad>>>, t: nat, ghost vs: seq<seq<Pack>>) returns (next: seq<Poll>)
    requires |polls| == |views| == |vs| && SourcesOk(views, t, vs, polls) == true
    requires forall p: nat | p < |vs| :: t < |views[p]| && Arrives(views[p], vs[p]) == true
    ensures SourcesOk(views, t + 1, vs, next)
  {
    next := [];
    for p := 0 to |polls|
      invariant SourcesOk(views[..p], t + 1, vs[..p], next) == true
    {
      SourceOf(views, t, vs, polls, p);
      var u := PollSource(polls[p], views[p], t, vs[p]);
      SourcesAppend(views, t + 1, vs, next, p, u);
      next := next + [u];
    }
    assert views[..|polls|] == views && vs[..|polls|] == vs;
  }

  // recv_blocks2: views[p][t] is what round t sees of source p's slot. When the rounds run out
  // first (a wait that is never served) done is false.
  method RecvBlocks(views: seq<seq<seq<Quad>>>, rounds: nat, ghost vs: seq<seq<Pack>>) returns (done: bool, gots: seq<seq<Quad>>)
    requires |views| == |vs|
    requires forall p: nat | p < |vs| :: |views[p]| == rounds && Arrives(views[p], vs[p]) == true
    ensures done ==> |gots| == |vs| && forall p: nat | p < |vs| :: |vs[p]| == LANES && Holds(gots[p], vs[p])
    ensures !done && rounds > 0 ==> exists p: nat :: p < |vs| && |vs[p]| == LANES && NotYet(views[p], rounds, Sent(vs[p]))
  {
    var polls := seq(|views|, _ => StartPoll());
    forall p: nat | p < |vs|
      ensures SourceAt(views[p], 0, vs[p], StartPoll())
    {
      SourceStarts(views[p], vs[p]);
    }
    for t := 0 to rounds
      invariant SourcesOk(views, t, vs, polls) == true
      invariant t > 0 ==> exists p: nat :: p < |polls| && !Complete(polls[p])
    {
      polls := PollAll(polls, views, t, vs);
      if forall p: nat :: p < |polls| ==> Complete(polls[p]) {
        gots := GotOf(polls, views, t + 1, vs);
        return true, gots;
      }
    }
    if rounds > 0 {
      NotAllServed(views, rounds, vs, polls);
    }
    done, gots := false, [];
  }

  method GotOf(polls: seq<Poll>, ghost views: seq<seq<seq<Quad>>>, ghost t: nat, ghost vs: seq<seq<Pack>>) returns (gots: seq<seq<Quad>>)
    requires |views| == |vs| && SourcesOk(views, t, vs, polls) && forall p: nat | p < |polls| :: Complete(polls[p])
    ensures |gots| == |vs| && forall p: nat | p < |vs| :: |vs[p]| == LANES && Holds(gots[p], vs[p])
  {
    gots := seq(|polls|, p requires 0 <= p < |polls| => polls[p].got);
    forall p: nat | p < |vs|
      ensures |vs[p]| == LANES && Holds(gots[p], vs[p])
    {
      SourceHolds(views[p], t, vs[p], polls[p]);
    }
  }

  lemma NotAllServed(views: seq<seq<seq<Quad>>>, t: nat, vs: seq<seq<Pack>>, polls: seq<Poll>)
    requires |views| == |vs| && SourcesOk(views, t, vs, polls) && exists p: nat :: p < |polls| && !Complete(polls[p])
    ensures exists p: nat :: p < |vs| && |vs[p]| == LANES && t <= |views[p]| && NotYet(views[p], t, Sent(vs[p]))
  {
    var p: nat :| p < |polls| && !Complete(polls[p]);
    assert SourceAt(views[p], t, vs[p], polls[p]);
  }

  lemma SourceHolds(views: seq<seq<Quad>>, t: nat, v: seq<Pack>, s: Poll)
    requires SourceAt(views, t, v, s) && Complete(s)
    ensures |v| == LANES && Holds(s.got, v)
  {
    CompleteHas(s, Sent(v));
    HeldWhenAllIn(s.got, v);
  }

  // A poll of a complete slot serves every lane that was polling for it.
  lemma FullPoll(s: Poll, t: Poll, view: seq<Quad>, v: seq<Pack>)
    requires CleanBlock(v) && PollOk(s, Sent(v)) && PollOk(t, Sent(v)) && t.known == s.known
    requires Arriving(view, Sent(v)) && Arrived(view, Sent(v))
    requires forall l: nat :: l < LANES && t.need[l] ==> s.need[l] && Dirty(view[l])
    ensures |Sent(v)| > 0 && !t.need[0]
    ensures forall l: nat :: l < LANES && t.need[l] ==> |Sent(v)| <= l && !t.known
  {
    HeaderCount(v);
    forall l: nat | l < LANES && t.need[l]
      ensures |Sent(v)| <= l && !t.known
    {
      if l < |Sent(v)| {
        SentClean(v, l);
        assert false;
      }
    }
  }

  // A block travels whole: what a receiver decodes is what the sender encoded.
  lemma DeliveredBlock(got: seq<Quad>, v: seq<Pack>)
    requires |v| == LANES && Holds(got, v)
    ensures forall lane: nat :: lane < BLOCK_PACKS ==> Decode(got, lane) == v[lane]
  {
    forall lane: nat | lane < BLOCK_PACKS
      ensures Decode(got, lane) == v[lane]
    {
      BlockRoundTrip(got, v, lane);
    }
  }
}
