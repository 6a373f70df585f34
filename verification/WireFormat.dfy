// The lossless compressed wire format of the flags-in-data all-reduce: a block
// of 31 packs of eight bf16 values in a slot of 32 sixteen-byte quads.
// Words are little-endian bytes, so a pack and a quad are sixteen bytes and a
// 32-bit word is the sentinel exactly when its four bytes are 255.
module WireFormat {
  import opened Arith

  type Byte = x: int | 0 <= x < 256
  type Half = x: int | 0 <= x < 65536
  type Pack = h: seq<Half> | |h| == 8 witness [0, 0, 0, 0, 0, 0, 0, 0]
  type Quad = b: seq<Byte> | |b| == 16 witness [0, 0, 0, 0, 0, 0, 0, 0, 0, 0, 0, 0, 0, 0, 0, 0]

  const LANES := 32
  const BLOCK_PACKS := 31
  const FIXED_BYTES := 346
  const POLL_QUADS := 24

  // --- Digits ----------------------------------------------------------------------

  function Pow(b: int, n: nat): int {
    if n == 0 then 1 else b * Pow(b, n - 1)
  }

  // The number with the given base-b digits, lowest first.
  function FromDigits(b: int, ds: seq<int>): int {
    if ds == [] then 0 else ds[0] + b * FromDigits(b, ds[1..])
  }

  // v >> n * bits, for b = 2^bits.
  function Shr(v: int, b: int, n: nat): int
    requires 0 < b
    decreases n
  {
    if n == 0 then v else Shr(v / b, b, n - 1)
  }

  // Digit n of v: (v >> n * bits) & (b - 1).
  function Digit(v: int, b: int, n: nat): int
    requires 0 < b
  {
    Shr(v, b, n) % b
  }

  // v & ((1 << n) - 1).
  function LowBits(v: int, n: nat): int
    decreases n
  {
    if n == 0 then 0 else v % 2 + 2 * LowBits(v / 2, n - 1)
  }

  // The n lowest digits of v.
  function Digits(v: int, b: int, n: nat): (ds: seq<int>)
    requires 0 < b
    ensures |ds| == n && AllBelow(ds, b)
    decreases n
  {
    if n == 0 then []
    else
      ModBounds(v, b);
      [v % b] + Digits(v / b, b, n - 1)
  }

  lemma ModBounds(v: int, b: int)
    requires 0 < b
    ensures 0 <= v % b < b
  {
  }

  ghost predicate AllBelow(ds: seq<int>, b: int) {
    forall i :: 0 <= i < |ds| ==> 0 <= ds[i] < b
  }

  lemma {:induction false} FromDigitsBound(b: int, ds: seq<int>)
    requires 0 < b && AllBelow(ds, b)
    ensures 0 <= FromDigits(b, ds) < Pow(b, |ds|)
    decreases |ds|
  {
    if ds != [] {
      FromDigitsBound(b, ds[1..]);
      BelowNext(ds[0], b, FromDigits(b, ds[1..]), Pow(b, |ds| - 1));
    }
  }

  lemma BelowNext(d: int, b: int, x: int, p: int)
    requires 0 <= d < b && 0 <= x < p
    ensures 0 <= d + b * x < b * p
  {
    MulMono(0, x, b);
    MulMono(x + 1, p, b);
  }

  lemma {:induction false} SplitDigits(b: int, ds: seq<int>, n: nat)
    requires n <= |ds|
    ensures FromDigits(b, ds) == FromDigits(b, ds[..n]) + Pow(b, n) * FromDigits(b, ds[n..])
    decreases n
  {
    if n == 0 {
      assert ds[0..] == ds;
    } else {
      SplitDigits(b, ds[1..], n - 1);
      assert ds[1..][..n - 1] == ds[..n][1..] && ds[1..][n - 1..] == ds[n..];
      PushDigit(ds[0], b, FromDigits(b, ds[..n][1..]), Pow(b, n - 1), FromDigits(b, ds[n..]));
      assert ds[..n][0] == ds[0];
    }
  }

  lemma PushDigit(d: int, b: int, x: int, q: int, y: int)
    ensures d + b * (x + q * y) == (d + b * x) + (b * q) * y
  {
    assert b * (x + q * y) == b * x + b * (q * y);
    assert b * (q * y) == (b * q) * y;
  }

  // Shifting drops digits.
  lemma {:induction false} ShrDigits(b: int, ds: seq<int>, n: nat)
    requires 0 < b && AllBelow(ds, b) && n <= |ds|
    ensures Shr(FromDigits(b, ds), b, n) == FromDigits(b, ds[n..])
    decreases n
  {
    if n == 0 {
      assert ds[0..] == ds;
    } else {
      DivModUnique(FromDigits(b, ds), b, FromDigits(b, ds[1..]), ds[0]);
      ShrDigits(b, ds[1..], n - 1);
      assert ds[1..][n - 1..] == ds[n..];
    }
  }

  lemma DigitOfDigits(b: int, ds: seq<int>, n: nat)
    requires 0 < b && AllBelow(ds, b) && n < |ds|
    ensures Digit(FromDigits(b, ds), b, n) == ds[n]
  {
    ShrDigits(b, ds, n);
    DivModUnique(FromDigits(b, ds[n..]), b, FromDigits(b, ds[n..][1..]), ds[n]);
  }

  lemma {:induction false} LowBitsOf(ds: seq<int>, n: nat)
    requires AllBelow(ds, 2) && n <= |ds|
    ensures LowBits(FromDigits(2, ds), n) == FromDigits(2, ds[..n])
    decreases n
  {
    if n > 0 {
      DivModUnique(FromDigits(2, ds), 2, FromDigits(2, ds[1..]), ds[0]);
      LowBitsOf(ds[1..], n - 1);
      assert ds[1..][..n - 1] == ds[..n][1..] && ds[..n][0] == ds[0];
    }
  }

  lemma {:induction false} DigitsAre(v: int, b: int, n: nat, i: nat)
    requires 0 < b && i < n
    ensures Digits(v, b, n)[i] == Digit(v, b, i)
    decreases n
  {
    if i > 0 {
      DigitsAre(v / b, b, n - 1, i - 1);
    }
  }

  // A number below b^n is made of its n lowest digits.
  lemma {:induction false} DigitsRebuild(v: int, b: int, n: nat)
    requires 0 < b && 0 <= v < Pow(b, n)
    ensures FromDigits(b, Digits(v, b, n)) == v
    decreases n
  {
    if n > 0 {
      ShiftBounds(v, b, Pow(b, n - 1));
      DigitsRebuild(v / b, b, n - 1);
      assert Digits(v, b, n)[1..] == Digits(v / b, b, n - 1);
    }
  }

  lemma ShiftBounds(v: int, b: int, p: int)
    requires 0 < b && 0 <= v < b * p
    ensures 0 <= v / b < p && v == v % b + b * (v / b)
  {
    DivBounds(v, b);
    DivGalois(0, v, b);
    DivGalois(p, v, b);
  }

  // --- Bit counts -------------------------------------------------------------------

  // __popc of a word with n bits.
  function Popc(v: int, n: nat): nat
    decreases n
  {
    if n == 0 then 0 else v % 2 + Popc(v / 2, n - 1)
  }

  function Sum(ds: seq<int>): int {
    if ds == [] then 0 else ds[0] + Sum(ds[1..])
  }

  lemma {:induction false} PopcOfBits(ds: seq<int>, n: nat)
    requires AllBelow(ds, 2) && |ds| <= n
    ensures Popc(FromDigits(2, ds), n) == Sum(ds)
    decreases n
  {
    if ds == [] {
      PopcZero(n);
    } else {
      DivModUnique(FromDigits(2, ds), 2, FromDigits(2, ds[1..]), ds[0]);
      PopcOfBits(ds[1..], n - 1);
    }
  }

  lemma {:induction false} PopcZero(n: nat)
    ensures Popc(0, n) == 0
  {
    if n > 0 {
      PopcZero(n - 1);
    }
  }

  lemma {:induction false} SumSnoc(ds: seq<int>, d: int)
    ensures Sum(ds + [d]) == Sum(ds) + d
    decreases |ds|
  {
    if ds != [] {
      SumSnoc(ds[1..], d);
      assert (ds + [d])[1..] == ds[1..] + [d];
    } else {
      assert [] + [d] == [d] && [d][1..] == [];
    }
  }

  // popc(mask & ((1 << n) - 1)) counts the wide lanes below n.
  lemma PopcBelow(ds: seq<int>, n: nat)
    requires AllBelow(ds, 2) && n <= |ds| <= 32
    ensures Popc(LowBits(FromDigits(2, ds), n), 32) == Sum(ds[..n])
  {
    LowBitsOf(ds, n);
    PopcOfBits(ds[..n], 32);
  }

  // --- The format --------------------------------------------------------------------

  function Exp(h: Half): (e: int)
    ensures 0 <= e < 256
  {
    (h / 128) % 256
  }

  // The sign and the seven mantissa bits.
  function SignMantissa(h: Half): Byte {
    128 * (h / 32768) + h % 128
  }

  function Join(byte: int, e: int): int {
    (byte / 128) * 32768 + e * 128 + byte % 128
  }

  lemma JoinParts(h: Half)
    ensures Join(SignMantissa(h), Exp(h)) == h
  {
    HalfParts(h, h / 32768, (h / 128) % 256, h % 128);
    JoinedByte(h / 32768, h % 128);
  }

  lemma HalfParts(h: int, sign: int, e: int, m: int)
    requires 0 <= h < 65536 && sign == h / 32768 && e == (h / 128) % 256 && m == h % 128
    ensures h == 32768 * sign + 128 * e + m
  {
    assert h / 128 / 256 == h / 32768;
  }

  lemma JoinedByte(sign: int, m: int)
    requires 0 <= sign < 2 && 0 <= m < 128
    ensures (128 * sign + m) / 128 == sign && (128 * sign + m) % 128 == m
  {
  }

  function MaxOf(xs: seq<int>): int {
    if xs == [] then 0
    else var m := MaxOf(xs[1..]); if xs[0] > m then xs[0] else m
  }

  lemma {:induction false} MaxOfAll(xs: seq<int>, i: nat)
    requires i < |xs|
    ensures xs[i] <= MaxOf(xs)
    decreases |xs|
  {
    if i > 0 {
      MaxOfAll(xs[1..], i - 1);
    }
  }

  lemma {:induction false} MaxOfBelow(xs: seq<int>, b: int)
    requires 0 < b && AllBelow(xs, b)
    ensures 0 <= MaxOf(xs) < b
    decreases |xs|
  {
    if xs != [] {
      MaxOfBelow(xs[1..], b);
    }
  }

  function Exps(p: Pack): seq<int> {
    seq(8, i requires 0 <= i < 8 => Exp(p[i]))
  }

  // The largest exponent field of the block.
  function TopExp(v: seq<Pack>): int {
    MaxOf(seq(|v|, l requires 0 <= l < |v| => MaxOf(Exps(v[l]))))
  }

  lemma TopExpBounds(v: seq<Pack>, l: nat, i: nat)
    requires l < |v| && i < 8
    ensures Exp(v[l][i]) <= TopExp(v) < 256
  {
    var tops := seq(|v|, k requires 0 <= k < |v| => MaxOf(Exps(v[k])));
    forall k | 0 <= k < |v|
      ensures 0 <= tops[k] < 256
    {
      MaxOfBelow(Exps(v[k]), 256);
    }
    MaxOfBelow(tops, 256);
    MaxOfAll(tops, l);
    MaxOfAll(Exps(v[l]), i);
  }

  function Code(e: int, top: int): int {
    if e == 0 then 0 else top + 1 - e
  }

  function Codes(p: Pack, top: int): (cs: seq<int>)
    ensures |cs| == 8
  {
    seq(8, i requires 0 <= i < 8 => Code(Exp(p[i]), top))
  }

  // A lane codes in four bits when a value has exponent field 0 or lies more
  // than seven octaves below the top.
  predicate Wide(p: Pack, top: int) {
    exists i :: 0 <= i < 8 && !(1 <= Codes(p, top)[i] <= 8)
  }

  function NarrowCodes(p: Pack, top: int): (cs: seq<int>)
    ensures |cs| == 8
  {
    seq(8, i requires 0 <= i < 8 => Codes(p, top)[i] - 1)
  }

  function CodeWord(p: Pack, top: int): int {
    if Wide(p, top) then FromDigits(16, Codes(p, top)) else FromDigits(8, NarrowCodes(p, top))
  }

  function CodeBytes(p: Pack, top: int): seq<int> {
    Digits(CodeWord(p, top), 256, if Wide(p, top) then 4 else 3)
  }

  // Every value's exponent can be coded.
  predicate Codable(v: seq<Pack>) {
    TopExp(v) != 255
    && forall l :: 0 <= l < |v| ==> AllBelow16(Codes(v[l], TopExp(v)))
  }

  predicate AllBelow16(cs: seq<int>) {
    forall i :: 0 <= i < |cs| ==> cs[i] <= 15
  }

  function Wides(v: seq<Pack>): (ws: seq<int>)
    requires |v| == LANES
    ensures |ws| == BLOCK_PACKS && AllBelow(ws, 2)
  {
    seq(BLOCK_PACKS, l requires 0 <= l < BLOCK_PACKS => if Wide(v[l], TopExp(v)) then 1 else 0)
  }

  function Mask(v: seq<Pack>): int
    requires |v| == LANES
  {
    FromDigits(2, Wides(v))
  }

  // The code fields of lanes below n, in lane order.
  function Stream(v: seq<Pack>, n: nat): seq<int>
    requires |v| == LANES && n <= BLOCK_PACKS
  {
    if n == 0 then [] else Stream(v, n - 1) + CodeBytes(v[n - 1], TopExp(v))
  }

  // Where lane n's field starts.
  function Start(v: seq<Pack>, n: nat): int
    requires |v| == LANES && n <= BLOCK_PACKS
  {
    3 * n + Sum(Wides(v)[..n])
  }

  function Values(v: seq<Pack>): (bs: seq<int>)
    requires |v| == LANES
    ensures |bs| == 248 && AllBelow(bs, 256)
  {
    seq(248, i requires 0 <= i < 248 => SignMantissa(v[i / 8][i % 8]))
  }

  function QuadCount(v: seq<Pack>): int
    requires |v| == LANES
  {
    (FIXED_BYTES + Sum(Wides(v)) + 15) / 16
  }

  lemma {:induction false} SumBounds(ds: seq<int>)
    requires AllBelow(ds, 2)
    ensures 0 <= Sum(ds) <= |ds|
    decreases |ds|
  {
    if ds != [] {
      SumBounds(ds[1..]);
    }
  }

  lemma StartNext(v: seq<Pack>, n: nat)
    requires |v| == LANES && n < BLOCK_PACKS
    ensures Start(v, n + 1) == Start(v, n) + |CodeBytes(v[n], TopExp(v))|
    ensures 0 <= Start(v, n)
  {
    var ws := Wides(v);
    assert ws[..n + 1] == ws[..n] + [ws[n]];
    SumSnoc(ws[..n], ws[n]);
    SumBounds(ws[..n]);
  }

  lemma {:induction false} StreamLength(v: seq<Pack>, n: nat)
    requires |v| == LANES && n <= BLOCK_PACKS
    ensures |Stream(v, n)| == Start(v, n) && AllBelow(Stream(v, n), 256)
  {
    if n > 0 {
      StreamLength(v, n - 1);
      StartNext(v, n - 1);
    } else {
      assert Wides(v)[..0] == [];
    }
  }

  // Field f lies at index `at` of s.
  ghost predicate FieldAt(s: seq<int>, at: int, f: seq<int>) {
    0 <= at && at + |f| <= |s| && forall j :: 0 <= j < |f| ==> s[at + j] == f[j]
  }

  // The fields are contiguous: lane l's bytes follow those of the lanes below.
  lemma {:induction false} StreamField(v: seq<Pack>, n: nat, l: nat)
    requires |v| == LANES && l < n <= BLOCK_PACKS
    ensures FieldAt(Stream(v, n), Start(v, l), CodeBytes(v[l], TopExp(v)))
    decreases n
  {
    StreamLength(v, n - 1);
    StartNext(v, l);
    assert Stream(v, n) == Stream(v, n - 1) + CodeBytes(v[n - 1], TopExp(v));
    if l < n - 1 {
      StreamField(v, n - 1, l);
      FieldFront(Stream(v, n - 1), CodeBytes(v[n - 1], TopExp(v)), Start(v, l), CodeBytes(v[l], TopExp(v)));
    } else {
      FieldBack(Stream(v, n - 1), CodeBytes(v[l], TopExp(v)));
    }
  }

  lemma FieldFront(a: seq<int>, b: seq<int>, at: int, f: seq<int>)
    requires FieldAt(a, at, f)
    ensures FieldAt(a + b, at, f)
  {
  }

  lemma FieldBack(a: seq<int>, f: seq<int>)
    ensures FieldAt(a + f, |a|, f)
  {
  }

  lemma StreamSize(v: seq<Pack>)
    requires |v| == LANES
    ensures |Stream(v, BLOCK_PACKS)| == 93 + Sum(Wides(v)) <= 124
    ensures 0 <= Sum(Wides(v)) && AllBelow(Stream(v, BLOCK_PACKS), 256)
    ensures 22 <= QuadCount(v) <= POLL_QUADS
  {
    StreamLength(v, BLOCK_PACKS);
    assert Wides(v)[..BLOCK_PACKS] == Wides(v);
    SumBounds(Wides(v));
  }

  // The scratch the warp fills: header, first stream bytes, value bytes, the
  // rest of the stream, zeros up to 24 quads.
  function SlotBytes(v: seq<Pack>): (bs: seq<int>)
    requires |v| == LANES
    ensures |bs| == 384 && AllBelow(bs, 256)
  {
    SlotParts(v);
    var s := Stream(v, BLOCK_PACKS);
    [TopExp(v)] + Digits(Mask(v), 256, 4) + s[..3] + Values(v) + s[3..] + Zeros(131 - |s|)
  }

  function Zeros(n: nat): (zs: seq<int>)
    ensures |zs| == n && AllBelow(zs, 256)
  {
    seq(n, i => 0)
  }

  lemma SlotParts(v: seq<Pack>)
    requires |v| == LANES
    ensures var s := Stream(v, BLOCK_PACKS);
      && 93 <= |s| <= 124
      && |[TopExp(v)] + Digits(Mask(v), 256, 4) + s[..3] + Values(v) + s[3..] + Zeros(131 - |s|)| == 384
      && AllBelow([TopExp(v)] + Digits(Mask(v), 256, 4) + s[..3] + Values(v) + s[3..] + Zeros(131 - |s|), 256)
  {
    StreamSize(v);
    TopExpBounds(v, 0, 0);
    var s := Stream(v, BLOCK_PACKS);
    BelowConcat([TopExp(v)], Digits(Mask(v), 256, 4), 256);
    BelowConcat([TopExp(v)] + Digits(Mask(v), 256, 4), s[..3], 256);
    BelowConcat([TopExp(v)] + Digits(Mask(v), 256, 4) + s[..3], Values(v), 256);
    BelowConcat([TopExp(v)] + Digits(Mask(v), 256, 4) + s[..3] + Values(v), s[3..], 256);
    BelowConcat([TopExp(v)] + Digits(Mask(v), 256, 4) + s[..3] + Values(v) + s[3..], Zeros(131 - |s|), 256);
  }

  lemma BelowConcat(a: seq<int>, b: seq<int>, base: int)
    requires AllBelow(a, base) && AllBelow(b, base)
    ensures AllBelow(a + b, base)
  {
  }

  function StreamPos(k: int): int {
    if k < 3 then 5 + k else 253 + k
  }

  lemma SlotLayout(v: seq<Pack>)
    requires |v| == LANES
    ensures SlotBytes(v)[0] == TopExp(v)
    ensures forall j :: 0 <= j < 4 ==> SlotBytes(v)[1 + j] == Digits(Mask(v), 256, 4)[j]
    ensures forall i :: 0 <= i < 248 ==> SlotBytes(v)[8 + i] == Values(v)[i]
    ensures var s := Stream(v, BLOCK_PACKS);
            |s| <= 124
            && (forall k :: 0 <= k < |s| ==> SlotBytes(v)[StreamPos(k)] == s[k])
            && (forall i :: 253 + |s| <= i < 384 ==> SlotBytes(v)[i] == 0)
  {
    StreamSize(v);
    LayoutParts(SlotBytes(v), TopExp(v), Digits(Mask(v), 256, 4), Values(v), Stream(v, BLOCK_PACKS));
  }

  lemma LayoutParts(b: seq<int>, top: int, mask: seq<int>, values: seq<int>, s: seq<int>)
    requires |mask| == 4 && |values| == 248 && 93 <= |s| <= 124
    requires b == [top] + mask + s[..3] + values + s[3..] + Zeros(131 - |s|)
    ensures |b| == 384 && b[0] == top
    ensures forall j :: 0 <= j < 4 ==> b[1 + j] == mask[j]
    ensures forall i :: 0 <= i < 248 ==> b[8 + i] == values[i]
    ensures forall k :: 0 <= k < |s| ==> b[StreamPos(k)] == s[k]
    ensures forall i :: 253 + |s| <= i < 384 ==> b[i] == 0
  {
  }

  // --- What goes on the wire -----------------------------------------------------------

  // A lane's quad, its index in the slot and whether the lane stores it.
  datatype Stored = Stored(quad: Quad, at: int, store: bool)

  predicate SentinelAt(q: Quad, w: int)
    requires 0 <= w < 4
  {
    q[4 * w] == 255 && q[4 * w + 1] == 255 && q[4 * w + 2] == 255 && q[4 * w + 3] == 255
  }

  // A pack whose sentinel test fails.
  predicate Dirty(q: Quad) {
    SentinelAt(q, 0) || SentinelAt(q, 1) || SentinelAt(q, 2) || SentinelAt(q, 3)
  }

  function PackQuad(p: Pack): Quad {
    seq(16, i requires 0 <= i < 16 => if i % 2 == 0 then p[i / 2] % 256 else p[i / 2] / 256)
  }

  function QuadPack(q: Quad): Pack {
    seq(8, i requires 0 <= i < 8 => HalfOf(q[2 * i], q[2 * i + 1]))
  }

  function HalfOf(lo: int, hi: int): int {
    lo + 256 * hi
  }

  lemma PackRoundTrip(p: Pack)
    ensures QuadPack(PackQuad(p)) == p
  {
  }

  function ZeroQuad(): Quad {
    seq(16, i => 0)
  }

  // Quad 0 of a raw slot: word 1 is 0x80.
  function RawHeader(): Quad {
    seq(16, i => if i == 4 then 128 else 0)
  }

  function SlotQuad(v: seq<Pack>, j: nat): Quad
    requires |v| == LANES && j < POLL_QUADS
  {
    SlotBytes(v)[16 * j..16 * j + 16]
  }

  predicate Compressed(v: seq<Pack>)
    requires |v| == LANES
  {
    StreamSize(v);
    Codable(v) && forall j: nat :: j < QuadCount(v) ==> !Dirty(SlotQuad(v, j))
  }

  // Every lane's share of a block's slot.
  function Wire(v: seq<Pack>): (ws: seq<Stored>)
    requires |v| == LANES
    ensures |ws| == LANES
  {
    StreamSize(v);
    if Compressed(v) then
      seq(LANES, l requires 0 <= l < LANES =>
        if l < QuadCount(v) then Stored(SlotQuad(v, l), l, true) else Stored(ZeroQuad(), l, false))
    else
      seq(LANES, l requires 0 <= l < LANES =>
        if l == LANES - 1 then Stored(RawHeader(), 0, true) else Stored(PackQuad(v[l]), l + 1, true))
  }

  // The quads a slot holds once everything stored has arrived.
  ghost predicate Holds(got: seq<Quad>, v: seq<Pack>)
    requires |v| == LANES
  {
    |got| == LANES
    && forall l :: 0 <= l < LANES && Wire(v)[l].store ==>
         0 <= Wire(v)[l].at < LANES && got[Wire(v)[l].at] == Wire(v)[l].quad
  }

  // --- Decoding ----------------------------------------------------------------------

  // The decoder's scratch: quad j at bytes 16j..16j+15.
  type Scratch = sm: seq<Byte> | |sm| == 512 witness seq(512, i => 0)

  function ScratchOf(got: seq<Quad>): Scratch
    requires |got| == LANES
  {
    seq(512, i requires 0 <= i < 512 => got[i / 16][i % 16])
  }

  function WordAt(sm: Scratch, w: int): int
    requires 0 <= w < 128
  {
    FromDigits(256, [sm[4 * w], sm[4 * w + 1], sm[4 * w + 2], sm[4 * w + 3]])
  }

  predicate RawWord(w1: int) {
    (w1 / 128) % 2 == 1
  }

  function MaskOf(w0: int, w1: int): int {
    w0 / 256 + (w1 % 128) * 16777216
  }

  // The quad count a receiver derives from words 0 and 1.
  function QuadsOf(w0: int, w1: int): int {
    if RawWord(w1) then LANES else (FIXED_BYTES + Popc(MaskOf(w0, w1), 32) + 15) / 16
  }

  lemma {:induction false} PopcBounds(v: int, n: nat)
    ensures Popc(v, n) <= n
    decreases n
  {
    if n > 0 {
      PopcBounds(v / 2, n - 1);
    }
  }

  // __funnelshift_r(lo, hi, 8 * s).
  function Funnel(lo: int, hi: int, s: nat): int
    requires s < 4
  {
    Shr(lo + 4294967296 * hi, 256, s) % 4294967296
  }

  // Where the code of a lane after the first begins.
  function CodeStart(sm: Scratch, lane: nat): (o: nat)
    requires 0 < lane < BLOCK_PACKS
    ensures o <= 504
  {
    var below := Popc(LowBits(MaskOf(WordAt(sm, 0), WordAt(sm, 1)), lane), 32);
    PopcBounds(LowBits(MaskOf(WordAt(sm, 0), WordAt(sm, 1)), lane), 32);
    253 + 3 * lane + below
  }

  function LaneCode(sm: Scratch, lane: nat): int
    requires lane < BLOCK_PACKS
  {
    if lane == 0 then WordAt(sm, 1) / 256 + (sm[256] as int) * 16777216
    else
      var o := CodeStart(sm, lane);
      Funnel(WordAt(sm, o / 4), WordAt(sm, o / 4 + 1), o % 4)
  }

  function DecodeHalf(sm: Scratch, lane: nat, i: nat): int
    requires lane < BLOCK_PACKS && i < 8
  {
    var w0, w1 := WordAt(sm, 0), WordAt(sm, 1);
    DecodeValue(w0 % 256, Digit(MaskOf(w0, w1), 2, lane) == 1, sm[8 + 8 * lane + i],
                LaneCode(sm, lane), i)
  }

  function DecodeValue(top: int, wide: bool, byte: int, code: int, i: nat): int {
    var e := if wide then
               var c := Digit(code, 16, i);
               if c == 0 then 0 else top + 1 - c
             else top - Digit(code, 8, i);
    Join(byte, e)
  }

  function DecodeRaw(got: seq<Quad>, lane: nat): Pack
    requires |got| == LANES && lane < LANES
  {
    QuadPack(got[(lane + 1) % LANES])
  }

  // --- Nothing is lost -----------------------------------------------------------------

  // The bytes of v's slot the decoder looks at.
  ghost predicate LaidOut(sm: Scratch, v: seq<Pack>)
    requires |v| == LANES
  {
    && |Stream(v, BLOCK_PACKS)| <= 124
    && sm[0] == TopExp(v)
    && (forall j :: 0 <= j < 4 ==> sm[1 + j] == Digits(Mask(v), 256, 4)[j])
    && (forall i :: 0 <= i < 248 ==> sm[8 + i] == Values(v)[i])
    && (forall k :: 0 <= k < |Stream(v, BLOCK_PACKS)| ==> sm[StreamPos(k)] == Stream(v, BLOCK_PACKS)[k])
  }

  // Once a compressed slot's quads are in, the scratch holds the sender's bytes.
  lemma ScratchLaidOut(got: seq<Quad>, v: seq<Pack>)
    requires |v| == LANES && Compressed(v) && Holds(got, v)
    ensures LaidOut(ScratchOf(got), v)
  {
    StreamSize(v);
    SlotLayout(v);
    forall i: nat | i < 16 * QuadCount(v)
      ensures ScratchOf(got)[i] == SlotBytes(v)[i]
    {
      HeldByte(got, v, i);
    }
  }

  lemma HeldByte(got: seq<Quad>, v: seq<Pack>, i: nat)
    requires |v| == LANES && Compressed(v) && Holds(got, v) && i < 16 * QuadCount(v)
    ensures i < 384 && ScratchOf(got)[i] == SlotBytes(v)[i]
  {
    StreamSize(v);
    HeldQuad(got, v, i / 16);
    QuadByte(ScratchOf(got), SlotBytes(v), i);
  }

  lemma HeldQuad(got: seq<Quad>, v: seq<Pack>, j: nat)
    requires |v| == LANES && Compressed(v) && Holds(got, v) && j < QuadCount(v) <= POLL_QUADS
    ensures ScratchOf(got)[16 * j..16 * j + 16] == SlotBytes(v)[16 * j..16 * j + 16]
  {
    assert Wire(v)[j] == Stored(SlotQuad(v, j), j, true);
    ScratchQuad(got, j);
  }

  lemma ScratchQuad(got: seq<Quad>, j: nat)
    requires |got| == LANES && j < LANES
    ensures ScratchOf(got)[16 * j..16 * j + 16] == got[j]
  {
    forall k | 0 <= k < 16
      ensures ScratchOf(got)[16 * j + k] == got[j][k]
    {
      assert (16 * j + k) / 16 == j && (16 * j + k) % 16 == k;
    }
  }

  lemma QuadByte(a: seq<int>, b: seq<int>, i: nat)
    requires i < |a| && i < |b| && 16 * (i / 16) + 16 <= |a| && 16 * (i / 16) + 16 <= |b|
    requires a[16 * (i / 16)..16 * (i / 16) + 16] == b[16 * (i / 16)..16 * (i / 16) + 16]
    ensures a[i] == b[i]
  {
    assert a[i] == a[16 * (i / 16)..16 * (i / 16) + 16][i % 16] && b[i] == b[16 * (i / 16)..16 * (i / 16) + 16][i % 16];
  }

  lemma MaskBounds(v: seq<Pack>)
    requires |v| == LANES
    ensures 0 <= Mask(v) < 2147483648
  {
    FromDigitsBound(2, Wides(v));
    assert Pow(2, 31) == 2147483648 by {
      assert Pow(2, 4) == 16 && Pow(2, 8) == 256 && Pow(2, 12) == 4096 && Pow(2, 16) == 65536;
      assert Pow(2, 20) == 1048576 && Pow(2, 24) == 16777216 && Pow(2, 28) == 268435456;
    }
  }

  // The receiver reads back the top exponent, the mask and the quad count.
  lemma HeaderRoundTrip(sm: Scratch, v: seq<Pack>)
    requires |v| == LANES && LaidOut(sm, v)
    ensures var w0, w1 := WordAt(sm, 0), WordAt(sm, 1);
            w0 % 256 == TopExp(v) && MaskOf(w0, w1) == Mask(v) && !RawWord(w1)
            && QuadsOf(w0, w1) == QuadCount(v)
  {
    StreamSize(v);
    MaskBounds(v);
    TopExpBounds(v, 0, 0);
    var m, s := Digits(Mask(v), 256, 4), Stream(v, BLOCK_PACKS);
    assert StreamPos(0) == 5 && StreamPos(1) == 6 && StreamPos(2) == 7;
    var d0, d1 := [TopExp(v), m[0], m[1], m[2]], [m[3], s[0], s[1], s[2]];
    assert WordAt(sm, 0) == FromDigits(256, d0) && WordAt(sm, 1) == FromDigits(256, d1);
    HeaderWords(TopExp(v), Mask(v), m, d0, d1);
    PopcOfBits(Wides(v), 32);
  }

  lemma HeaderWords(top: int, mask: int, m: seq<int>, d0: seq<int>, d1: seq<int>)
    requires 0 <= top < 256 && 0 <= mask < 2147483648 && m == Digits(mask, 256, 4)
    requires |d0| == 4 && d0[0] == top && d0[1..] == m[..3]
    requires |d1| == 4 && d1[0] == m[3] && AllBelow(d1, 256)
    ensures FromDigits(256, d0) % 256 == top
    ensures MaskOf(FromDigits(256, d0), FromDigits(256, d1)) == mask
    ensures !RawWord(FromDigits(256, d1))
  {
    MaskBytes(mask, m);
    var lo, x := FromDigits(256, m[..3]), FromDigits(256, d1[1..]);
    HeaderArithmetic(top, lo, m[3], x, FromDigits(256, d0), FromDigits(256, d1));
  }

  lemma MaskBytes(mask: int, m: seq<int>)
    requires 0 <= mask < 2147483648 && m == Digits(mask, 256, 4)
    ensures 0 <= FromDigits(256, m[..3]) && 0 <= m[3] < 128
    ensures mask == FromDigits(256, m[..3]) + 16777216 * m[3]
  {
    assert Pow(256, 2) == 65536;
    assert Pow(256, 4) == 4294967296 && Pow(256, 3) == 16777216;
    DigitsRebuild(mask, 256, 4);
    SplitDigits(256, m, 3);
    assert FromDigits(256, m[3..]) == m[3] by {
      assert m[3..] == [m[3]] && [m[3]][1..] == [];
    }
    FromDigitsBound(256, m[..3]);
  }

  lemma HeaderArithmetic(top: int, lo: int, m3: int, x: int, w0: int, w1: int)
    requires 0 <= top < 256 && 0 <= m3 < 128 && w0 == top + 256 * lo && w1 == m3 + 256 * x
    ensures w0 % 256 == top && w0 / 256 == lo && w1 % 128 == m3 && (w1 / 128) % 2 == 0
  {
  }

  // The wide bit of a lane.
  lemma MaskBit(v: seq<Pack>, lane: nat)
    requires |v| == LANES && lane < BLOCK_PACKS
    ensures Digit(Mask(v), 2, lane) == (if Wide(v[lane], TopExp(v)) then 1 else 0)
    ensures 3 * lane + Popc(LowBits(Mask(v), lane), 32) == Start(v, lane)
  {
    DigitOfDigits(2, Wides(v), lane);
    PopcBelow(Wides(v), lane);
  }

  // The funnel shift reads four consecutive bytes.
  lemma FunnelReads(sm: Scratch, o: nat)
    requires o + 8 <= 512
    ensures Funnel(WordAt(sm, o / 4), WordAt(sm, o / 4 + 1), o % 4) == FromDigits(256, sm[o..o + 4])
  {
    var w, s := o / 4, o % 4;
    var d0, d1 := sm[4 * w..4 * w + 4], sm[4 * w + 4..4 * w + 8];
    FunnelDigits(d0, d1, s);
    assert d0 == [sm[4 * w], sm[4 * w + 1], sm[4 * w + 2], sm[4 * w + 3]];
    assert d1 == [sm[4 * (w + 1)], sm[4 * (w + 1) + 1], sm[4 * (w + 1) + 2], sm[4 * (w + 1) + 3]];
    assert (d0 + d1)[s..s + 4] == sm[o..o + 4];
  }

  lemma FunnelDigits(d0: seq<int>, d1: seq<int>, s: nat)
    requires |d0| == |d1| == 4 && AllBelow(d0, 256) && AllBelow(d1, 256) && s < 4
    ensures Funnel(FromDigits(256, d0), FromDigits(256, d1), s) == FromDigits(256, (d0 + d1)[s..s + 4])
  {
    JoinWords(d0, d1);
    BelowConcat(d0, d1, 256);
    ShrSlice(d0 + d1, s);
    FunnelIs(FromDigits(256, d0), FromDigits(256, d1), FromDigits(256, d0 + d1), s);
  }

  lemma FunnelIs(lo: int, hi: int, x: int, s: nat)
    requires s < 4 && lo + 4294967296 * hi == x
    ensures Funnel(lo, hi, s) == Shr(x, 256, s) % 4294967296
  {
  }

  // Four of eight digits.
  lemma ShrSlice(ds: seq<int>, s: nat)
    requires |ds| == 8 && AllBelow(ds, 256) && s < 4
    ensures Shr(FromDigits(256, ds), 256, s) % 4294967296 == FromDigits(256, ds[s..s + 4])
  {
    ShrDigits(256, ds, s);
    FourBytes(ds[s..]);
    assert ds[s..][..4] == ds[s..s + 4];
  }

  lemma JoinWords(d0: seq<int>, d1: seq<int>)
    requires |d0| == |d1| == 4 && AllBelow(d0, 256) && AllBelow(d1, 256)
    ensures FromDigits(256, d0) + 4294967296 * FromDigits(256, d1) == FromDigits(256, d0 + d1)
  {
    SplitDigits(256, d0 + d1, 4);
    assert (d0 + d1)[..4] == d0 && (d0 + d1)[4..] == d1;
    PowBytes();
  }

  lemma FourBytes(ds: seq<int>)
    requires |ds| >= 4 && AllBelow(ds, 256)
    ensures FromDigits(256, ds) % 4294967296 == FromDigits(256, ds[..4])
  {
    SplitDigits(256, ds, 4);
    FromDigitsBound(256, ds[..4]);
    PowBytes();
    DivModUnique(FromDigits(256, ds), 4294967296, FromDigits(256, ds[4..]), FromDigits(256, ds[..4]));
  }

  lemma PowBytes()
    ensures Pow(256, 3) == 16777216 && Pow(256, 4) == 4294967296
    ensures Pow(16, 8) == 4294967296 && Pow(8, 8) == 16777216 && Pow(8, 3) == 512
  {
    assert Pow(256, 2) == 65536;
    assert Pow(16, 4) == 65536 && Pow(16, 6) == 16777216;
    assert Pow(8, 2) == 64 && Pow(8, 4) == 4096 && Pow(8, 6) == 262144;
  }

  // The stream's bytes of a lane, where the decoder looks for them.
  lemma FieldBytes(sm: Scratch, v: seq<Pack>, lane: nat, j: nat)
    requires |v| == LANES && lane < BLOCK_PACKS && LaidOut(sm, v)
    requires j < |CodeBytes(v[lane], TopExp(v))|
    ensures 0 <= StreamPos(Start(v, lane) + j) < 512
    ensures sm[StreamPos(Start(v, lane) + j)] == CodeBytes(v[lane], TopExp(v))[j]
  {
    StreamField(v, BLOCK_PACKS, lane);
  }

  // The code fields read back: four bytes whose lowest are the lane's field.
  lemma FirstLaneReads(sm: Scratch, v: seq<Pack>) returns (bs: seq<int>)
    requires |v| == LANES && LaidOut(sm, v)
    ensures |bs| == 4 && AllBelow(bs, 256) && LaneCode(sm, 0) == FromDigits(256, bs)
    ensures var cb := CodeBytes(v[0], TopExp(v)); |cb| <= 4 && bs[..|cb|] == cb
  {
    var cb := CodeBytes(v[0], TopExp(v));
    assert Wides(v)[..0] == [] && Start(v, 0) == 0;
    bs := [sm[5], sm[6], sm[7], sm[256]];
    FirstLane(sm[4], bs, WordAt(sm, 1));
    forall j: nat | j < |cb|
      ensures bs[j] == cb[j]
    {
      FieldBytes(sm, v, 0, j);
    }
  }

  lemma StartOfLane(sm: Scratch, v: seq<Pack>, lane: nat)
    requires |v| == LANES && 0 < lane < BLOCK_PACKS && LaidOut(sm, v)
    ensures CodeStart(sm, lane) == 253 + Start(v, lane) && 256 <= CodeStart(sm, lane)
  {
    StartAfterFirst(v, lane);
    HeaderRoundTrip(sm, v);
    MaskBit(v, lane);
  }

  lemma LaterLaneCode(sm: Scratch, v: seq<Pack>, lane: nat)
    requires |v| == LANES && 0 < lane < BLOCK_PACKS && LaidOut(sm, v)
    ensures var o := 253 + Start(v, lane);
            256 <= o <= 508 && LaneCode(sm, lane) == FromDigits(256, sm[o..o + 4])
  {
    StartOfLane(sm, v, lane);
    FunnelReads(sm, CodeStart(sm, lane));
  }

  lemma LaterLaneBytes(sm: Scratch, v: seq<Pack>, lane: nat, bs: seq<int>)
    requires |v| == LANES && 0 < lane < BLOCK_PACKS && LaidOut(sm, v)
    requires var o := 253 + Start(v, lane); 256 <= o <= 508 && bs == sm[o..o + 4]
    ensures var cb := CodeBytes(v[lane], TopExp(v)); |cb| <= 4 && bs[..|cb|] == cb
  {
    var cb := CodeBytes(v[lane], TopExp(v));
    forall j: nat | j < |cb|
      ensures bs[j] == cb[j]
    {
      FieldBytes(sm, v, lane, j);
    }
  }

  lemma LaterLaneReads(sm: Scratch, v: seq<Pack>, lane: nat) returns (bs: seq<int>)
    requires |v| == LANES && 0 < lane < BLOCK_PACKS && LaidOut(sm, v)
    ensures |bs| == 4 && AllBelow(bs, 256) && LaneCode(sm, lane) == FromDigits(256, bs)
    ensures var cb := CodeBytes(v[lane], TopExp(v)); |cb| <= 4 && bs[..|cb|] == cb
  {
    LaterLaneCode(sm, v, lane);
    var o := 253 + Start(v, lane);
    bs := sm[o..o + 4];
    LaterLaneBytes(sm, v, lane, bs);
  }

  lemma FirstLane(b4: Byte, bs: seq<int>, w1: int)
    requires |bs| == 4 && AllBelow(bs, 256)
    requires w1 == FromDigits(256, [b4, bs[0], bs[1], bs[2]])
    ensures w1 / 256 + bs[3] * 16777216 == FromDigits(256, bs)
  {
    var ds: seq<int> := [b4, bs[0], bs[1], bs[2]];
    assert ds[1..] == bs[..3];
    assert w1 / 256 == FromDigits(256, bs[..3]) by {
      DivModUnique(w1, 256, FromDigits(256, bs[..3]), b4);
    }
    FollowedBy(bs);
  }

  lemma StartAfterFirst(v: seq<Pack>, lane: nat)
    requires |v| == LANES && 0 < lane < BLOCK_PACKS
    ensures 3 <= Start(v, lane) <= 4 * lane
  {
    SumBounds(Wides(v)[..lane]);
  }

  lemma CodesInRange(v: seq<Pack>, lane: nat)
    requires |v| == LANES && lane < LANES && Codable(v)
    ensures AllBelow(Codes(v[lane], TopExp(v)), 16)
    ensures !Wide(v[lane], TopExp(v)) ==> AllBelow(NarrowCodes(v[lane], TopExp(v)), 8)
  {
    forall i: nat | i < 8
      ensures 0 <= Codes(v[lane], TopExp(v))[i] < 16
    {
      TopExpBounds(v, lane, i);
    }
  }

  // A wide field's digits are the lane's codes.
  lemma WideDigits(cs: seq<int>, code: int, bs: seq<int>, i: nat)
    requires |cs| == 8 && AllBelow(cs, 16) && |bs| == 4 && i < 8
    requires bs == Digits(FromDigits(16, cs), 256, 4) && code == FromDigits(256, bs)
    ensures Digit(code, 16, i) == cs[i]
  {
    FromDigitsBound(16, cs);
    PowBytes();
    DigitsRebuild(FromDigits(16, cs), 256, 4);
    DigitOfDigits(16, cs, i);
  }

  // A narrow field's digits are the lane's codes, whatever byte follows it.
  lemma NarrowDigits(cs: seq<int>, code: int, bs: seq<int>, i: nat)
    requires |cs| == 8 && AllBelow(cs, 8) && |bs| == 4 && AllBelow(bs, 256) && i < 8
    requires bs[..3] == Digits(FromDigits(8, cs), 256, 3) && code == FromDigits(256, bs)
    ensures Digit(code, 8, i) == cs[i]
  {
    var ds := cs + Digits(bs[3], 8, 3);
    assert code == FromDigits(8, ds) by {
      FollowedBy(bs);
      PowBytes();
      FromDigitsBound(8, cs);
      DigitsRebuild(FromDigits(8, cs), 256, 3);
      DigitsRebuild(bs[3], 8, 3);
      SplitDigits(8, ds, 8);
      assert ds[..8] == cs && ds[8..] == Digits(bs[3], 8, 3);
    }
    DigitOfDigits(8, ds, i);
  }

  lemma FollowedBy(bs: seq<int>)
    requires |bs| == 4 && AllBelow(bs, 256)
    ensures FromDigits(256, bs) == FromDigits(256, bs[..3]) + 16777216 * bs[3]
  {
    SplitDigits(256, bs, 3);
    PowBytes();
    assert bs[3..] == [bs[3]] && [bs[3]][1..] == [];
  }

  // From the lane's field, each value comes back.
  lemma ValueRoundTrip(v: seq<Pack>, lane: nat, i: nat, code: int, bs: seq<int>)
    requires |v| == LANES && lane < BLOCK_PACKS && i < 8 && Codable(v)
    requires |bs| == 4 && AllBelow(bs, 256) && code == FromDigits(256, bs)
    requires var cb := CodeBytes(v[lane], TopExp(v)); |cb| <= 4 && bs[..|cb|] == cb
    ensures DecodeValue(TopExp(v), Wide(v[lane], TopExp(v)), SignMantissa(v[lane][i]), code, i) == v[lane][i]
  {
    CodesInRange(v, lane);
    TopExpBounds(v, lane, i);
    var top := TopExp(v);
    if Wide(v[lane], top) {
      assert bs[..4] == bs;
      WideDigits(Codes(v[lane], top), code, bs, i);
    } else {
      NarrowDigits(NarrowCodes(v[lane], top), code, bs, i);
    }
    JoinParts(v[lane][i]);
  }

  // Decoding a compressed slot gives every value of every lane back.
  lemma HalfRoundTrip(sm: Scratch, v: seq<Pack>, lane: nat, i: nat)
    requires |v| == LANES && lane < BLOCK_PACKS && i < 8 && Codable(v) && LaidOut(sm, v)
    ensures DecodeHalf(sm, lane, i) == v[lane][i]
  {
    var bs;
    if lane == 0 { bs := FirstLaneReads(sm, v); } else { bs := LaterLaneReads(sm, v, lane); }
    var top, code := TopExp(v), LaneCode(sm, lane);
    assert DecodeHalf(sm, lane, i) == DecodeValue(top, Wide(v[lane], top), SignMantissa(v[lane][i]), code, i) by {
      HeaderRoundTrip(sm, v);
      MaskBit(v, lane);
      ValueByte(sm, v, lane, i);
    }
    ValueRoundTrip(v, lane, i, code, bs);
  }

  lemma ValueByte(sm: Scratch, v: seq<Pack>, lane: nat, i: nat)
    requires |v| == LANES && lane < BLOCK_PACKS && i < 8 && LaidOut(sm, v)
    ensures sm[8 + 8 * lane + i] == SignMantissa(v[lane][i])
  {
    var k := 8 * lane + i;
    assert sm[8 + k] == Values(v)[k];
    assert k / 8 == lane && k % 8 == i;
  }

  // The words a receiver takes its header from.
  function HeaderWord(q: Quad, w: nat): int
    requires w < 4
  {
    FromDigits(256, [q[4 * w], q[4 * w + 1], q[4 * w + 2], q[4 * w + 3]])
  }

  // Lane `lane`'s pack from the received quads.
  function Decode(got: seq<Quad>, lane: nat): seq<int>
    requires |got| == LANES && lane < BLOCK_PACKS
  {
    if RawWord(HeaderWord(got[0], 1)) then DecodeRaw(got, lane)
    else seq(8, i requires 0 <= i < 8 => DecodeHalf(ScratchOf(got), lane, i))
  }

  lemma HeaderIsScratch(got: seq<Quad>)
    requires |got| == LANES
    ensures HeaderWord(got[0], 0) == WordAt(ScratchOf(got), 0)
    ensures HeaderWord(got[0], 1) == WordAt(ScratchOf(got), 1)
  {
  }

  lemma RawHeaderWord()
    ensures RawWord(HeaderWord(RawHeader(), 1))
  {
    var ds: seq<int> := [128, 0, 0, 0];
    assert ds[1..] == [0, 0, 0] && [0, 0, 0][1..] == [0, 0] && [0, 0][1..] == [0] && [0][1..] == [];
    assert FromDigits(256, ds) == 128;
  }

  lemma CompressedHeader(got: seq<Quad>, v: seq<Pack>)
    requires |v| == LANES && Compressed(v) && Holds(got, v)
    ensures !RawWord(HeaderWord(got[0], 1))
    ensures QuadsOf(HeaderWord(got[0], 0), HeaderWord(got[0], 1)) == QuadCount(v)
  {
    ScratchLaidOut(got, v);
    HeaderRoundTrip(ScratchOf(got), v);
    HeaderIsScratch(got);
  }

  lemma RawHeaderIn(got: seq<Quad>, v: seq<Pack>)
    requires |v| == LANES && !Compressed(v) && Holds(got, v)
    ensures RawWord(HeaderWord(got[0], 1))
  {
    assert Wire(v)[LANES - 1].store;
    RawHeaderWord();
  }

  lemma CompressedRoundTrip(got: seq<Quad>, v: seq<Pack>, lane: nat)
    requires |v| == LANES && lane < BLOCK_PACKS && Compressed(v) && Holds(got, v)
    ensures seq(8, i requires 0 <= i < 8 => DecodeHalf(ScratchOf(got), lane, i)) == v[lane]
  {
    ScratchLaidOut(got, v);
    forall i: nat | i < 8
      ensures DecodeHalf(ScratchOf(got), lane, i) == v[lane][i]
    {
      HalfRoundTrip(ScratchOf(got), v, lane, i);
    }
  }

  lemma RawHeld(got: seq<Quad>, v: seq<Pack>, lane: nat)
    requires |v| == LANES && lane < BLOCK_PACKS && !Compressed(v) && Holds(got, v)
    ensures got[lane + 1] == PackQuad(v[lane])
  {
    assert Wire(v)[lane] == Stored(PackQuad(v[lane]), lane + 1, true);
  }

  lemma RawRoundTrip(got: seq<Quad>, p: Pack, lane: nat)
    requires |got| == LANES && lane < BLOCK_PACKS && got[lane + 1] == PackQuad(p)
    ensures DecodeRaw(got, lane) == p
  {
    assert (lane + 1) % LANES == lane + 1;
    assert got[(lane + 1) % LANES] == PackQuad(p);
    assert QuadPack(PackQuad(p)) == p by {
      PackRoundTrip(p);
    }
  }

  // The format loses nothing: whoever holds the stored quads of a block decodes
  // every lane's pack.
  lemma BlockRoundTrip(got: seq<Quad>, v: seq<Pack>, lane: nat)
    requires |v| == LANES && lane < BLOCK_PACKS && Holds(got, v)
    ensures Decode(got, lane) == v[lane]
  {
    if Compressed(v) {
      CompressedHeader(got, v);
      CompressedRoundTrip(got, v, lane);
    } else {
      RawHeaderIn(got, v);
      RawHeld(got, v, lane);
      RawRoundTrip(got, v[lane], lane);
    }
  }

  // How many quads a block's slot carries: 22 to 24, or all 32 raw.
  function StoredQuads(v: seq<Pack>): (n: int)
    requires |v| == LANES
    ensures 22 <= n <= POLL_QUADS || n == LANES
  {
    StreamSize(v);
    if Compressed(v) then QuadCount(v) else LANES
  }

  // The stored quads are exactly quads 0..n-1, each by one lane, and words 0
  // and 1 of quad 0 give n.
  lemma StoredAre(v: seq<Pack>, j: nat)
    requires |v| == LANES && j < LANES
    ensures j < StoredQuads(v) <==> exists l :: 0 <= l < LANES && Wire(v)[l].store && Wire(v)[l].at == j
    ensures forall l, m :: 0 <= l < LANES && 0 <= m < LANES && Wire(v)[l].store && Wire(v)[m].store ==>
              Wire(v)[l].at == Wire(v)[m].at ==> l == m
  {
    StreamSize(v);
    if j < StoredQuads(v) {
      var l := if Compressed(v) then j else if j == 0 then LANES - 1 else j - 1;
      assert Wire(v)[l].store && Wire(v)[l].at == j;
    }
  }

  // The exponent field of a value.
  function Field(v: seq<Pack>, l: nat, i: nat): int
    requires l < |v| && i < 8
  {
    (v[l][i] / 128) % 256
  }

  ghost predicate TopField(v: seq<Pack>, top: int) {
    && (forall l: nat, i: nat | l < |v| && i < 8 :: Field(v, l, i) <= top)
    && (exists l: nat, i: nat :: l < |v| && i < 8 && Field(v, l, i) == top)
  }

  // Some value is zero or subnormal, or more than seven octaves below the top.
  ghost predicate FarLane(v: seq<Pack>, l: nat, top: int)
    requires l < |v|
  {
    exists i: nat :: i < 8 && (Field(v, l, i) == 0 || top - Field(v, l, i) > 7)
  }

  // No value is infinite or NaN, and each is zero or subnormal or at most fourteen octaves
  // below the top.
  ghost predicate Near(v: seq<Pack>, top: int) {
    top != 255 && forall l: nat, i: nat | l < |v| && i < 8 :: Field(v, l, i) == 0 || top - Field(v, l, i) <= 14
  }

  ghost function FarLanes(v: seq<Pack>, top: int, n: nat): set<nat>
    requires n <= |v|
  {
    set l: nat | l < n && FarLane(v, l, top)
  }

  lemma {:induction false} MaxIsOne(xs: seq<int>)
    requires xs != [] && forall i | 0 <= i < |xs| :: 0 <= xs[i]
    ensures exists i: nat :: i < |xs| && xs[i] == MaxOf(xs)
    decreases |xs|
  {
    if |xs| > 1 {
      MaxIsOne(xs[1..]);
      var i: nat :| i < |xs| - 1 && xs[1..][i] == MaxOf(xs[1..]);
      assert xs[if xs[0] > MaxOf(xs[1..]) then 0 else i + 1] == MaxOf(xs);
    } else {
      assert xs[0] == MaxOf(xs);
    }
  }

  // There is one top, the one the encoder finds.
  lemma TopIs(v: seq<Pack>, top: int)
    requires v != []
    ensures TopField(v, top) <==> top == TopExp(v)
  {
    var tops := seq(|v|, l requires 0 <= l < |v| => MaxOf(Exps(v[l])));
    forall l: nat, i: nat | l < |v| && i < 8
      ensures Field(v, l, i) <= TopExp(v)
    {
      TopExpBounds(v, l, i);
    }
    forall l | 0 <= l < |v|
      ensures 0 <= tops[l]
    {
      MaxOfBelow(Exps(v[l]), 256);
    }
    MaxIsOne(tops);
    var l: nat :| l < |v| && tops[l] == TopExp(v);
    MaxIsOne(Exps(v[l]));
    var i: nat :| i < 8 && Exps(v[l])[i] == tops[l];
    assert Field(v, l, i) == TopExp(v);
  }

  lemma NearIs(v: seq<Pack>)
    ensures Codable(v) <==> Near(v, TopExp(v))
  {
    if Near(v, TopExp(v)) {
      forall l, i | 0 <= l < |v| && 0 <= i < 8
        ensures Codes(v[l], TopExp(v))[i] <= 15
      {
        assert Field(v, l, i) == Exp(v[l][i]);
      }
    }
    if Codable(v) {
      forall l: nat, i: nat | l < |v| && i < 8
        ensures Field(v, l, i) == 0 || TopExp(v) - Field(v, l, i) <= 14
      {
        assert Codes(v[l], TopExp(v))[i] <= 15;
      }
    }
  }

  lemma FarIs(v: seq<Pack>, l: nat)
    requires l < |v|
    ensures Wide(v[l], TopExp(v)) <==> FarLane(v, l, TopExp(v))
  {
    var top := TopExp(v);
    if FarLane(v, l, top) {
      var i: nat :| i < 8 && (Field(v, l, i) == 0 || top - Field(v, l, i) > 7);
      assert !(1 <= Codes(v[l], top)[i] <= 8);
    }
    if Wide(v[l], top) {
      var i: nat :| i < 8 && !(1 <= Codes(v[l], top)[i] <= 8);
      TopExpBounds(v, l, i);
      assert Field(v, l, i) == 0 || top - Field(v, l, i) > 7;
    }
  }

  lemma {:induction false} FarCount(v: seq<Pack>, n: nat)
    requires |v| == LANES && n <= BLOCK_PACKS
    ensures Sum(Wides(v)[..n]) == |FarLanes(v, TopExp(v), n)|
  {
    var top := TopExp(v);
    if n == 0 {
      assert FarLanes(v, top, 0) == {};
    } else {
      FarCount(v, n - 1);
      FarIs(v, n - 1);
      assert Wides(v)[..n] == Wides(v)[..n - 1] + [Wides(v)[n - 1]];
      SumSnoc(Wides(v)[..n - 1], Wides(v)[n - 1]);
      if FarLane(v, n - 1, top) {
        assert FarLanes(v, top, n) == FarLanes(v, top, n - 1) + {n - 1};
      } else {
        assert FarLanes(v, top, n) == FarLanes(v, top, n - 1);
      }
    }
  }

  // How many quads a block travels in: with its values near the top and no sentinel among the
  // words of its slot, 346 bytes and one for each far lane, in whole quads, of which there are 22
  // to 24; else all 32.
  lemma TravelsIn(v: seq<Pack>, top: int)
    requires |v| == LANES && TopField(v, top)
    ensures var n := (346 + |FarLanes(v, top, 31)| + 15) / 16;
      && 22 <= n <= 24
      && StoredQuads(v) == if Near(v, top) && (forall j: nat | j < n :: !Dirty(SlotQuad(v, j))) then n else 32
  {
    TopIs(v, top);
    NearIs(v);
    FarCount(v, BLOCK_PACKS);
    StreamSize(v);
    assert Wides(v)[..BLOCK_PACKS] == Wides(v);
  }

  lemma CountFromHeader(got: seq<Quad>, v: seq<Pack>)
    requires |v| == LANES && Holds(got, v)
    ensures QuadsOf(HeaderWord(got[0], 0), HeaderWord(got[0], 1)) == StoredQuads(v)
  {
    if Compressed(v) {
      CompressedHeader(got, v);
    } else {
      RawHeaderIn(got, v);
    }
  }

  // No stored word is the sentinel when the lanes' packs hold none.
  lemma StoredClean(v: seq<Pack>, l: nat)
    requires |v| == LANES && l < LANES && Wire(v)[l].store
    requires forall k :: 0 <= k < BLOCK_PACKS ==> !Dirty(PackQuad(v[k]))
    ensures !Dirty(Wire(v)[l].quad)
  {
  }
}
