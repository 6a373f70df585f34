// The sum every flags-in-data kernel delivers: element i is the fold of the
// ranks' values starting at the owner of i's partition, in fp32, rounded once.
// fp32 arithmetic is uninterpreted but for the few NaN facts in `NanOk`.
module AllReduceSum {
  import opened Arith
  import opened WireFormat
  import opened FlagsProtocol
  import opened Terms

  datatype Floats<!F> = Floats(up: Half -> F, add: (F, F) -> F, down: F -> Half, nan: F -> bool)

  // NaN absorbs and rounds to the canonical NaN 0x7FFF; 0xFFFF and 0x7FFF are
  // NaNs, and rounding never gives 0xFFFF.
  ghost predicate NanOk<F(!new)>(fl: Floats<F>) {
    && fl.nan(fl.up(0xFFFF)) && fl.nan(fl.up(0x7FFF))
    && (forall x, y | fl.nan(x) :: fl.nan(fl.add(x, y)))
    && (forall x, y | fl.nan(y) :: fl.nan(fl.add(x, y)))
    && (forall x | fl.nan(x) :: fl.down(x) == 0x7FFF)
    && (forall x :: fl.down(x) != 0xFFFF)
  }

  // --- Sanitizing ------------------------------------------------------------------

  function SanitizeWord(w: Word): Word {
    if w == SENTINEL then CANONICAL_PAIR else w
  }

  function Sanitize(p: Pack): (s: Pack)
    ensures Clean(s)
  {
    var s := PackOf(SanitizeWord(WordOf(p, 0)), SanitizeWord(WordOf(p, 1)),
                    SanitizeWord(WordOf(p, 2)), SanitizeWord(WordOf(p, 3)));
    assert WordOf(s, 0) != SENTINEL && WordOf(s, 1) != SENTINEL && WordOf(s, 2) != SENTINEL && WordOf(s, 3) != SENTINEL;
    s
  }

  // Sanitizing only turns 0xFFFF into 0x7FFF.
  lemma SanitizeHalf(p: Pack, e: nat)
    requires e < 8
    ensures Sanitize(p)[e] == p[e] || (p[e] == 0xFFFF && Sanitize(p)[e] == 0x7FFF)
  {
    assert e == 2 * (e / 2) || e == 2 * (e / 2) + 1;
    assert e / 2 == 0 || e / 2 == 1 || e / 2 == 2 || e / 2 == 3;
  }

  // --- The sum -----------------------------------------------------------------------

  // ((xs[0] + xs[1]) + xs[2]) + ...
  function Fold<F>(fl: Floats<F>, xs: seq<F>): F
    requires |xs| > 0
  {
    if |xs| == 1 then xs[0] else fl.add(Fold(fl, xs[..|xs| - 1]), xs[|xs| - 1])
  }

  function Ups<F>(fl: Floats<F>, v: seq<Pack>, e: nat): seq<F>
    requires e < 8
  {
    seq(|v|, j requires 0 <= j < |v| => fl.up(v[j][e]))
  }

  // The packs of v summed in order, rounded once.
  function SumPacks<F>(fl: Floats<F>, v: seq<Pack>): (p: Pack)
    requires |v| > 0
  {
    var half := (e: nat) requires e < 8 => fl.down(Fold(fl, Ups(fl, v, e)));
    [half(0), half(1), half(2), half(3), half(4), half(5), half(6), half(7)]
  }

  lemma SumAt<F>(fl: Floats<F>, v: seq<Pack>, e: nat)
    requires |v| > 0 && e < 8
    ensures SumPacks(fl, v)[e] == fl.down(Fold(fl, Ups(fl, v, e)))
  {
  }

  // v from `owner` on, around.
  function Rotated<T>(v: seq<T>, owner: nat): (r: seq<T>)
    requires owner < |v|
    ensures |r| == |v| && r[0] == v[owner]
  {
    assert Around(owner + 0, |v|) == owner;
    seq(|v|, j requires 0 <= j < |v| => v[Around(owner + j, |v|)])
  }

  // As the kernel indexes it: v[(owner + j) % R].
  lemma RotatedAt<T>(v: seq<T>, owner: nat, j: nat)
    requires owner < |v| && j < |v|
    ensures Rotated(v, owner)[j] == v[(owner + j) % |v|]
  {
    AroundMod(owner + j, |v|);
  }

  function Start<F>(fl: Floats<F>, x: Pack): (r: seq<F>)
    ensures |r| == 8
  {
    seq(8, e requires 0 <= e < 8 => fl.up(x[e]))
  }

  lemma Started<F>(fl: Floats<F>, v: seq<Pack>)
    requires |v| == 1
    ensures Accumulated(fl, Start(fl, v[0]), v)
  {
    assert forall e | 0 <= e < 8 :: Ups(fl, v, e) == [fl.up(v[0][e])];
  }

  // Adds a pack to the eight accumulators.
  function AddPack<F>(fl: Floats<F>, acc: seq<F>, x: Pack): (r: seq<F>)
    requires |acc| == 8
    ensures |r| == 8
  {
    seq(8, e requires 0 <= e < 8 => fl.add(acc[e], fl.up(x[e])))
  }

  // The accumulators after the packs of v.
  ghost predicate Accumulated<F>(fl: Floats<F>, acc: seq<F>, v: seq<Pack>) {
    |acc| == 8 && |v| > 0 && forall e | 0 <= e < 8 :: acc[e] == Fold(fl, Ups(fl, v, e))
  }

  lemma AccumulateNext<F>(fl: Floats<F>, acc: seq<F>, xs: seq<Pack>, j: nat)
    requires 0 < j < |xs| && Accumulated(fl, acc, xs[..j])
    ensures Accumulated(fl, AddPack(fl, acc, xs[j]), xs[..j + 1])
  {
    forall e | 0 <= e < 8
      ensures AddPack(fl, acc, xs[j])[e] == Fold(fl, Ups(fl, xs[..j + 1], e))
    {
      FoldSnoc(fl, xs, j, e);
    }
  }

  function Round<F>(fl: Floats<F>, acc: seq<F>): (p: Pack)
    requires |acc| == 8
  {
    [fl.down(acc[0]), fl.down(acc[1]), fl.down(acc[2]), fl.down(acc[3]),
     fl.down(acc[4]), fl.down(acc[5]), fl.down(acc[6]), fl.down(acc[7])]
  }

  lemma Rounded<F>(fl: Floats<F>, acc: seq<F>, v: seq<Pack>)
    requires Accumulated(fl, acc, v)
    ensures Round(fl, acc) == SumPacks(fl, v)
  {
    forall e: nat | e < 8
      ensures Round(fl, acc)[e] == SumPacks(fl, v)[e]
    {
      SumAt(fl, v, e);
    }
  }

  // reduce_owner_order: the accumulators of one thread.
  method ReduceOwnerOrder<F(!new)>(fl: Floats<F>, v: seq<Pack>, owner: nat) returns (red: Pack)
    requires 0 < |v| && owner < |v|
    ensures red == SumPacks(fl, Rotated(v, owner))
    ensures forall e: nat | e < 8 :: RoundedSum(fl, From(v, owner, e), red[e])
  {
    ghost var xs := Rotated(v, owner);
    var x := v[owner];
    var acc := Start(fl, x);
    Started(fl, xs[..1]);
    var j := 1;
    while j < |v|
      invariant 1 <= j <= |v| && Accumulated(fl, acc, xs[..j])
    {
      x := v[Around(owner + j, |v|)];
      AccumulateNext(fl, acc, xs, j);
      acc := AddPack(fl, acc, x);
      j := j + 1;
    }
    assert xs[..j] == xs;
    Rounded(fl, acc, xs);
    red := Round(fl, acc);
    RotationSums(fl, v, owner);
  }

  lemma FoldSnoc<F>(fl: Floats<F>, xs: seq<Pack>, j: nat, e: nat)
    requires 0 < j < |xs| && e < 8
    ensures Fold(fl, Ups(fl, xs[..j + 1], e)) == fl.add(Fold(fl, Ups(fl, xs[..j], e)), fl.up(xs[j][e]))
  {
    var all := Ups(fl, xs[..j + 1], e);
    assert all[..|all| - 1] == Ups(fl, xs[..j], e);
  }

  // --- Sanitizing does not change the sum --------------------------------------------

  // Two inputs differ only in values that are NaN in both.
  ghost predicate SameButNan<F>(fl: Floats<F>, xs: seq<F>, ys: seq<F>) {
    |xs| == |ys| && forall j | 0 <= j < |xs| :: xs[j] == ys[j] || (fl.nan(xs[j]) && fl.nan(ys[j]))
  }

  lemma {:induction false} FoldSameButNan<F(!new)>(fl: Floats<F>, xs: seq<F>, ys: seq<F>)
    requires NanOk(fl) && SameButNan(fl, xs, ys) && |xs| > 0
    ensures Fold(fl, xs) == Fold(fl, ys) || (fl.nan(Fold(fl, xs)) && fl.nan(Fold(fl, ys)))
    decreases |xs|
  {
    if |xs| > 1 {
      FoldSameButNan(fl, xs[..|xs| - 1], ys[..|ys| - 1]);
    }
  }

  // A rounded sum needs no sanitizing.
  lemma SumIsClean<F(!new)>(fl: Floats<F>, v: seq<Pack>)
    requires NanOk(fl) && |v| > 0
    ensures Sanitize(SumPacks(fl, v)) == SumPacks(fl, v)
  {
    var p := SumPacks(fl, v);
    forall e | 0 <= e < 8
      ensures Sanitize(p)[e] == p[e]
    {
      SanitizeHalf(p, e);
      SumAt(fl, v, e);
    }
  }

  function Sanitized(v: seq<Pack>): (s: seq<Pack>)
    ensures |s| == |v|
  {
    seq(|v|, j requires 0 <= j < |v| => Sanitize(v[j]))
  }

  // Summing sanitized packs gives the bits of summing the packs as they are.
  lemma SanitizeKeepsBits<F(!new)>(fl: Floats<F>, v: seq<Pack>)
    requires NanOk(fl) && |v| > 0
    ensures Sanitize(SumPacks(fl, Sanitized(v))) == SumPacks(fl, v)
  {
    SumIsClean(fl, Sanitized(v));
    forall e: nat | e < 8
      ensures SumPacks(fl, Sanitized(v))[e] == SumPacks(fl, v)[e]
    {
      var xs, ys := Ups(fl, Sanitized(v), e), Ups(fl, v, e);
      forall j | 0 <= j < |v|
        ensures xs[j] == ys[j] || (fl.nan(xs[j]) && fl.nan(ys[j]))
      {
        SanitizeHalf(v[j], e);
      }
      FoldSameButNan(fl, xs, ys);
    }
  }

  // --- Partitions ---------------------------------------------------------------------

  // part_len: the packs rank q owns.
  function PartLen(ranks: nat, q: nat, size: nat): (n: int)
    requires q < ranks
  {
    if q == ranks - 1 then size - (ranks - 1) * (size / ranks) else size / ranks
  }

  function Largest(ranks: nat, size: nat): int
    requires 0 < ranks
  {
    PartLen(ranks, ranks - 1, size)
  }

  // Pack idx of partition q in the message.
  function PackAt(ranks: nat, size: nat, q: nat, idx: nat): nat
    requires 0 < ranks
  {
    At(size / ranks, q, idx)
  }

  // one_shot's owner of pack i.
  function Owner(ranks: nat, size: nat, i: int): int
    requires 0 < ranks
  {
    var part := size / ranks;
    if part != 0 then (if i / part < ranks - 1 then i / part else ranks - 1) else ranks - 1
  }

  lemma PartFacts(ranks: nat, size: nat)
    requires 0 < ranks
    ensures (ranks - 1) * (size / ranks) + Largest(ranks, size) == size
    ensures 0 <= size / ranks <= Largest(ranks, size)
    ensures 0 < size ==> 0 < Largest(ranks, size)
  {
    var part := size / ranks;
    DivBounds(size, ranks);
    assert ranks * part == (ranks - 1) * part + part;
  }

  // A partition's packs lie in the message, are its owner's, and no other pack is.
  lemma PartitionOwner(ranks: nat, size: nat, q: nat, idx: nat)
    requires q < ranks && idx < PartLen(ranks, q, size)
    ensures PackAt(ranks, size, q, idx) < size
    ensures Owner(ranks, size, PackAt(ranks, size, q, idx)) == q
  {
    var part := size / ranks;
    PartFacts(ranks, size);
    AtIs(part, q, idx);
    if q < ranks - 1 {
      DivModUnique(q * part + idx, part, q, idx);
      MulMono(q + 1, ranks - 1, part);
    } else if part != 0 {
      DivGalois(ranks - 1, (ranks - 1) * part + idx, part);
    }
  }

  // Every pack of the message is in its owner's partition.
  lemma OwnerPartition(ranks: nat, size: nat, i: nat) returns (idx: nat)
    requires 0 < ranks && i < size
    ensures 0 <= Owner(ranks, size, i) < ranks
    ensures idx < PartLen(ranks, Owner(ranks, size, i), size)
    ensures i == PackAt(ranks, size, Owner(ranks, size, i), idx)
  {
    var part := size / ranks;
    var q := Owner(ranks, size, i);
    PartFacts(ranks, size);
    if part != 0 {
      DivBounds(i, part);
      DivGalois(0, i, part);
      if i / part >= ranks - 1 {
        MulMono(ranks - 1, i / part, part);
      }
    }
    idx := i - q * part;
    AtIs(part, q, idx);
  }

  lemma OwnerIsRank(ranks: nat, size: nat, i: nat)
    requires 0 < ranks && i < size
    ensures 0 <= Owner(ranks, size, i) < ranks
  {
    var idx := OwnerPartition(ranks, size, i);
  }

  // --- The specification ---------------------------------------------------------------

  datatype Message = Message(ranks: nat, size: nat, input: seq<seq<Pack>>)
  {
    ghost predicate Ok() {
      1 < ranks == |input| && 0 < size && forall r | 0 <= r < ranks :: |input[r]| == size
    }

    // The ranks' packs at i.
    function Column(i: int): (v: seq<Pack>)
      requires |input| == ranks && 0 <= i < size && forall r | 0 <= r < ranks :: |input[r]| == size
      ensures |v| == ranks
    {
      seq(ranks, r requires 0 <= r < ranks => input[r][i])
    }

    // The all-reduce.
    ghost function Result<F>(fl: Floats<F>): seq<Pack>
      requires Ok()
    {
      seq(size, i requires 0 <= i < size =>
        OwnerIsRank(ranks, size, i);
        SumPacks(fl, Rotated(Column(i), Owner(ranks, size, i))))
    }
  }

  // --- What the result adds ---------------------------------------------------------------

  // The values of element e as the owner adds them: its own first, then the other ranks' around.
  ghost function From(v: seq<Pack>, owner: nat, e: nat): (xs: seq<Half>)
    requires owner < |v| && e < 8
    ensures |xs| == |v|
  {
    seq(|v|, j requires 0 <= j < |v| => v[(owner + j) % |v|][e])
  }

  // p is pack i of the sum: each element adds the ranks' values from the left, once each, and rounds once.
  ghost predicate PackSum<F(!new)>(fl: Floats<F>, m: Message, i: nat, p: Pack)
    requires m.Ok() && i < m.size
  {
    0 <= Owner(m.ranks, m.size, i) < m.ranks
    && forall e: nat | e < 8 :: RoundedSum(fl, From(m.Column(i), Owner(m.ranks, m.size, i), e), p[e])
  }

  ghost predicate RoundedSum<F(!new)>(fl: Floats<F>, xs: seq<Half>, h: Half) {
    exists sum: F :: SumsTo(fl.up, fl.add, xs, sum) && h == fl.down(sum)
  }

  lemma {:induction false} FoldSums<F(!new)>(fl: Floats<F>, v: seq<Pack>, e: nat, hs: seq<Half>)
    requires |v| == |hs| > 0 && e < 8 && forall j | 0 <= j < |v| :: v[j][e] == hs[j]
    ensures SumsTo(fl.up, fl.add, hs, Fold(fl, Ups(fl, v, e)))
    decreases |v|
  {
    var n := |v| - 1;
    if n == 0 {
      SumOfOne(fl.up, fl.add, hs[0]);
      assert hs == [hs[0]];
    } else {
      FoldSums(fl, v[..n], e, hs[..n]);
      SumOfMore(fl.up, fl.add, hs[..n], Fold(fl, Ups(fl, v[..n], e)), hs[n]);
      assert hs[..n] + [hs[n]] == hs && v[..n + 1] == v;
      FoldSnoc(fl, v, n, e);
    }
  }

  lemma RotationSums<F(!new)>(fl: Floats<F>, v: seq<Pack>, owner: nat)
    requires owner < |v|
    ensures forall e: nat | e < 8 :: RoundedSum(fl, From(v, owner, e), SumPacks(fl, Rotated(v, owner))[e])
  {
    var xs := Rotated(v, owner);
    forall e: nat | e < 8
      ensures RoundedSum(fl, From(v, owner, e), SumPacks(fl, xs)[e])
    {
      forall j: nat | j < |v|
        ensures xs[j][e] == From(v, owner, e)[j]
      {
        RotatedAt(v, owner, j);
      }
      FoldSums(fl, xs, e, From(v, owner, e));
      SumAt(fl, xs, e);
    }
  }

  // The all-reduce is that sum.
  lemma ResultSums<F(!new)>(fl: Floats<F>, m: Message, i: nat)
    requires m.Ok() && i < m.size
    ensures PackSum(fl, m, i, m.Result(fl)[i])
  {
    OwnerIsRank(m.ranks, m.size, i);
    RotationSums(fl, m.Column(i), Owner(m.ranks, m.size, i));
  }

  // The owner of a pack in plain arithmetic: partitions of size / ranks packs, the last with the rest.
  lemma OwnerRange(ranks: nat, size: nat, i: nat, q: nat)
    requires 0 < ranks && i < size && q < ranks
    ensures Owner(ranks, size, i) == q
            <==> q * (size / ranks) <= i && (i < (q + 1) * (size / ranks) || q == ranks - 1)
  {
    var part := size / ranks;
    var idx := OwnerPartition(ranks, size, i);
    var o := Owner(ranks, size, i);
    AtIs(part, o, idx);
    if o < q {
      RangesApart(part, o, idx, q);
    } else if q < o {
      MulMono(q + 1, o, part);
    } else if q < ranks - 1 {
      RangesApart(part, q, idx, q + 1);
    }
  }

  lemma RangesApart(part: nat, o: nat, idx: nat, q: nat)
    requires idx < part && o < q
    ensures o * part + idx < q * part
  {
    MulMono(o + 1, q, part);
    assert (o + 1) * part == o * part + part;
  }
}
