// What the stream-K schedule achieves: every k tile of every m-n tile is
// computed exactly once, stripes start on group boundaries, and shared tiles
// get lock words of their own.
module StreamKCoverage {
  import opened Arith
  import opened StreamK

  ghost predicate Covers(s: Slice, tile: int, k: int) {
    s.tile == tile && s.row <= k < s.row + s.len
  }

  // How often a CTA's log computes k tile k of `tile`.
  ghost function Visits(log: seq<Slice>, tile: int, k: int): nat {
    if log == [] then 0
    else Visits(log[..|log| - 1], tile, k) + if Covers(log[|log| - 1], tile, k) then 1 else 0
  }

  // The same over CTAs 0..c-1.
  ghost function TotalVisits(plan: Plan, c: nat, tile: int, k: int): nat
    requires plan.Valid() && c <= plan.grid
  {
    if c == 0 then 0
    else TotalVisits(plan, c - 1, tile, k) + Visits(Schedule(plan, c - 1), tile, k)
  }

  lemma {:induction false} VisitsConcat(a: seq<Slice>, b: seq<Slice>, tile: int, k: int)
    ensures Visits(a + b, tile, k) == Visits(a, tile, k) + Visits(b, tile, k)
    decreases |b|
  {
    if b == [] {
      assert a + b == a;
    } else {
      var n := |b| - 1;
      assert (a + b)[..|a + b| - 1] == a + b[..n];
      VisitsConcat(a, b[..n], tile, k);
    }
  }

  // --- Whole tiles -----------------------------------------------------------

  // Entries i < n that are tile `tile`, and those of them CTA c takes.
  ghost function Hits(plan: Plan, tile: int, n: nat): nat
    requires plan.Valid() && n <= plan.wholeTiles
  {
    if n == 0 then 0
    else Hits(plan, tile, n - 1) + if plan.WholeTile(n - 1) == tile then 1 else 0
  }

  ghost function HitsOf(plan: Plan, tile: int, n: nat, c: int): nat
    requires plan.Valid() && n <= plan.wholeTiles
  {
    if n == 0 then 0
    else HitsOf(plan, tile, n - 1, c)
         + if (n - 1) % plan.grid == c && plan.WholeTile(n - 1) == tile then 1 else 0
  }

  ghost function SumHits(plan: Plan, tile: int, n: nat, c: nat): nat
    requires plan.Valid() && n <= plan.wholeTiles
  {
    if c == 0 then 0 else SumHits(plan, tile, n, c - 1) + HitsOf(plan, tile, n, c - 1)
  }

  lemma {:induction false} SumHitsStep(plan: Plan, tile: int, n: nat, c: nat)
    requires plan.Valid() && 0 < n <= plan.wholeTiles
    ensures SumHits(plan, tile, n, c) == SumHits(plan, tile, n - 1, c)
            + if (n - 1) % plan.grid < c && plan.WholeTile(n - 1) == tile then 1 else 0
    decreases c
  {
    if c > 0 {
      SumHitsStep(plan, tile, n, c - 1);
    }
  }

  lemma {:induction false} SumHitsZero(plan: Plan, tile: int, c: nat)
    requires plan.Valid()
    ensures SumHits(plan, tile, 0, c) == 0
  {
    if c > 0 {
      SumHitsZero(plan, tile, c - 1);
    }
  }

  lemma {:induction false} SumHitsAll(plan: Plan, tile: int, n: nat)
    requires plan.Valid() && n <= plan.wholeTiles
    ensures SumHits(plan, tile, n, plan.grid) == Hits(plan, tile, n)
  {
    if n == 0 {
      SumHitsZero(plan, tile, plan.grid);
    } else {
      SumHitsAll(plan, tile, n - 1);
      SumHitsStep(plan, tile, n, plan.grid);
    }
  }

  // Between two entries of CTA c its count does not change.
  lemma {:induction false} HitsOfGap(plan: Plan, tile: int, lo: nat, hi: nat, c: int)
    requires plan.Valid() && lo <= hi <= plan.wholeTiles
    requires forall i: nat :: lo <= i < hi ==> i % plan.grid != c
    ensures HitsOf(plan, tile, hi, c) == HitsOf(plan, tile, lo, c)
    decreases hi
  {
    if lo < hi {
      assert (hi - 1) % plan.grid != c;
      HitsOfGap(plan, tile, lo, hi - 1, c);
    }
  }

  lemma GapResidues(g: int, c: int, j: int, i: int)
    requires 0 <= c < g && 0 <= j
    requires c + (j - 1) * g < i < c + j * g
    ensures i % g != c
  {
    if i % g == c {
      DivBounds(i, g);
      var q := i / g;
      assert i == q * g + c;
      if q <= j - 1 { MulMono(q, j - 1, g); } else { MulMono(j, q, g); }
    }
  }

  // One past the last index CTA c takes in its first n rounds.
  function RoundsEnd(g: int, c: int, n: nat): int {
    if n == 0 then 0 else c + (n - 1) * g + 1
  }

  // Its entries are g apart.
  lemma RoundGap(g: int, c: int, n: nat)
    requires 0 <= c < g && 0 < n
    ensures 0 <= RoundsEnd(g, c, n - 1) < RoundsEnd(g, c, n)
    ensures (RoundsEnd(g, c, n) - 1) % g == c
    ensures forall x: nat :: RoundsEnd(g, c, n - 1) <= x < RoundsEnd(g, c, n) - 1 ==> x % g != c
  {
    var i := c + (n - 1) * g;
    DivModUnique(i, g, n - 1, c);
    MulMono(0, n - 1, g);
    if n > 1 {
      MulMono(0, n - 2, g);
      NextTile(g, n - 2);
    }
    forall x: nat | RoundsEnd(g, c, n - 1) <= x < i
      ensures x % g != c
    {
      GapResidues(g, c, n - 1, x);
    }
  }

  lemma {:induction false} WholeVisits(plan: Plan, c: nat, n: nat, end: int, tile: int, k: int)
    requires plan.Valid() && c < plan.grid && n <= plan.Rounds(c) && 0 <= k < plan.kTiles
    requires end == RoundsEnd(plan.grid, c, n)
    ensures 0 <= end <= plan.wholeTiles
    ensures Visits(WholeSlices(plan, c, n), tile, k) == HitsOf(plan, tile, end, c)
  {
    if n > 0 {
      var prev := RoundsEnd(plan.grid, c, n - 1);
      RoundInRange(plan, c, n - 1);
      RoundGap(plan.grid, c, n);
      WholeVisits(plan, c, n - 1, prev, tile, k);
      HitsUpTo(plan, tile, prev, end - 1, c);
      var s := Slice(plan.WholeTile(end - 1), 0, plan.kTiles, 1, 0, -1);
      assert WholeSlices(plan, c, n) == WholeSlices(plan, c, n - 1) + [s];
      LastVisit(WholeSlices(plan, c, n - 1), s, tile, k);
    }
  }

  lemma HitsUpTo(plan: Plan, tile: int, prev: nat, i: nat, c: nat)
    requires plan.Valid() && prev <= i < plan.wholeTiles && i % plan.grid == c
    requires forall x: nat :: prev <= x < i ==> x % plan.grid != c
    ensures HitsOf(plan, tile, i + 1, c) == HitsOf(plan, tile, prev, c) + if plan.WholeTile(i) == tile then 1 else 0
  {
    HitsOfGap(plan, tile, prev, i, c);
  }

  lemma LastVisit(log: seq<Slice>, s: Slice, tile: int, k: int)
    ensures Visits(log + [s], tile, k) == Visits(log, tile, k) + if Covers(s, tile, k) then 1 else 0
  {
    assert (log + [s])[..|log + [s]| - 1] == log;
  }

  lemma AllWholeVisits(plan: Plan, c: nat, tile: int, k: int)
    requires plan.Valid() && c < plan.grid && 0 <= k < plan.kTiles
    ensures Visits(WholeSlices(plan, c, plan.Rounds(c)), tile, k) == HitsOf(plan, tile, plan.wholeTiles, c)
  {
    var n := plan.Rounds(c);
    var end := RoundsEnd(plan.grid, c, n);
    WholeVisits(plan, c, n, end, tile, k);
    RoundsAre(plan, c, n);
    RoundGap(plan.grid, c, n + 1);
    HitsOfGap(plan, tile, end, plan.wholeTiles, c);
  }

  // --- Stripes -----------------------------------------------------------------

  // The flattened part-2 position of a k tile.
  function Flat(plan: Plan, tile: int, k: int): int {
    (tile - (plan.mnTiles - plan.part2Tiles)) * plan.kTiles + k
  }

  lemma FlatOrder(kTiles: int, t: int, col: int)
    requires 0 < kTiles
    ensures t < col ==> t * kTiles + kTiles <= col * kTiles
  {
    if t < col {
      MulMono(t + 1, col, kTiles);
      NextTile(kTiles, t);
    }
  }

  // One slice covers what lies before the next tile and the stripe's end.
  lemma SliceCovers(plan: Plan, c: int, col: int, row: int, tile: int, k: int)
    requires 0 < plan.iters && 0 < plan.kTiles && 0 <= row < plan.kTiles && 0 <= k < plan.kTiles
    requires col * plan.kTiles + row < plan.StripeEnd(c)
    ensures Covers(StripeSlice(plan, c, col, row), tile, k)
      <==> col * plan.kTiles + row <= Flat(plan, tile, k) < plan.StripeEnd(c)
           && Flat(plan, tile, k) < col * plan.kTiles + plan.kTiles
  {
    var t := tile - (plan.mnTiles - plan.part2Tiles);
    FlatOrder(plan.kTiles, t, col);
    FlatOrder(plan.kTiles, col, t);
  }

  lemma {:induction false} StripeVisits(plan: Plan, c: int, col: int, row: int, tile: int, k: int)
    requires plan.Valid() && 0 <= row < plan.kTiles && 0 <= k < plan.kTiles && 0 <= col
    requires 0 < plan.iters
    ensures Visits(StripeSlices(plan, c, col, row), tile, k)
            == if col * plan.kTiles + row <= Flat(plan, tile, k) < plan.StripeEnd(c) then 1 else 0
    decreases plan.StripeEnd(c) - (col * plan.kTiles + row)
  {
    if col * plan.kTiles + row < plan.StripeEnd(c) {
      NextTile(plan.kTiles, col);
      var s := StripeSlice(plan, c, col, row);
      StripeVisits(plan, c, col + 1, 0, tile, k);
      VisitsConcat([s], StripeSlices(plan, c, col + 1, 0), tile, k);
      assert [s][..0] == [];
      SliceCovers(plan, c, col, row, tile, k);
    }
  }

  lemma StripePart(plan: Plan, c: nat, col: int, row: int, tile: int, k: int)
    requires plan.Valid() && 0 <= k < plan.kTiles && 0 <= col && 0 <= row < plan.kTiles
    requires col * plan.kTiles + row == plan.iters * c
    ensures Visits(StripeSlices(plan, c, col, row), tile, k)
            == StripeHit(plan, c, Flat(plan, tile, k))
  {
    if plan.iters > 0 {
      StripeVisits(plan, c, col, row, tile, k);
    } else {
      assert StripeSlices(plan, c, col, row) == [];
    }
  }

  lemma SplitPosition(start: int, k: int)
    requires 0 <= start && 0 < k
    ensures 0 <= start / k && 0 <= start % k < k && (start / k) * k + start % k == start
  {
    DivBounds(start, k);
    DivGalois(0, start, k);
  }

  lemma ScheduleParts(plan: Plan, c: nat) returns (col: int, row: int)
    requires plan.Valid() && c < plan.grid
    ensures 0 <= plan.Rounds(c)
    ensures 0 <= col && 0 <= row < plan.kTiles && col * plan.kTiles + row == plan.iters * c
    ensures Schedule(plan, c)
            == WholeSlices(plan, c, plan.Rounds(c)) + StripeSlices(plan, c, col, row)
    ensures row == (plan.iters * c) % plan.kTiles
  {
    var start := plan.iters * c;
    MulMono(0, c, plan.iters);
    SplitPosition(start, plan.kTiles);
    col, row := start / plan.kTiles, start % plan.kTiles;
  }

  lemma CtaVisits(plan: Plan, c: nat, tile: int, k: int)
    requires plan.Valid() && c < plan.grid && 0 <= k < plan.kTiles
    ensures Visits(Schedule(plan, c), tile, k)
            == HitsOf(plan, tile, plan.wholeTiles, c) + StripeHit(plan, c, Flat(plan, tile, k))
  {
    var whole, stripe := PartVisits(plan, c, tile, k);
    VisitsConcat(whole, stripe, tile, k);
  }

  lemma PartVisits(plan: Plan, c: nat, tile: int, k: int) returns (whole: seq<Slice>, stripe: seq<Slice>)
    requires plan.Valid() && c < plan.grid && 0 <= k < plan.kTiles
    ensures Schedule(plan, c) == whole + stripe
    ensures Visits(whole, tile, k) == HitsOf(plan, tile, plan.wholeTiles, c)
    ensures Visits(stripe, tile, k) == StripeHit(plan, c, Flat(plan, tile, k))
  {
    var col, row := ScheduleParts(plan, c);
    StripePart(plan, c, col, row, tile, k);
    AllWholeVisits(plan, c, tile, k);
    whole, stripe := WholeSlices(plan, c, plan.Rounds(c)), StripeSlices(plan, c, col, row);
  }

  // CTA c's stripe holds position flat.
  ghost function StripeHit(plan: Plan, c: int, flat: int): nat {
    if plan.iters * c <= flat < plan.StripeEnd(c) then 1 else 0
  }

  ghost function SumStripeHits(plan: Plan, c: nat, flat: int): nat {
    if c == 0 then 0 else SumStripeHits(plan, c - 1, flat) + StripeHit(plan, c - 1, flat)
  }

  lemma {:induction false} StripesPartition(plan: Plan, c: nat, flat: int)
    requires 0 <= plan.iters
    ensures SumStripeHits(plan, c, flat)
            == if 0 <= flat < plan.iters * c && flat < plan.kTiles * plan.part2Tiles then 1 else 0
  {
    if c > 0 {
      StripesPartition(plan, c - 1, flat);
      MulMono(0, c - 1, plan.iters);
    }
  }

  lemma FlatRange(kTiles: int, t: int, k: int, tiles: int)
    requires 0 <= k < kTiles
    ensures 0 <= t * kTiles + k <==> 0 <= t
    ensures t * kTiles + k < kTiles * tiles <==> t < tiles
  {
    FlatOrder(kTiles, t, 0);
    FlatOrder(kTiles, t, tiles);
    FlatOrder(kTiles, -1, t);
    FlatOrder(kTiles, tiles - 1, t);
    NextTile(kTiles, tiles - 1);
  }

  lemma {:induction false} TotalVisitsUpTo(plan: Plan, c: nat, tile: int, k: int)
    requires plan.Valid() && c <= plan.grid && 0 <= k < plan.kTiles
    ensures TotalVisits(plan, c, tile, k)
            == SumHits(plan, tile, plan.wholeTiles, c) + SumStripeHits(plan, c, Flat(plan, tile, k))
  {
    if c > 0 {
      TotalVisitsUpTo(plan, c - 1, tile, k);
      CtaVisits(plan, c - 1, tile, k);
    }
  }

  lemma {:induction false} HitsOfIdentity(plan: Plan, tile: int, n: nat)
    requires plan.Valid() && n <= plan.wholeTiles && !plan.redoMode
    ensures Hits(plan, tile, n) == if 0 <= tile < n then 1 else 0
  {
    if n > 0 {
      HitsOfIdentity(plan, tile, n - 1);
    }
  }

  lemma {:induction false} HitsOfRedo(plan: Plan, tile: nat, n: nat)
    requires plan.Valid() && n <= plan.wholeTiles && plan.redoMode
    ensures Hits(plan, tile, n) == multiset(plan.redo[..n])[tile]
  {
    if n > 0 {
      HitsOfRedo(plan, tile, n - 1);
      assert plan.redo[..n] == plan.redo[..n - 1] + [plan.redo[n - 1]];
    }
  }

  // Every k tile of every m-n tile is computed exactly once by the whole grid,
  // and nothing else is.
  lemma CoveredOnce(p: Problem, tile: int, k: int)
    requires p.Valid() && !p.redoMode && 0 <= k < p.kTiles
    ensures PlanOf(p).Valid()
    ensures TotalVisits(PlanOf(p), p.grid, tile, k)
            == if 0 <= tile < p.parallel * p.nTiles then 1 else 0
  {
    PlanValid(p);
    var plan := PlanOf(p);
    CoveredOnceByPlan(plan, tile, k);
  }

  lemma CoveredOnceByPlan(plan: Plan, tile: int, k: int)
    requires plan.Valid() && !plan.redoMode && 0 <= k < plan.kTiles
    ensures TotalVisits(plan, plan.grid, tile, k) == if 0 <= tile < plan.mnTiles then 1 else 0
  {
    TotalVisitsUpTo(plan, plan.grid, tile, k);
    StripesPartition(plan, plan.grid, Flat(plan, tile, k));
    SumHitsAll(plan, tile, plan.wholeTiles);
    HitsOfIdentity(plan, tile, plan.wholeTiles);
    FlatRange(plan.kTiles, tile - plan.wholeTiles, k, plan.part2Tiles);
  }

  // In redo mode every k tile of a listed tile is computed once per listing.
  lemma RedoOnce(p: Problem, tile: nat, k: int)
    requires p.Valid() && p.redoMode && 0 <= k < p.kTiles
    ensures PlanOf(p).Valid()
    ensures TotalVisits(PlanOf(p), p.grid, tile, k) == multiset(p.redo)[tile]
  {
    PlanValid(p);
    var plan := PlanOf(p);
    RedoOnceByPlan(plan, tile, k);
  }

  lemma RedoOnceByPlan(plan: Plan, tile: nat, k: int)
    requires plan.Valid() && plan.redoMode && 0 <= k < plan.kTiles
    ensures TotalVisits(plan, plan.grid, tile, k) == multiset(plan.redo)[tile]
  {
    TotalVisitsUpTo(plan, plan.grid, tile, k);
    StripesPartition(plan, plan.grid, Flat(plan, tile, k));
    SumHitsAll(plan, tile, plan.wholeTiles);
    HitsOfRedo(plan, tile, plan.wholeTiles);
    assert plan.redo[..plan.wholeTiles] == plan.redo;
  }

  // --- Groups --------------------------------------------------------------------

  // When the tile is a whole number of groups, no slice starts inside a group.
  lemma StartsOnGroup(p: Problem, c: nat, i: nat)
    requires p.Valid() && c < p.grid && p.kTiles % p.groupTiles == 0
    requires PlanOf(p).Valid() && i < |Schedule(PlanOf(p), c)|
    ensures Schedule(PlanOf(p), c)[i].row % p.groupTiles == 0
  {
    var plan := PlanOf(p);
    ItersFacts(p.kTiles, Part2Tiles(p), p.grid, p.groupTiles);
    ScheduleRows(plan, c, i);
    AlignedStart(p.groupTiles, p.kTiles, plan.iters, c);
  }

  lemma ScheduleRows(plan: Plan, c: nat, i: nat)
    requires plan.Valid() && c < plan.grid && i < |Schedule(plan, c)|
    ensures Schedule(plan, c)[i].row == 0 || Schedule(plan, c)[i].row == (plan.iters * c) % plan.kTiles
  {
    var col, row := ScheduleParts(plan, c);
    var n := |WholeSlices(plan, c, plan.Rounds(c))|;
    if i < n {
      WholeRows(plan, c, plan.Rounds(c), i);
    } else {
      StripeRows(plan, c, col, row, i - n);
    }
  }

  lemma {:induction false} WholeRows(plan: Plan, c: nat, n: nat, i: nat)
    requires plan.Valid() && c < plan.grid && n <= plan.Rounds(c)
    ensures |WholeSlices(plan, c, n)| == n
    ensures i < n ==> WholeSlices(plan, c, n)[i].row == 0
  {
    if n > 0 {
      WholeRows(plan, c, n - 1, i);
    }
  }

  lemma {:induction false} StripeRows(plan: Plan, c: int, col: int, row: int, i: nat)
    requires 0 < plan.kTiles && 0 <= row < plan.kTiles && i < |StripeSlices(plan, c, col, row)|
    ensures StripeSlices(plan, c, col, row)[i].row == 0 || StripeSlices(plan, c, col, row)[i].row == row
    decreases i
  {
    if i > 0 {
      StripeRows(plan, c, col + 1, 0, i - 1);
    }
  }

  lemma AlignedStart(g: int, kTiles: int, iters: int, c: int)
    requires 0 < g && 0 < kTiles && kTiles % g == 0 && iters % g == 0
    ensures ((iters * c) % kTiles) % g == 0 && 0 % g == 0
  {
    var q := (iters * c) / kTiles;
    DivBounds(iters * c, kTiles);
    DivBounds(iters, g);
    DivBounds(kTiles, g);
    var a, b := iters / g, kTiles / g;
    assert iters == a * g && kTiles == b * g;
    var r := (iters * c) % kTiles;
    calc {
      r;
      iters * c - q * kTiles;
      (a * g) * c - q * (b * g);
      (a * c - q * b) * g;
    }
    DivModUnique(r, g, a * c - q * b, 0);
    DivModUnique(0, g, 0, 0);
  }

  // --- Locks ---------------------------------------------------------------------

  ghost predicate Shared(plan: Plan, col: int) {
    0 <= col < plan.part2Tiles && |plan.Sharers(col)| > 1
  }

  // A shared tile's lock word is one of the grid's, below the start counter.
  lemma LockInRange(plan: Plan, col: int)
    requires plan.Valid() && Shared(plan, col)
    ensures 0 < plan.iters && 0 <= plan.LockOf(col) < plan.grid
  {
    SharersFacts(plan, col);
  }

  // No two shared tiles use one lock word.
  lemma LocksDistinct(plan: Plan, col: int, other: int)
    requires plan.Valid() && Shared(plan, col) && Shared(plan, other) && col < other
    ensures 0 < plan.iters && plan.LockOf(col) != plan.LockOf(other)
  {
    LockInRange(plan, col);
    if plan.part2Tiles >= plan.grid {
      PairEnds(plan, col, other);
    }
  }

  // On a full grid a shared tile is its last CTA's and the one's before, whose stripe
  // begins in the tile before the next: a later tile has a later last CTA.
  lemma PairEnds(plan: Plan, col: int, other: int)
    requires plan.Valid() && Shared(plan, col) && Shared(plan, other) && col < other && plan.part2Tiles >= plan.grid
    ensures 0 < plan.iters && plan.LastCta(col) != plan.LastCta(other)
  {
    var end := PairStops(plan, col);
    var c := PairStarts(plan, other);
    if plan.LastCta(col) == plan.LastCta(other) {
      MulMono(col + 1, other, plan.kTiles);
    }
  }

  lemma PairStops(plan: Plan, col: int) returns (end: int)
    requires plan.Valid() && Shared(plan, col) && plan.part2Tiles >= plan.grid
    ensures 0 < plan.iters && end == plan.iters * plan.LastCta(col) && end < plan.kTiles * (col + 1)
  {
    SharersFacts(plan, col);
    FullGridPairs(plan, col);
    var c := plan.LastCta(col) - 1;
    assert c in plan.Sharers(col);
    LowerStopsInside(plan, c, col);
    assert c + 1 == plan.LastCta(col);
    end := plan.iters * (c + 1);
  }

  lemma PairStarts(plan: Plan, col: int) returns (end: int)
    requires plan.Valid() && Shared(plan, col) && plan.part2Tiles >= plan.grid
    ensures 0 < plan.iters && end == plan.iters * plan.LastCta(col) && plan.kTiles * col < end
  {
    SharersFacts(plan, col);
    FullGridPairs(plan, col);
    var c := plan.LastCta(col) - 1;
    assert c in plan.Sharers(col);
    assert plan.Meets(c, col);
    assert c + 1 == plan.LastCta(col);
    end := plan.iters * (c + 1);
  }
}
