// The stream-K schedule of the Marlin MoE GEMM: how (m-n tile, k tile) work is
// split over the CTAs of a grid, who shares a tile, and which lock word
// orders the sharers. Thread-level work inside a tile is not modelled.
module StreamK {
  import opened Arith

  // kTiles, nTiles: threadblock tiles along k and n. parallel: valid MoE
  // blocks. groupTiles: k tiles per quantization group (1 when the stripe
  // length is not rounded). In redo mode only the tiles listed in `redo` are
  // computed, each whole.
  datatype Problem = Problem(grid: nat, kTiles: nat, nTiles: nat, parallel: nat, groupTiles: nat,
                             redoMode: bool, redo: seq<nat>)
  {
    ghost predicate Valid() {
      0 < grid && 0 < kTiles && 0 < nTiles && 0 < groupTiles
    }
  }

  // What the kernel derives from a problem before its main loop. part2Tiles:
  // tiles reduced by stripes of `iters` k tiles. wholeTiles: the part-1 tiles,
  // or the entries of the redo list.
  datatype Plan = Plan(grid: int, kTiles: int, nTiles: int, mnTiles: int, part2Tiles: int,
                       wholeTiles: int, iters: int, redoMode: bool, redo: seq<nat>)
  {
    ghost predicate Valid() {
      && 0 < grid && 0 < kTiles && 0 < nTiles
      && 0 <= part2Tiles <= mnTiles && 0 <= wholeTiles && 0 <= iters
      && (redoMode ==> wholeTiles == |redo| && part2Tiles == 0)
      && (!redoMode ==> wholeTiles == mnTiles - part2Tiles && wholeTiles % grid == 0)
      && kTiles * part2Tiles <= iters * grid
      && (0 < part2Tiles <==> 0 < iters)
      && (grid <= part2Tiles ==> kTiles <= iters)
    }

    // How many whole tiles CTA c takes.
    function Rounds(c: int): int
      requires 0 < grid
    {
      if !redoMode then wholeTiles / grid
      else if c < |redo| then CeilDiv(|redo| - c, grid)
      else 0
    }

    function WholeTile(i: int): int
      requires Valid() && 0 <= i < wholeTiles
    {
      if redoMode then redo[i] else i
    }

    // The end of CTA c's stripe in the flattened part-2 work, clipped to it.
    function StripeEnd(c: int): int
    {
      var e := iters * (c + 1);
      if e <= kTiles * part2Tiles then e else kTiles * part2Tiles
    }

    // Part-2 tile `col` overlaps CTA c's stripe.
    ghost predicate Meets(c: int, col: int) {
      iters * c < kTiles * (col + 1) && kTiles * col < iters * (c + 1)
    }

    ghost function Sharers(col: int): set<int> {
      set c: int | 0 <= c < grid && Meets(c, col)
    }

    ghost function SharersAbove(col: int, c: int): set<int> {
      set d: int | d in Sharers(col) && d > c
    }

    // The lowest and highest CTA of a part-2 tile.
    function FirstCta(col: int): int
      requires 0 < iters
    {
      (kTiles * col) / iters
    }

    function LastCta(col: int): int
      requires 0 < iters
    {
      (kTiles * (col + 1) - 1) / iters
    }

    // The lock word of a shared tile.
    function LockOf(col: int): int
      requires 0 < iters
    {
      if part2Tiles >= grid then LastCta(col) else col
    }
  }

  function Part2Tiles(p: Problem): int
    requires p.Valid()
  {
    var tiles := p.parallel * p.nTiles;
    if p.redoMode then 0
    else if tiles > p.grid then
      var rest := tiles % p.grid;
      if rest * 3 <= p.grid then rest + p.grid else rest
    else tiles
  }

  function PlanOf(p: Problem): Plan
    requires p.Valid()
  {
    var tiles := p.parallel * p.nTiles;
    var part2 := Part2Tiles(p);
    var iters := p.groupTiles * CeilDiv(CeilDiv(p.kTiles * part2, p.grid), p.groupTiles);
    Plan(p.grid, p.kTiles, p.nTiles, tiles, part2, if p.redoMode then |p.redo| else tiles - part2,
         iters, p.redoMode, p.redo)
  }

  lemma PlanValid(p: Problem)
    requires p.Valid()
    ensures PlanOf(p).Valid()
  {
    SplitFacts(p);
    ItersFacts(p.kTiles, Part2Tiles(p), p.grid, p.groupTiles);
  }

  // The whole tiles are a multiple of the grid.
  lemma SplitFacts(p: Problem)
    requires p.Valid()
    ensures var tiles := p.parallel * p.nTiles;
            0 <= Part2Tiles(p) <= tiles && (!p.redoMode ==> (tiles - Part2Tiles(p)) % p.grid == 0)
  {
    var g, t := p.grid, p.parallel * p.nTiles;
    MulMono(0, p.parallel, p.nTiles);
    DivBounds(t, g);
    if !p.redoMode && t > g {
      MulMono(1, t / g, g);
      if (t % g) * 3 <= g {
        DivModUnique(t - t % g - g, g, t / g - 1, 0);
      } else {
        DivModUnique(t - t % g, g, t / g, 0);
      }
    }
  }

  // The stripes reach the end of the work, are a whole number of groups, are
  // empty only without part-2 work, and hold a tile when the tiles fill the grid.
  lemma ItersFacts(k: int, tiles: int, g: int, group: int)
    requires 0 < k && 0 <= tiles && 0 < g && 0 < group
    ensures var iters := group * CeilDiv(CeilDiv(k * tiles, g), group);
            && k * tiles <= iters * g && iters % group == 0 && 0 <= iters
            && (0 < tiles <==> 0 < iters) && (g <= tiles ==> k <= iters)
  {
    var total := k * tiles;
    var raw := CeilDiv(total, g);
    var iters := group * CeilDiv(raw, group);
    CeilDivBounds(total, g);
    CeilDivBounds(raw, group);
    MulMono(raw, iters, g);
    DivModUnique(iters, group, CeilDiv(raw, group), 0);
    if 0 < tiles {
      MulMono(1, tiles, k);
      if raw <= 0 { MulMono(raw, 0, g); }
    } else {
      CeilDivUnique(0, g, 0);
      CeilDivUnique(0, group, 0);
    }
    if g <= tiles {
      MulMono(g, tiles, k);
      if raw < k { MulMono(raw + 1, k, g); }
    }
  }

  // Which tiles are split: with more than a CTA each, over a third of the grid and at most four
  // thirds, so that the rest fill whole rounds; that leaves one choice.
  lemma SplitIs(p: Problem)
    requires p.Valid()
    ensures var plan := PlanOf(p);
      && (p.redoMode ==> plan.part2Tiles == 0)
      && (!p.redoMode && plan.mnTiles <= p.grid ==> plan.part2Tiles == plan.mnTiles)
      && (!p.redoMode && plan.mnTiles > p.grid ==>
            forall n :: n == plan.part2Tiles <==> p.grid < 3 * n <= 4 * p.grid && (plan.mnTiles - n) % p.grid == 0)
  {
    var plan := PlanOf(p);
    SplitFacts(p);
    if !p.redoMode && plan.mnTiles > p.grid {
      DivBounds(plan.mnTiles, p.grid);
      forall n | p.grid < 3 * n <= 4 * p.grid && (plan.mnTiles - n) % p.grid == 0
        ensures n == plan.part2Tiles
      {
        SameRest(plan.mnTiles - n, plan.mnTiles - plan.part2Tiles, p.grid);
      }
    }
  }

  lemma SameRest(a: int, b: int, g: int)
    requires 0 < g && a % g == 0 && b % g == 0 && -g < a - b < g
    ensures a == b
  {
    DivBounds(a, g);
    DivBounds(b, g);
    if a / g < b / g {
      MulMono(a / g + 1, b / g, g);
    } else if b / g < a / g {
      MulMono(b / g + 1, a / g, g);
    }
  }

  // The stripes are the shortest of whole groups that hold the work.
  lemma StripesAre(p: Problem)
    requires p.Valid()
    ensures var plan := PlanOf(p);
      && plan.iters % p.groupTiles == 0 && plan.kTiles * plan.part2Tiles <= plan.iters * p.grid
      && (0 < plan.part2Tiles ==> (plan.iters - p.groupTiles) * p.grid < plan.kTiles * plan.part2Tiles)
  {
    var plan := PlanOf(p);
    var total := p.kTiles * plan.part2Tiles;
    var raw := CeilDiv(total, p.grid);
    SplitFacts(p);
    ItersFacts(p.kTiles, plan.part2Tiles, p.grid, p.groupTiles);
    CeilDivBounds(total, p.grid);
    CeilDivBounds(raw, p.groupTiles);
    assert p.groupTiles * CeilDiv(raw, p.groupTiles) - p.groupTiles <= raw - 1;
    MulMono(plan.iters - p.groupTiles, raw - 1, p.grid);
  }

  // A run of k tiles [row, row + len) of one m-n tile, and how the CTA takes
  // its turn in the tile's reduction: turn `idx` of `count`, on lock word
  // `lock` (-1 when the tile is not shared).
  datatype Slice = Slice(tile: int, row: int, len: int, count: int, idx: int, lock: int)

  // The schedule, stated without the kernel's arithmetic.
  ghost function WholeSlices(plan: Plan, c: nat, n: nat): seq<Slice>
    requires plan.Valid() && c < plan.grid && n <= plan.Rounds(c)
  {
    if n == 0 then []
    else
      RoundInRange(plan, c, n - 1);
      WholeSlices(plan, c, n - 1) + [Slice(plan.WholeTile(c + (n - 1) * plan.grid), 0, plan.kTiles, 1, 0, -1)]
  }

  // k tiles of CTA c's stripe in tile col from row on.
  function SliceLen(plan: Plan, c: int, col: int, row: int): int {
    var left, room := plan.StripeEnd(c) - (col * plan.kTiles + row), plan.kTiles - row;
    if left <= room then left else room
  }

  ghost function StripeSlice(plan: Plan, c: int, col: int, row: int): Slice
    requires 0 < plan.iters
  {
    var count := |plan.Sharers(col)|;
    Slice(plan.mnTiles - plan.part2Tiles + col, row, SliceLen(plan, c, col, row), count,
          |plan.SharersAbove(col, c)|, if count > 1 then plan.LockOf(col) else -1)
  }

  // The stripe of CTA c from row `row` of tile col on, tile by tile.
  ghost function StripeSlices(plan: Plan, c: int, col: int, row: int): seq<Slice>
    requires 0 < plan.kTiles && 0 <= row < plan.kTiles
    decreases plan.StripeEnd(c) - (col * plan.kTiles + row)
  {
    if 0 < plan.iters && col * plan.kTiles + row < plan.StripeEnd(c) then
      NextTile(plan.kTiles, col);
      [StripeSlice(plan, c, col, row)] + StripeSlices(plan, c, col + 1, 0)
    else []
  }

  lemma NextTile(k: int, col: int)
    ensures (col + 1) * k == col * k + k
  {
  }

  ghost function Schedule(plan: Plan, c: nat): seq<Slice>
    requires plan.Valid() && c < plan.grid
  {
    var start := plan.iters * c;
    WholeSlices(plan, c, plan.Rounds(c))
    + StripeSlices(plan, c, start / plan.kTiles, start % plan.kTiles)
  }

  // CTA c's rounds are exactly the indices congruent to c.
  lemma RoundsAre(plan: Plan, c: nat, j: nat)
    requires plan.Valid() && c < plan.grid
    ensures j < plan.Rounds(c) <==> c + j * plan.grid < plan.wholeTiles
  {
    if plan.redoMode {
      CeilGalois(j, |plan.redo| - c, plan.grid);
      MulMono(0, j, plan.grid);
    } else {
      DivBounds(plan.wholeTiles, plan.grid);
      MultipleRounds(plan.grid, plan.Rounds(c), c, j);
    }
  }

  lemma MultipleRounds(g: int, n: int, c: int, j: int)
    requires 0 <= c < g
    ensures j < n <==> c + j * g < n * g
  {
    if j < n { MulMono(j + 1, n, g); } else { MulMono(n, j, g); }
  }

  lemma RoundInRange(plan: Plan, c: nat, j: nat)
    requires plan.Valid() && c < plan.grid && j < plan.Rounds(c)
    ensures 0 <= c + j * plan.grid < plan.wholeTiles
  {
    RoundsAre(plan, c, j);
    MulMono(0, j, plan.grid);
  }

  // --- Who shares a part-2 tile -------------------------------------------

  lemma MeetsInterval(plan: Plan, c: int, col: int)
    requires plan.Valid() && plan.iters > 0
    ensures plan.Meets(c, col) <==> plan.FirstCta(col) <= c <= plan.LastCta(col)
  {
    DivGalois(c, plan.kTiles * (col + 1) - 1, plan.iters);
    DivGalois(c + 1, plan.kTiles * col, plan.iters);
  }

  lemma SharersFacts(plan: Plan, col: int)
    requires plan.Valid() && 0 <= col < plan.part2Tiles
    ensures plan.iters > 0
    ensures 0 <= plan.FirstCta(col) <= plan.LastCta(col) < plan.grid
    ensures forall c: int :: c in plan.Sharers(col) <==> plan.FirstCta(col) <= c <= plan.LastCta(col)
    ensures |plan.Sharers(col)| == plan.LastCta(col) - plan.FirstCta(col) + 1
  {
    var it := plan.iters;
    var a, b := plan.kTiles * col, plan.kTiles * (col + 1);
    MulMono(0, col, plan.kTiles);
    MulMono(col + 1, plan.part2Tiles, plan.kTiles);
    assert 0 <= a < b <= it * plan.grid;
    DivBounds(a, it);
    DivBounds(b - 1, it);
    var f, l := plan.FirstCta(col), plan.LastCta(col);
    MulLess(-1, f, it);
    MulLess(f, l + 1, it);
    MulLess(l, plan.grid, it);
    forall c: int
      ensures c in plan.Sharers(col) <==> f <= c <= l
    {
      MeetsInterval(plan, c, col);
    }
    IntervalSize(plan.Sharers(col), f, l + 1);
  }

  lemma TurnFacts(plan: Plan, c: int, col: int)
    requires plan.Valid() && 0 <= col < plan.part2Tiles && c in plan.Sharers(col)
    ensures plan.iters > 0
    ensures |plan.SharersAbove(col, c)| == plan.LastCta(col) - c
  {
    SharersFacts(plan, col);
    IntervalSize(plan.SharersAbove(col, c), c + 1, plan.LastCta(col) + 1);
  }

  // Where the first stripe boundary at or after a lies.
  lemma BoundaryAfter(it: int, a: int)
    requires 0 < it
    ensures 0 <= CeilDiv(a, it) * it - a < it
    ensures CeilDiv(a, it) == (if CeilDiv(a, it) * it == a then a / it else a / it + 1)
  {
    var cd := CeilDiv(a, it);
    CeilDivBounds(a, it);
    if cd * it == a {
      DivUnique(a, it, cd);
    } else {
      DivUnique(a, it, cd - 1);
    }
  }

  // Stripes from that boundary to the end b of the tile.
  lemma StripesAfter(it: int, a: int, b: int)
    requires 0 < it && a < b
    ensures var cd := CeilDiv(a, it);
            if cd * it <= b then CeilDiv(b - cd * it, it) == (b - 1) / it + 1 - cd
            else (b - 1) / it == a / it
  {
    var cd := CeilDiv(a, it);
    BoundaryAfter(it, a);
    if cd * it <= b {
      BoundariesBetween(it, b, cd);
    } else {
      DivBounds(a, it);
      DivUnique(b - 1, it, a / it);
    }
  }

  lemma BoundariesBetween(it: int, b: int, cd: int)
    requires 0 < it && cd * it <= b
    ensures CeilDiv(b - cd * it, it) == (b - 1) / it + 1 - cd
  {
    var n := CeilDiv(b - cd * it, it);
    CeilDivBounds(b - cd * it, it);
    assert (cd + n - 1) * it == cd * it + n * it - it;
    assert (cd + n) * it == cd * it + n * it;
    DivUnique(b - 1, it, cd + n - 1);
  }

  lemma BoundaryDistance(it: int, c: int, cd: int)
    requires 0 < it
    ensures c < cd ==> it * c - it * cd < 0
    ensures c == cd ==> it * c - it * cd == 0
    ensures c > cd ==> it * c - it * cd > 0
    ensures (it * c - it * cd) / it == c - cd
  {
    assert it * c - it * cd == (c - cd) * it;
    DivModUnique(it * c - it * cd, it, c - cd, 0);
    if c < cd { MulMono(c - cd, -1, it); } else if c > cd { MulMono(1, c - cd, it); }
  }

  // The kernel's count and turn for a tile [a, b) met by CTA c, computed from
  // the first stripe boundary at or after the tile's start.
  lemma TurnArithmetic(it: int, a: int, b: int, c: int, first: int)
    requires 0 < it && a < b && a / it <= c <= (b - 1) / it
    requires first == it * CeilDiv(a, it)
    ensures var lo, hi := a / it, (b - 1) / it;
            var off, delta := first - a, it * c - first;
            var n := CeilDiv(b - first, it);
            if first <= b then
              hi - lo + 1 == (if off > 0 then n + 1 else n)
              && hi - c == (if delta < 0 || (off == 0 && delta == 0) then hi - lo
                            else if off > 0 then hi - lo - delta / it - 1
                            else hi - lo - delta / it)
            else lo == hi == c
  {
    BoundaryAfter(it, a);
    StripesAfter(it, a, b);
    BoundaryDistance(it, c, CeilDiv(a, it));
  }

  // When the part-2 tiles fill the grid a stripe is at least a tile long, so a
  // tile has at most two CTAs, and the lower one's stripe ends inside it.
  lemma FullGridPairs(plan: Plan, col: int)
    requires plan.Valid() && plan.part2Tiles >= plan.grid && 0 <= col < plan.part2Tiles
    ensures plan.iters > 0 && plan.LastCta(col) <= plan.FirstCta(col) + 1
  {
    SharersFacts(plan, col);
    PairArithmetic(plan.iters, plan.kTiles, col);
  }

  lemma PairArithmetic(it: int, k: int, col: int)
    requires 0 < k <= it
    ensures (k * (col + 1) - 1) / it <= (k * col) / it + 1
  {
    DivBounds(k * col, it);
    DivGalois((k * col) / it + 2, k * (col + 1) - 1, it);
  }

  // Row `row` of tile col lies in CTA c's stripe.
  ghost predicate InStripe(plan: Plan, c: int, col: int, row: int) {
    && 0 <= c < plan.grid && 0 <= col && 0 <= row < plan.kTiles
    && plan.iters * c <= col * plan.kTiles + row < plan.StripeEnd(c)
  }

  // Then CTA c is a sharer of that tile.
  lemma StripeMeets(plan: Plan, c: int, col: int, row: int)
    requires plan.Valid() && InStripe(plan, c, col, row)
    ensures col < plan.part2Tiles && c in plan.Sharers(col) && 0 < plan.iters
  {
    MulLess(col, plan.part2Tiles, plan.kTiles);
    NextTile(plan.kTiles, col);
  }

  // A CTA below the tile's last one stops inside the tile.
  lemma LowerStopsInside(plan: Plan, c: int, col: int)
    requires plan.Valid() && 0 <= col < plan.part2Tiles && 0 < plan.iters
    requires c in plan.Sharers(col) && c < plan.LastCta(col)
    ensures plan.StripeEnd(c) == plan.iters * (c + 1) < plan.kTiles * (col + 1)
  {
    SharersFacts(plan, col);
    assert c + 1 in plan.Sharers(col);
    MulMono(col + 1, plan.part2Tiles, plan.kTiles);
  }

  // --- The kernel's walk ---------------------------------------------------

  // One CTA's schedule variables.
  class Cta {
    const plan: Plan
    const cta: nat
    var sliceRow: int
    var sliceColPar: int
    var sliceCol: int
    var sliceIters: int
    var sliceCount: int
    var sliceIdx: int
    var parId: int
    var locksOff: int
    var part1Iters: int
    var redoI: int
    var inPart2: bool

    // About to take whole tile number i of this CTA (or none are left).
    ghost predicate AtWhole(i: int)
      reads this
      requires plan.Valid() && cta < plan.grid
    {
      && !inPart2 && 0 <= i <= plan.Rounds(cta) && part1Iters == plan.Rounds(cta) - i
      && sliceCount == 1 && sliceIdx == 0 && sliceRow == 0
      && redoI == cta + i * plan.grid
      && locksOff == FirstLock()
      && (i < plan.Rounds(cta) ==>
            InList(i) && sliceColPar == plan.WholeTile(redoI))
    }

    ghost predicate InList(i: int)
      requires plan.Valid() && cta < plan.grid
    {
      0 <= cta + i * plan.grid < plan.wholeTiles
    }

    ghost function FirstLock(): int
      requires plan.Valid()
    {
      if plan.part2Tiles >= plan.grid then cta else (plan.iters * cta) / plan.kTiles - 1
    }

    // About to take the stripe on from row sliceRow of tile sliceColPar.
    ghost predicate AtStripe()
      reads this
      requires plan.Valid() && cta < plan.grid
    {
      && inPart2 && 0 <= sliceColPar && 0 <= sliceRow < plan.kTiles
      && plan.iters * cta <= sliceColPar * plan.kTiles + sliceRow
      && parId * plan.nTiles + sliceCol == sliceColPar + plan.mnTiles - plan.part2Tiles
      && (More() ==> locksOff == if plan.part2Tiles >= plan.grid then cta else sliceColPar - 1)
    }

    // Part of the stripe is left.
    ghost predicate More()
      reads this
    {
      sliceColPar * plan.kTiles + sliceRow < plan.StripeEnd(cta)
    }

    function Current(): Slice
      reads this
    {
      Slice(parId * plan.nTiles + sliceCol, sliceRow, sliceIters, sliceCount, sliceIdx,
            if sliceCount > 1 then locksOff else -1)
    }

    constructor (plan: Plan, cta: nat)
      requires plan.Valid() && cta < plan.grid
      ensures this.plan == plan && this.cta == cta && AtWhole(0)
    {
      this.plan := plan;
      this.cta := cta;
      inPart2 := false;
      part1Iters :=
        if plan.redoMode then
          (if cta < |plan.redo| then (|plan.redo| - cta + plan.grid - 1) / plan.grid else 0)
        else (plan.mnTiles - plan.part2Tiles) / plan.grid;
      sliceRow := 0;
      redoI := cta;
      sliceColPar := if plan.redoMode then (if cta < |plan.redo| then plan.redo[cta] else 0) else cta;
      sliceCol := 0;
      sliceIters := plan.kTiles;
      sliceCount := 1;
      sliceIdx := 0;
      parId := 0;
      locksOff := if plan.part2Tiles >= plan.grid then cta else (plan.iters * cta) / plan.kTiles - 1;
      new;
      RoundsAre(plan, cta, 0);
    }

    method InitPart1Slice(ghost i: int)
      requires plan.Valid() && cta < plan.grid && AtWhole(i) && part1Iters > 0
      modifies this
      ensures !inPart2 && part1Iters == old(part1Iters) - 1
      ensures sliceRow == old(sliceRow) && redoI == old(redoI) && sliceColPar == old(sliceColPar)
      ensures sliceCount == 1 && sliceIdx == 0 && locksOff == old(locksOff)
      ensures 0 <= redoI < plan.wholeTiles && sliceIters > 0
      ensures Current() == Slice(plan.WholeTile(redoI), 0, plan.kTiles, 1, 0, -1)
    {
      part1Iters := part1Iters - 1;
      parId := sliceColPar / plan.nTiles;
      sliceCol := sliceColPar % plan.nTiles;
      sliceIters := plan.kTiles;
      DivBounds(sliceColPar, plan.nTiles);
    }

    method EnterPart2()
      requires plan.Valid() && cta < plan.grid && AtWhole(plan.Rounds(cta))
      modifies this
      ensures AtStripe()
      ensures sliceColPar == (plan.iters * cta) / plan.kTiles
      ensures sliceRow == (plan.iters * cta) % plan.kTiles
    {
      inPart2 := true;
      var start := plan.iters * cta;
      MulMono(0, cta, plan.iters);
      DivBounds(start, plan.kTiles);
      DivGalois(0, start, plan.kTiles);
      sliceColPar := start / plan.kTiles;
      sliceRow := start % plan.kTiles;
      var tile := sliceColPar + plan.mnTiles - plan.part2Tiles;
      sliceCol := tile % plan.nTiles;
      parId := tile / plan.nTiles;
      DivBounds(tile, plan.nTiles);
    }

    // Working on the stripe's slice in tile sliceColPar.
    ghost predicate OnStripe()
      reads this
      requires plan.Valid() && cta < plan.grid
    {
      && inPart2 && InStripe(plan, cta, sliceColPar, sliceRow) && sliceColPar < plan.part2Tiles
      && parId * plan.nTiles + sliceCol == sliceColPar + plan.mnTiles - plan.part2Tiles
      && sliceIters > 0 && 0 < plan.iters
      && Current() == StripeSlice(plan, cta, sliceColPar, sliceRow)
      && ((sliceColPar + 1) * plan.kTiles < plan.StripeEnd(cta) ==>
            locksOff == if plan.part2Tiles >= plan.grid then cta else sliceColPar)
    }

    method TakeTurn()
      requires plan.Valid() && cta < plan.grid && plan.iters > 0
      requires 0 <= sliceColPar < plan.part2Tiles && cta in plan.Sharers(sliceColPar)
      modifies this`sliceCount, this`sliceIdx
      ensures sliceCount == |plan.Sharers(sliceColPar)|
      ensures sliceIdx == |plan.SharersAbove(sliceColPar, cta)|
    {
      var iters := plan.iters;
      sliceCount := 1;
      sliceIdx := 0;
      SharersFacts(plan, sliceColPar);
      TurnFacts(plan, cta, sliceColPar);
      var colFirst := iters * CeilDiv(plan.kTiles * sliceColPar, iters);
      TurnArithmetic(iters, plan.kTiles * sliceColPar, plan.kTiles * (sliceColPar + 1), cta, colFirst);
      if colFirst <= plan.kTiles * (sliceColPar + 1) {
        var colOff := colFirst - plan.kTiles * sliceColPar;
        assert plan.kTiles - colOff == plan.kTiles * (sliceColPar + 1) - colFirst;
        sliceCount := CeilDiv(plan.kTiles - colOff, iters);
        if colOff > 0 {
          sliceCount := sliceCount + 1;
        }
        var deltaFirst := iters * cta - colFirst;
        if deltaFirst < 0 || (colOff == 0 && deltaFirst == 0) {
          sliceIdx := sliceCount - 1;
        } else {
          sliceIdx := sliceCount - 1 - deltaFirst / iters;
          if colOff > 0 {
            sliceIdx := sliceIdx - 1;
          }
        }
      }
    }

    // The k tiles left of this CTA's stripe in the current tile.
    method CountIters()
      requires plan.Valid() && cta < plan.grid && AtStripe()
      modifies this`sliceIters
      ensures More() ==> sliceIters == SliceLen(plan, cta, sliceColPar, sliceRow) && 0 < sliceIters
      ensures !More() ==> sliceIters == 0
    {
      StripeWork(plan, cta, sliceColPar, sliceRow);
      sliceIters := plan.iters * (cta + 1) - (plan.kTiles * sliceColPar + sliceRow);
      if sliceIters < 0 || sliceColPar >= plan.part2Tiles {
        sliceIters := 0;
      }
      if sliceIters == 0 {
        return;
      }
      if sliceRow + sliceIters > plan.kTiles {
        sliceIters := plan.kTiles - sliceRow;
      }
    }

    // The next block's columns start at 0 again; the tile stays the same.
    method WrapColumn()
      modifies this`sliceCol, this`parId
      ensures parId * plan.nTiles + sliceCol == old(parId * plan.nTiles + sliceCol)
    {
      if sliceCol == plan.nTiles {
        sliceCol := 0;
        parId := parId + 1;
      }
    }

    method NextLock()
      modifies this`locksOff
      ensures locksOff == old(locksOff) +
        if plan.part2Tiles < plan.grid || (sliceCount > 1 && sliceIdx == sliceCount - 1) then 1 else 0
    {
      if plan.part2Tiles >= plan.grid {
        if sliceCount > 1 && sliceIdx == sliceCount - 1 {
          locksOff := locksOff + 1;
        }
      } else {
        locksOff := locksOff + 1;
      }
    }

    // The tile's turn and lock word, then the column wrap.
    method ShareTile()
      requires plan.Valid() && cta < plan.grid && 0 < plan.iters
      requires 0 <= sliceColPar < plan.part2Tiles && cta in plan.Sharers(sliceColPar)
      requires locksOff == if plan.part2Tiles >= plan.grid then cta else sliceColPar - 1
      modifies this`sliceCount, this`sliceIdx, this`locksOff, this`sliceCol, this`parId
      ensures parId * plan.nTiles + sliceCol == old(parId * plan.nTiles + sliceCol)
      ensures sliceCount == |plan.Sharers(sliceColPar)|
      ensures sliceIdx == |plan.SharersAbove(sliceColPar, cta)|
      ensures sliceCount > 1 ==> locksOff == plan.LockOf(sliceColPar)
      ensures (sliceColPar + 1) * plan.kTiles < plan.StripeEnd(cta) ==>
        locksOff == if plan.part2Tiles >= plan.grid then cta else sliceColPar
    {
      TakeTurn();
      LockTurn(plan, cta, sliceColPar);
      assert plan.kTiles * (sliceColPar + 1) == (sliceColPar + 1) * plan.kTiles;
      NextLock();
      WrapColumn();
    }

    method InitPart2Slice()
      requires plan.Valid() && cta < plan.grid && AtStripe()
      modifies this`sliceIters, this`sliceCount, this`sliceIdx, this`locksOff, this`sliceCol, this`parId
      ensures More() ==> OnStripe()
      ensures !More() ==> sliceIters == 0
    {
      CountIters();
      if sliceIters == 0 {
        return;
      }
      StripeMeets(plan, cta, sliceColPar, sliceRow);
      ShareTile();
    }

    method InitSlice(ghost i: int)
      requires plan.Valid() && cta < plan.grid
      requires if inPart2 then AtStripe() else AtWhole(i)
      modifies this
      ensures if old(!inPart2 && part1Iters > 0)
              then OnWhole(i) && part1Iters == old(part1Iters) - 1
              else inPart2 && if More() then OnStripe() else sliceIters == 0
      ensures old(inPart2) ==> sliceColPar == old(sliceColPar) && sliceRow == old(sliceRow)
      ensures old(!inPart2) && inPart2 ==>
        (i == plan.Rounds(cta)
         && sliceColPar == (plan.iters * cta) / plan.kTiles
         && sliceRow == (plan.iters * cta) % plan.kTiles)
    {
      if !inPart2 && part1Iters == 0 {
        EnterPart2();
      }
      if !inPart2 {
        InitPart1Slice(i);
      } else {
        InitPart2Slice();
      }
    }

    // Working on whole tile number i.
    ghost predicate OnWhole(i: int)
      reads this
      requires plan.Valid() && cta < plan.grid
    {
      && !inPart2 && 0 <= i < plan.Rounds(cta) && sliceIters > 0
      && part1Iters == plan.Rounds(cta) - i - 1 && sliceRow == 0
      && redoI == cta + i * plan.grid && 0 <= redoI < plan.wholeTiles
      && (!plan.redoMode ==> sliceColPar == redoI)
      && sliceCount == 1 && sliceIdx == 0 && locksOff == FirstLock()
      && Current() == Slice(plan.WholeTile(redoI), 0, plan.kTiles, 1, 0, -1)
    }

    method AdvanceWhole(ghost i: int)
      requires plan.Valid() && cta < plan.grid && OnWhole(i)
      modifies this`redoI, this`sliceColPar
      ensures AtWhole(i + 1)
    {
      redoI := redoI + plan.grid;
      sliceColPar := if plan.redoMode then (if redoI < |plan.redo| then plan.redo[redoI] else 0)
                     else sliceColPar + plan.grid;
      RoundsAre(plan, cta, i + 1);
      MulMono(0, i + 1, plan.grid);
    }

    method AdvanceStripe()
      requires plan.Valid() && cta < plan.grid && OnStripe()
      modifies this`sliceColPar, this`sliceCol, this`sliceRow
      ensures AtStripe() && sliceRow == 0 && sliceColPar == old(sliceColPar) + 1
    {
      NextTile(plan.kTiles, sliceColPar);
      sliceColPar := sliceColPar + 1;
      sliceCol := sliceCol + 1;
      sliceRow := 0;
    }

    // Between slices: the current slice is set up, or there is none left.
    ghost predicate Working(i: int)
      reads this
      requires plan.Valid() && cta < plan.grid
    {
      if !inPart2 then OnWhole(i) else if More() then OnStripe() else sliceIters == 0
    }

    // log holds what came before the current slice.
    ghost predicate Logged(i: int, log: seq<Slice>)
      reads this
      requires plan.Valid() && cta < plan.grid && Working(i)
    {
      if !inPart2 then log == WholeSlices(plan, cta, i)
      else 0 <= sliceRow < plan.kTiles
           && log + StripeSlices(plan, cta, sliceColPar, sliceRow) == Schedule(plan, cta)
    }

    // On to the next slice once the current one is done.
    method Advance(ghost i: int, ghost log: seq<Slice>) returns (ghost next: int)
      requires plan.Valid() && cta < plan.grid
      requires Working(i) && sliceIters > 0 && Logged(i, log)
      modifies this
      ensures Working(next) && Logged(next, log + [old(Current())])
      ensures if old(inPart2) then inPart2 && sliceColPar > old(sliceColPar)
              else inPart2 || part1Iters < old(part1Iters)
    {
      next := i;
      if !inPart2 {
        AdvanceWhole(i);
        next := i + 1;
      } else {
        StripeStep(plan, cta, sliceColPar, sliceRow, log);
        AdvanceStripe();
      }
      InitSlice(next);
    }

    // The main loop: what the CTA computes, in order.
    method Run() returns (log: seq<Slice>)
      requires plan.Valid() && cta < plan.grid && AtWhole(0)
      modifies this
      ensures log == Schedule(plan, cta)
    {
      log := [];
      ghost var i := 0;
      InitSlice(i);
      while sliceIters > 0
        invariant Working(i) && Logged(i, log)
        decreases if inPart2 then 0 else part1Iters + 1, plan.part2Tiles - sliceColPar
      {
        var slice := Current();
        ghost var next := Advance(i, log);
        log := log + [slice];
        i := next;
      }
    }
  }

  lemma StripeStep(plan: Plan, c: int, col: int, row: int, log: seq<Slice>)
    requires 0 < plan.iters && InStripe(plan, c, col, row)
    ensures log + StripeSlices(plan, c, col, row)
            == (log + [StripeSlice(plan, c, col, row)]) + StripeSlices(plan, c, col + 1, 0)
  {
  }

  // What init_part2_slice computes before clipping to the tile.
  lemma StripeWork(plan: Plan, c: int, col: int, row: int)
    requires 0 <= row < plan.kTiles
    ensures var pos := col * plan.kTiles + row;
      (pos < plan.StripeEnd(c) <==> plan.iters * (c + 1) > pos && col < plan.part2Tiles)
    ensures var pos := col * plan.kTiles + row;
      pos < plan.StripeEnd(c) ==>
      SliceLen(plan, c, col, row)
      == var left := plan.iters * (c + 1) - pos; if left <= plan.kTiles - row then left else plan.kTiles - row
  {
    var total := plan.kTiles * plan.part2Tiles;
    if col < plan.part2Tiles {
      MulMono(col + 1, plan.part2Tiles, plan.kTiles);
      assert (col + 1) * plan.kTiles == col * plan.kTiles + plan.kTiles <= total;
    } else {
      MulMono(plan.part2Tiles, col, plan.kTiles);
      assert total <= col * plan.kTiles;
    }
  }

  // How the walk's lock word reaches the tile's.
  lemma LockTurn(plan: Plan, c: int, col: int)
    requires plan.Valid() && 0 <= col < plan.part2Tiles && 0 < plan.iters
    requires c in plan.Sharers(col)
    ensures var count, idx := |plan.Sharers(col)|, |plan.SharersAbove(col, c)|;
            plan.part2Tiles >= plan.grid && count > 1 ==>
              (if idx == count - 1
               then plan.LockOf(col) == c + 1 && plan.StripeEnd(c) < plan.kTiles * (col + 1)
               else plan.LockOf(col) == c)
  {
    SharersFacts(plan, col);
    TurnFacts(plan, c, col);
    if plan.part2Tiles >= plan.grid {
      FullGridPairs(plan, col);
      if c < plan.LastCta(col) {
        LowerStopsInside(plan, c, col);
      }
    }
  }
}
