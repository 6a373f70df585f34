// The set-associative LRU row cache and the fetch through it.
module RowCache {
  import opened Arith
  import RowRead

  type Row = RowRead.Row

  // --- Sorting -------------------------------------------------------------------------

  // x comes before y: smaller key, ties to the lower index.
  predicate Before(key: nat -> int, x: nat, y: nat) {
    key(x) < key(y) || (key(x) == key(y) && x < y)
  }

  ghost predicate SortedBy(key: nat -> int, order: seq<nat>) {
    forall a, b | 0 <= a < b < |order| :: Before(key, order[a], order[b])
  }

  // order lists 0..n-1, each once.
  ghost predicate Lists(order: seq<nat>, n: nat) {
    && |order| == n
    && (forall a | 0 <= a < n :: order[a] < n)
    && (forall x: nat | x < n :: x in order)
  }

  // The stable sort of 0..n-1 by key: what std::sort gives for pairs (key, index), and
  // std::stable_sort for indices.
  method SortIndices(key: nat -> int, n: nat) returns (order: seq<nat>)
    ensures SortedBy(key, order) && Lists(order, n)
  {
    order := [];
    for x := 0 to n
      invariant SortedBy(key, order) && Lists(order, x)
    {
      var p := |order|;
      while p > 0 && Before(key, x, order[p - 1])
        invariant 0 <= p <= |order|
        invariant forall a | p <= a < |order| :: Before(key, x, order[a])
      {
        p := p - 1;
      }
      InsertAt(key, order, x, p);
      order := order[..p] + [x] + order[p..];
    }
  }

  lemma InsertAt(key: nat -> int, order: seq<nat>, x: nat, p: nat)
    requires SortedBy(key, order) && Lists(order, x) && p <= |order|
    requires forall a | p <= a < |order| :: Before(key, x, order[a])
    requires p > 0 ==> !Before(key, x, order[p - 1])
    ensures SortedBy(key, order[..p] + [x] + order[p..]) && Lists(order[..p] + [x] + order[p..], x + 1)
  {
    var after := order[..p] + [x] + order[p..];
    forall a | 0 <= a < p
      ensures Before(key, order[a], x)
    {
      assert a == p - 1 || Before(key, order[a], order[p - 1]);
    }
    forall y: nat | y < x + 1
      ensures y in after
    {
      if y != x {
        assert y in order;
        var a :| 0 <= a < |order| && order[a] == y;
        assert after[if a < p then a else a + 1] == y;
      } else {
        assert after[p] == x;
      }
    }
    forall a, b | 0 <= a < b < |after|
      ensures Before(key, after[a], after[b])
    {
      SortedAfter(key, order, x, p, after, a, b);
    }
  }

  lemma SortedAfter(key: nat -> int, order: seq<nat>, x: nat, p: nat, after: seq<nat>, a: nat, b: nat)
    requires SortedBy(key, order) && p <= |order| && after == order[..p] + [x] + order[p..] && a < b < |after|
    requires forall c | p <= c < |order| :: Before(key, x, order[c])
    requires forall c | 0 <= c < p :: Before(key, order[c], x)
    ensures Before(key, after[a], after[b])
  {
    var i := if a < p then a else a - 1;
    var j := if b < p then b else b - 1;
    if a != p && b != p {
      assert after[a] == order[i] && after[b] == order[j];
    }
  }

  // --- The cache's contents ----------------------------------------------------------------

  const GOLDEN := 0x9E3779B97F4A7C15
  const TWO32 := 0x1_0000_0000
  const TWO64 := 0x1_0000_0000_0000_0000

  // Fibonacci hashing of a row onto the sets.
  function Mixed(row: nat): nat {
    row * GOLDEN % TWO64 / TWO32
  }

  function SetOf(sets: nat, row: nat): (s: nat)
    requires 0 < sets
    ensures s < sets
  {
    Offset(sets, Mixed(row))
  }

  // As the program computes it.
  lemma SetOfIsMod(sets: nat, row: nat)
    requires 0 < sets
    ensures SetOf(sets, row) == Mixed(row) % sets == (row * 0x9E3779B97F4A7C15 % 0x1_0000_0000_0000_0000 / 0x1_0000_0000) % sets
  {
    var m := Mixed(row);
    AtOfArea(sets, m);
    AtIs(sets, Area(sets, m), Offset(sets, m));
    DivModUnique(m, sets, Area(sets, m), Offset(sets, m));
  }

  datatype Entry = Entry(tag: int, stamp: int, data: Row)

  // An entry is empty (tag -1, stamp 0), or holds the bytes of a row of its own set.
  ghost predicate EntryOk(table: nat -> Row, sets: nat, ways: nat, clock: int, e: nat, x: Entry)
    requires 0 < sets && 0 < ways
  {
    && -1 <= x.tag && (x.tag == -1 <==> x.stamp == 0) && 0 <= x.stamp <= clock
    && (x.tag >= 0 ==> x.data == table(x.tag) && SetOf(sets, x.tag) == Area(ways, e))
  }

  ghost predicate CacheOk(table: nat -> Row, sets: nat, ways: nat, clock: int, es: seq<Entry>) {
    && 0 < ways && |es| == At(ways, sets, 0)
    && (0 < sets ==> forall e: nat | e < |es| :: EntryOk(table, sets, ways, clock, e, es[e]))
    && (forall e, f | 0 <= e < |es| && 0 <= f < |es| && es[e].tag >= 0 && es[e].tag == es[f].tag :: e == f)
  }

  ghost predicate Cached(es: seq<Entry>, row: int) {
    row >= 0 && exists e :: 0 <= e < |es| && es[e].tag == row
  }

  // How many entries hold a row.
  function Occupied(es: seq<Entry>): (n: nat)
    ensures n <= |es|
  {
    if es == [] then 0 else Occupied(es[..|es| - 1]) + (if es[|es| - 1].tag >= 0 then 1 else 0)
  }

  // The entries that hold a row.
  ghost function Holding(es: seq<Entry>): set<nat> {
    set e: nat | e < |es| && es[e].tag >= 0
  }

  lemma {:induction false} OccupiedIs(es: seq<Entry>)
    ensures Occupied(es) == |Holding(es)|
  {
    if es == [] {
      assert Holding(es) == {};
    } else {
      OccupiedIs(es[..|es| - 1]);
      HoldingNext(es, |es| - 1);
    }
  }

  lemma HoldingNext(es: seq<Entry>, n: nat)
    requires |es| == n + 1
    ensures |Holding(es)| == |Holding(es[..n])| + (if es[n].tag >= 0 then 1 else 0)
  {
    assert Holding(es) == Holding(es[..n]) + (if es[n].tag >= 0 then {n} else {});
  }

  lemma {:induction false} OccupiedUpdate(es: seq<Entry>, e: nat, x: Entry)
    requires e < |es|
    ensures Occupied(es[e := x]) == Occupied(es) + (if x.tag >= 0 then 1 else 0) - (if es[e].tag >= 0 then 1 else 0)
    decreases |es|
  {
    var n := |es| - 1;
    if e < n {
      assert es[e := x][..n] == es[..n][e := x];
      OccupiedUpdate(es[..n], e, x);
    } else {
      assert es[e := x][..n] == es[..n];
    }
  }

  lemma EntryOfSet(sets: nat, ways: nat, s: nat, w: nat)
    requires s < sets && w < ways
    ensures At(ways, s, w) < At(ways, sets, 0) && Area(ways, At(ways, s, w)) == s && Offset(ways, At(ways, s, w)) == w
  {
    AtBelow(ways, s, w, sets);
    AtInverse(ways, s, w);
  }

  // A row of a set is cached only in that set's ways.
  lemma CachedWay(table: nat -> Row, sets: nat, ways: nat, clock: int, es: seq<Entry>, row: nat) returns (w: nat)
    requires CacheOk(table, sets, ways, clock, es) && 0 < sets && Cached(es, row)
    ensures w < ways && At(ways, SetOf(sets, row), w) < |es| && es[At(ways, SetOf(sets, row), w)].tag == row
  {
    var e: nat :| e < |es| && es[e].tag == row;
    assert EntryOk(table, sets, ways, clock, e, es[e]);
    w := Offset(ways, e);
    AtOfArea(ways, e);
  }

  // --- Inserting ------------------------------------------------------------------------------

  ghost predicate Keyed(sets: nat, cands: seq<nat>, key: nat -> int)
    requires 0 < sets
  {
    forall m: nat | m < |cands| :: key(m) == SetOf(sets, cands[m])
  }

  // How many earlier candidates share candidate m's set: its rank there.
  function RankOf(sets: nat, cands: seq<nat>, m: nat): (k: nat)
    requires 0 < sets && m < |cands|
    decreases m
  {
    CountIn(sets, cands, m, SetOf(sets, cands[m]))
  }

  // The positions before n of rows of set s.
  ghost function RowsIn(sets: nat, rows: seq<nat>, n: nat, s: nat): (at: set<nat>)
    requires 0 < sets && n <= |rows|
  {
    set j: nat | j < n && SetOf(sets, rows[j]) == s
  }

  // A candidate's rank: how many before it share its set.
  lemma RankIs(sets: nat, cands: seq<nat>, m: nat)
    requires 0 < sets && m < |cands|
    ensures RankOf(sets, cands, m) == |RowsIn(sets, cands, m, SetOf(sets, cands[m]))|
  {
    CountIs(sets, cands, m, SetOf(sets, cands[m]));
  }

  lemma {:induction false} CountIs(sets: nat, rows: seq<nat>, n: nat, s: nat)
    requires 0 < sets && n <= |rows|
    ensures CountIn(sets, rows, n, s) == |RowsIn(sets, rows, n, s)|
    decreases n
  {
    if n == 0 {
      assert RowsIn(sets, rows, 0, s) == {};
    } else {
      CountIs(sets, rows, n - 1, s);
      RowsInNext(sets, rows, n - 1, s);
    }
  }

  lemma RowsInNext(sets: nat, rows: seq<nat>, n: nat, s: nat)
    requires 0 < sets && n < |rows|
    ensures |RowsIn(sets, rows, n + 1, s)| == |RowsIn(sets, rows, n, s)| + (if SetOf(sets, rows[n]) == s then 1 else 0)
  {
    assert RowsIn(sets, rows, n + 1, s) == RowsIn(sets, rows, n, s) + (if SetOf(sets, rows[n]) == s then {n} else {});
  }

  // How many of the first n rows are in set s.
  function CountIn(sets: nat, rows: seq<nat>, n: nat, s: nat): (k: nat)
    requires 0 < sets && n <= |rows|
    ensures k <= n
    decreases n
  {
    if n == 0 then 0 else CountIn(sets, rows, n - 1, s) + (if SetOf(sets, rows[n - 1]) == s then 1 else 0)
  }

  lemma {:induction false} CountSkips(sets: nat, rows: seq<nat>, m: nat, n: nat, s: nat)
    requires 0 < sets && m <= n <= |rows| && forall i | m <= i < n :: SetOf(sets, rows[i]) != s
    ensures CountIn(sets, rows, n, s) == CountIn(sets, rows, m, s)
    decreases n
  {
    if m < n {
      CountSkips(sets, rows, m, n - 1, s);
    }
  }

  lemma {:induction false} CountGrows(sets: nat, rows: seq<nat>, m: nat, n: nat, s: nat)
    requires 0 < sets && m <= n <= |rows|
    ensures CountIn(sets, rows, m, s) <= CountIn(sets, rows, n, s)
    decreases n
  {
    if m < n {
      CountGrows(sets, rows, m, n - 1, s);
    }
  }

  // Nothing lies between neighbours of a sorted list of everything, nor before its first.
  lemma Neighbours(key: nat -> int, order: seq<nat>, n: nat, g: nat, x: nat)
    requires SortedBy(key, order) && Lists(order, n) && g < n && x < n && Before(key, x, order[g])
    ensures g > 0 && (x == order[g - 1] || Before(key, x, order[g - 1]))
  {
    assert x in order;
    var a :| 0 <= a < |order| && order[a] == x;
    assert a < g;
  }

  // Along the candidates sorted by set and then row, ranks count up from 0 in each set.
  lemma FirstOfSet(sets: nat, cands: seq<nat>, order: seq<nat>, key: nat -> int, g: nat)
    requires 0 < sets && SortedBy(key, order) && Lists(order, |cands|) && g < |order|
    requires Keyed(sets, cands, key)
    requires g > 0 ==> SetOf(sets, cands[order[g - 1]]) != SetOf(sets, cands[order[g]])
    ensures RankOf(sets, cands, order[g]) == 0
  {
    var m := order[g];
    forall x | 0 <= x < m
      ensures SetOf(sets, cands[x]) != SetOf(sets, cands[m])
    {
      assert key(x) == SetOf(sets, cands[x]) && key(m) == SetOf(sets, cands[m]);
      if key(x) == key(m) {
        Neighbours(key, order, |cands|, g, x);
      }
    }
    CountSkips(sets, cands, 0, m, SetOf(sets, cands[m]));
  }

  lemma NextOfSet(sets: nat, cands: seq<nat>, order: seq<nat>, key: nat -> int, g: nat)
    requires 0 < sets && SortedBy(key, order) && Lists(order, |cands|) && 0 < g < |order|
    requires Keyed(sets, cands, key)
    requires SetOf(sets, cands[order[g - 1]]) == SetOf(sets, cands[order[g]])
    ensures RankOf(sets, cands, order[g]) == RankOf(sets, cands, order[g - 1]) + 1
  {
    var p, m := order[g - 1], order[g];
    assert Before(key, p, m);
    forall x | p < x < m
      ensures SetOf(sets, cands[x]) != SetOf(sets, cands[m])
    {
      assert key(x) == SetOf(sets, cands[x]) && key(m) == SetOf(sets, cands[m]);
      if key(x) == key(m) {
        Neighbours(key, order, |cands|, g, x);
      }
    }
    RankSteps(sets, cands, p, m);
  }

  lemma RankSteps(sets: nat, cands: seq<nat>, p: nat, m: nat)
    requires 0 < sets && p < m < |cands| && SetOf(sets, cands[p]) == SetOf(sets, cands[m])
    requires forall x | p < x < m :: SetOf(sets, cands[x]) != SetOf(sets, cands[m])
    ensures RankOf(sets, cands, m) == RankOf(sets, cands, p) + 1
  {
    CountSkips(sets, cands, p + 1, m, SetOf(sets, cands[m]));
  }

  function StampOf(es: seq<Entry>, ways: nat, s: nat, w: nat): int {
    if At(ways, s, w) < |es| then es[At(ways, s, w)].stamp else 0
  }

  // The ways of set s, least recently used first, empty ones before all, ties to the
  // lower way.
  ghost predicate LruOrder(es: seq<Entry>, ways: nat, s: nat, lru: seq<nat>) {
    SortedBy((w: nat) => StampOf(es, ways, s, w), lru) && Lists(lru, ways)
  }

  // What an insert of the candidates does: in each set, candidate number k goes into the
  // k-th way in LRU order; candidates past the last way are dropped, and everything else
  // stays. lrus are the orders of the sets that take candidates, placed the candidate
  // that went to each set and rank.
  ghost predicate Inserted(table: nat -> Row, sets: nat, ways: nat, clock: int, before: seq<Entry>, now: seq<Entry>,
                                cands: seq<nat>, lrus: map<nat, seq<nat>>, placed: map<(nat, nat), nat>) {
    && 0 < sets && |now| == |before|
    && (forall s | s in lrus :: s < sets && LruOrder(before, ways, s, lrus[s]))
    && (forall p {:trigger PlacedOk(sets, ways, cands, lrus, p, placed[p])} | p in placed :: PlacedOk(sets, ways, cands, lrus, p, placed[p]))
    && (forall s: nat, k: nat | s in lrus && k < ways :: RankFilled(table, ways, clock, before, now, cands, lrus, placed, s, k))
    && (forall s: nat, w: nat | s < sets && s !in lrus && w < ways :: WaySame(before, now, ways, s, w))
  }

  ghost predicate PlacedOk(sets: nat, ways: nat, cands: seq<nat>, lrus: map<nat, seq<nat>>, p: (nat, nat), m: nat)
    requires 0 < sets
  {
    p.0 in lrus && p.1 < ways && m < |cands| && SetOf(sets, cands[m]) == p.0 && RankOf(sets, cands, m) == p.1
  }

  ghost predicate RankFilled(table: nat -> Row, ways: nat, clock: int, before: seq<Entry>, now: seq<Entry>,
                                  cands: seq<nat>, lrus: map<nat, seq<nat>>, placed: map<(nat, nat), nat>, s: nat, k: nat) {
    s in lrus && k < |lrus[s]| && |now| == |before|
    && var e := At(ways, s, lrus[s][k]);
    e < |now|
    && if (s, k) in placed then placed[(s, k)] < |cands| && now[e] == Entry(cands[placed[(s, k)]], clock, table(cands[placed[(s, k)]]))
       else now[e] == before[e]
  }

  ghost predicate WaySame(before: seq<Entry>, now: seq<Entry>, ways: nat, s: nat, w: nat) {
    |now| == |before| && (At(ways, s, w) < |now| ==> now[At(ways, s, w)] == before[At(ways, s, w)])
  }

  // The candidates up to position g of their order have been placed, if their set has
  // room for them.
  ghost predicate PlacedTo(sets: nat, ways: nat, cands: seq<nat>, order: seq<nat>, g: nat, lrus: map<nat, seq<nat>>, placed: map<(nat, nat), nat>)
  {
    && 0 < sets && g <= |order| && Lists(order, |cands|)
    && (forall a {:trigger IsPlaced(sets, ways, cands, lrus, placed, order[a])} | 0 <= a < g :: IsPlaced(sets, ways, cands, lrus, placed, order[a]))
    && (forall p, a | p in placed && g <= a < |order| :: placed[p] != order[a])
  }

  ghost predicate IsPlaced(sets: nat, ways: nat, cands: seq<nat>, lrus: map<nat, seq<nat>>, placed: map<(nat, nat), nat>, m: nat)
    requires 0 < sets
  {
    m < |cands|
    && var p: (nat, nat) := (SetOf(sets, cands[m]), RankOf(sets, cands, m));
    p.0 in lrus && (p.1 < ways ==> p in placed && placed[p] == m)
  }

  // One store of the insert: candidate m, of rank k in set s, into its way.
  lemma StoreKeeps(table: nat -> Row, sets: nat, ways: nat, clock: int, es: seq<Entry>, e: nat, row: nat)
    requires CacheOk(table, sets, ways, clock, es) && 0 < sets && 0 < clock && e < |es|
    requires Area(ways, e) == SetOf(sets, row) && !Cached(es, row)
    ensures CacheOk(table, sets, ways, clock, es[e := Entry(row, clock, table(row))])
    ensures forall other: int :: Cached(es[e := Entry(row, clock, table(row))], other) ==> other == row || Cached(es, other)
  {
    var after := es[e := Entry(row, clock, table(row))];
    forall f: nat | f < |after|
      ensures EntryOk(table, sets, ways, clock, f, after[f])
    {
      assert EntryOk(table, sets, ways, clock, f, es[f]);
    }
  }

  lemma StorePlaced(table: nat -> Row, sets: nat, ways: nat, clock: int, before: seq<Entry>, now: seq<Entry>,
                         cands: seq<nat>, lrus: map<nat, seq<nat>>, placed: map<(nat, nat), nat>, s: nat, k: nat, m: nat, e: nat)
    requires Inserted(table, sets, ways, clock, before, now, cands, lrus, placed) && |before| == At(ways, sets, 0)
    requires s in lrus && k < ways && m < |cands| && SetOf(sets, cands[m]) == s && RankOf(sets, cands, m) == k
    requires s < sets && k < |lrus[s]| && lrus[s][k] < ways && e == At(ways, s, lrus[s][k]) && e < |now|
    ensures Inserted(table, sets, ways, clock, before, now[e := Entry(cands[m], clock, table(cands[m]))], cands, lrus, placed[(s, k) := m])
  {
    var after := now[e := Entry(cands[m], clock, table(cands[m]))];
    var more := placed[(s, k) := m];
    EntryOfSet(sets, ways, s, lrus[s][k]);
    forall t: nat, j: nat | t in lrus && j < ways
      ensures RankFilled(table, ways, clock, before, after, cands, lrus, more, t, j)
    {
      assert RankFilled(table, ways, clock, before, now, cands, lrus, placed, t, j);
      assert LruOrder(before, ways, t, lrus[t]);
      EntryOfSet(sets, ways, t, lrus[t][j]);
      if t == s && j != k {
        LruDistinct(before, ways, s, lrus[s], j, k);
      }
    }
    forall t: nat, w: nat | t < sets && t !in lrus && w < ways
      ensures WaySame(before, after, ways, t, w)
    {
      assert WaySame(before, now, ways, t, w);
      EntryOfSet(sets, ways, t, w);
    }
  }

  lemma LruDistinct(es: seq<Entry>, ways: nat, s: nat, lru: seq<nat>, j: nat, k: nat)
    requires LruOrder(es, ways, s, lru) && j < ways && k < ways && j != k
    ensures lru[j] != lru[k]
  {
  }

  // Candidates are distinct rows the cache does not hold.
  ghost predicate Fresh(es: seq<Entry>, cands: seq<nat>, order: seq<nat>, g: nat) {
    && g <= |order| == |cands| && Lists(order, |cands|)
    && (forall m, n | 0 <= m < n < |cands| :: cands[m] != cands[n])
    && (forall a | g <= a < |order| :: !Cached(es, cands[order[a]]))
  }

  // The state of an insert that has handled the candidates up to position g.
  ghost predicate Inserting(table: nat -> Row, sets: nat, ways: nat, clock: int, before: seq<Entry>, now: seq<Entry>,
                                 cands: seq<nat>, order: seq<nat>, g: nat, lrus: map<nat, seq<nat>>, placed: map<(nat, nat), nat>,
                                 inserted: int, evicted: int) {
    && CacheOk(table, sets, ways, clock, now) && 0 < clock
    && Inserted(table, sets, ways, clock, before, now, cands, lrus, placed)
    && PlacedTo(sets, ways, cands, order, g, lrus, placed) && Fresh(now, cands, order, g)
    && inserted == |placed| && Occupied(now) == Occupied(before) + inserted - evicted
  }

  // The first candidate of a set brings in the set's order.
  lemma OpenSet(table: nat -> Row, sets: nat, ways: nat, clock: int, before: seq<Entry>, now: seq<Entry>,
                     cands: seq<nat>, order: seq<nat>, g: nat, lrus: map<nat, seq<nat>>, placed: map<(nat, nat), nat>,
                     s: nat, lru: seq<nat>)
    requires Inserted(table, sets, ways, clock, before, now, cands, lrus, placed) && s !in lrus && s < sets
    requires LruOrder(before, ways, s, lru) && |now| == At(ways, sets, 0)
    ensures Inserted(table, sets, ways, clock, before, now, cands, lrus[s := lru], placed)
  {
    var more := lrus[s := lru];
    forall p | p in placed
      ensures PlacedOk(sets, ways, cands, more, p, placed[p]) && p.0 != s
    {
      assert PlacedOk(sets, ways, cands, lrus, p, placed[p]);
    }
    forall t: nat, k: nat | t in more && k < ways
      ensures RankFilled(table, ways, clock, before, now, cands, more, placed, t, k)
    {
      if t == s {
        EntryOfSet(sets, ways, s, lru[k]);
        assert WaySame(before, now, ways, s, lru[k]);
      } else {
        assert RankFilled(table, ways, clock, before, now, cands, lrus, placed, t, k);
      }
    }
    forall p | p in placed
      ensures PlacedOk(sets, ways, cands, more, p, placed[p])
    {
      assert PlacedOk(sets, ways, cands, lrus, p, placed[p]);
    }
  }

  // A candidate not handled yet has not been placed.
  lemma NotYetPlaced(sets: nat, ways: nat, cands: seq<nat>, order: seq<nat>, g: nat, lrus: map<nat, seq<nat>>, placed: map<(nat, nat), nat>)
    requires PlacedTo(sets, ways, cands, order, g, lrus, placed) && g < |order| && SortedList(order)
    requires forall p | p in placed :: PlacedOk(sets, ways, cands, lrus, p, placed[p])
    ensures (SetOf(sets, cands[order[g]]), RankOf(sets, cands, order[g])) !in placed
  {
    var m := order[g];
    var p: (nat, nat) := (SetOf(sets, cands[m]), RankOf(sets, cands, m));
    if p in placed {
      assert PlacedOk(sets, ways, cands, lrus, p, placed[p]);
      SameRank(sets, cands, m, placed[p]);
    }
  }

  lemma PlacedNext(sets: nat, ways: nat, cands: seq<nat>, order: seq<nat>, g: nat, lrus: map<nat, seq<nat>>, placed: map<(nat, nat), nat>,
                   p: (nat, nat), more: map<(nat, nat), nat>)
    requires PlacedTo(sets, ways, cands, order, g, lrus, placed) && g < |order| && p.0 in lrus && p !in placed
    requires p == (SetOf(sets, cands[order[g]]), RankOf(sets, cands, order[g]))
    requires more == if p.1 < ways then placed[p := order[g]] else placed
    requires SortedList(order)
    ensures PlacedTo(sets, ways, cands, order, g + 1, lrus, more)
  {
    forall a | 0 <= a < g + 1
      ensures IsPlaced(sets, ways, cands, lrus, more, order[a])
    {
      if a < g {
        assert IsPlaced(sets, ways, cands, lrus, placed, order[a]);
      }
    }
  }

  ghost predicate SortedList(order: seq<nat>) {
    forall a, b | 0 <= a < b < |order| :: order[a] != order[b]
  }

  // Two candidates of one set have different ranks.
  lemma SameRank(sets: nat, cands: seq<nat>, m: nat, n: nat)
    requires 0 < sets && m < |cands| && n < |cands| && SetOf(sets, cands[m]) == SetOf(sets, cands[n])
    requires RankOf(sets, cands, m) == RankOf(sets, cands, n)
    ensures m == n
  {
    if m < n {
      RankGrows(sets, cands, m, n);
    } else if n < m {
      RankGrows(sets, cands, n, m);
    }
  }

  lemma RankGrows(sets: nat, cands: seq<nat>, m: nat, n: nat)
    requires 0 < sets && m < n < |cands| && SetOf(sets, cands[m]) == SetOf(sets, cands[n])
    ensures RankOf(sets, cands, m) < RankOf(sets, cands, n)
  {
    CountGrows(sets, cands, m + 1, n, SetOf(sets, cands[m]));
  }

  // Ranks have no gaps.
  lemma {:induction false} RankBelow(sets: nat, cands: seq<nat>, n: nat, s: nat, k: nat) returns (m: nat)
    requires 0 < sets && n <= |cands| && k < CountIn(sets, cands, n, s)
    ensures m < n && SetOf(sets, cands[m]) == s && RankOf(sets, cands, m) == k
    decreases n
  {
    if k < CountIn(sets, cands, n - 1, s) {
      m := RankBelow(sets, cands, n - 1, s, k);
    } else {
      m := n - 1;
    }
  }

  lemma Untouched(table: nat -> Row, sets: nat, ways: nat, clock: int, before: seq<Entry>, now: seq<Entry>,
                       cands: seq<nat>, lrus: map<nat, seq<nat>>, placed: map<(nat, nat), nat>, s: nat, w: nat)
    requires Inserted(table, sets, ways, clock, before, now, cands, lrus, placed)
    requires s < sets && s !in lrus && w < ways && At(ways, s, w) < |now|
    ensures now[At(ways, s, w)] == before[At(ways, s, w)]
  {
    assert WaySame(before, now, ways, s, w);
  }

  // If a rank of a set is taken, so are those below.
  lemma RankTaken(sets: nat, ways: nat, cands: seq<nat>, lrus: map<nat, seq<nat>>, placed: map<(nat, nat), nat>, s: nat, j: nat, k: nat)
    requires 0 < sets && k < j && (s, j) in placed && PlacedOk(sets, ways, cands, lrus, (s, j), placed[(s, j)])
    requires forall m: nat | m < |cands| :: IsPlaced(sets, ways, cands, lrus, placed, m)
    ensures (s, k) in placed
  {
    var n := RankBelow(sets, cands, placed[(s, j)], s, k);
    assert IsPlaced(sets, ways, cands, lrus, placed, n);
  }

  // The empty or least recently used ways of a set go first: an entry replaced by an
  // insert comes, by stamp and then way, before every entry of its set that stays.
  lemma EvictsLru(table: nat -> Row, sets: nat, ways: nat, clock: int, before: seq<Entry>, now: seq<Entry>,
                       cands: seq<nat>, lrus: map<nat, seq<nat>>, placed: map<(nat, nat), nat>, s: nat, v: nat, w: nat)
    requires Inserted(table, sets, ways, clock, before, now, cands, lrus, placed) && |before| == At(ways, sets, 0)
    requires forall m: nat | m < |cands| :: IsPlaced(sets, ways, cands, lrus, placed, m)
    requires s < sets && v < ways && w < ways && At(ways, s, v) < |before| && At(ways, s, w) < |before|
    requires now[At(ways, s, v)] != before[At(ways, s, v)] && now[At(ways, s, w)] == before[At(ways, s, w)]
    requires forall e | 0 <= e < |before| :: before[e].stamp < clock
    ensures var old_, kept := before[At(ways, s, v)].stamp, before[At(ways, s, w)].stamp; old_ < kept || (old_ == kept && v < w)
  {
    if s !in lrus {
      Untouched(table, sets, ways, clock, before, now, cands, lrus, placed, s, v);
    } else {
      var lru := lrus[s];
      assert LruOrder(before, ways, s, lru);
      assert v in lru && w in lru;
      var j: nat :| j < ways && lru[j] == v;
      var k: nat :| k < ways && lru[k] == w;
      assert RankFilled(table, ways, clock, before, now, cands, lrus, placed, s, j);
      assert RankFilled(table, ways, clock, before, now, cands, lrus, placed, s, k);
      assert PlacedOk(sets, ways, cands, lrus, (s, j), placed[(s, j)]);
      if k < j {
        RankTaken(sets, ways, cands, lrus, placed, s, j, k);
      }
    }
  }

  ghost predicate Opened(sets: nat, cands: seq<nat>, order: seq<nat>, g: nat, lrus: map<nat, seq<nat>>)
    requires 0 < sets && g <= |order| && Lists(order, |cands|)
  {
    forall s | s in lrus :: exists a :: 0 <= a < g && SetOf(sets, cands[order[a]]) == s
  }

  // A set whose run of candidates starts here has not come up before.
  lemma NewSet(sets: nat, cands: seq<nat>, order: seq<nat>, key: nat -> int, g: nat, lrus: map<nat, seq<nat>>)
    requires 0 < sets && SortedBy(key, order) && Lists(order, |cands|) && g < |order| && Opened(sets, cands, order, g, lrus)
    requires Keyed(sets, cands, key)
    requires g > 0 ==> SetOf(sets, cands[order[g - 1]]) != SetOf(sets, cands[order[g]])
    ensures SetOf(sets, cands[order[g]]) !in lrus
  {
  }

  // The run of set s from `from` has been followed to g, with `rank` candidates in it.
  ghost predicate RunTo(sets: nat, cands: seq<nat>, order: seq<nat>, from: nat, g: nat, s: nat, rank: nat)
    requires 0 < sets && from <= g <= |order| && Lists(order, |cands|)
  {
    if g == from then rank == 0 else SetOf(sets, cands[order[g - 1]]) == s && RankOf(sets, cands, order[g - 1]) + 1 == rank
  }

  ghost predicate RunFrom(sets: nat, cands: seq<nat>, order: seq<nat>, from: nat)
    requires 0 < sets && from < |order| && Lists(order, |cands|)
  {
    from > 0 ==> SetOf(sets, cands[order[from - 1]]) != SetOf(sets, cands[order[from]])
  }

  // rows are the candidates' rows of the table.
  ghost predicate RowsOf(table: nat -> Row, cands: seq<nat>, rows: seq<Row>) {
    |rows| == |cands| && forall m: nat | m < |cands| :: rows[m] == table(cands[m])
  }

  ghost predicate RunEnds(sets: nat, cands: seq<nat>, order: seq<nat>, g: nat, s: nat)
    requires 0 < sets && 0 < g <= |order| && Lists(order, |cands|)
  {
    SetOf(sets, cands[order[g - 1]]) == s && (g < |order| ==> SetOf(sets, cands[order[g]]) != s)
  }

  lemma RunOver(sets: nat, cands: seq<nat>, order: seq<nat>, from: nat, g: nat, s: nat, rank: nat)
    requires 0 < sets && from <= g <= |order| && from < |order| && Lists(order, |cands|)
    requires s == SetOf(sets, cands[order[from]]) && RunTo(sets, cands, order, from, g, s, rank)
    requires g < |order| ==> SetOf(sets, cands[order[g]]) != s
    ensures from < g && RunEnds(sets, cands, order, g, s)
  {
  }

  // The candidates from position `from` of the order on are those of set s, to go into
  // its ways in the order lru.
  ghost predicate SetRun(table: nat -> Row, sets: nat, cands: seq<nat>, rows: seq<Row>, order: seq<nat>, from: nat,
                              s: nat, lru: seq<nat>, lrus: map<nat, seq<nat>>) {
    && 0 < sets && from < |order| && RanksCount(sets, cands, order) && SortedList(order)
    && RowsOf(table, cands, rows) && s in lrus && lrus[s] == lru
    && s == SetOf(sets, cands[order[from]]) && RunFrom(sets, cands, order, from)
  }

  lemma StartRun(table: nat -> Row, sets: nat, cands: seq<nat>, rows: seq<Row>, order: seq<nat>, from: nat, s: nat,
                 lru: seq<nat>, lrus: map<nat, seq<nat>>)
    requires 0 < sets && from < |order| && RanksCount(sets, cands, order) && SortedList(order) && RowsOf(table, cands, rows)
    requires s in lrus && lrus[s] == lru && s == SetOf(sets, cands[order[from]])
    requires from > 0 ==> SetOf(sets, cands[order[from - 1]]) != SetOf(sets, cands[order[from]])
    ensures SetRun(table, sets, cands, rows, order, from, s, lru, lrus)
  {
  }

  lemma RunStarts(sets: nat, cands: seq<nat>, order: seq<nat>, from: nat, s: nat)
    requires 0 < sets && from <= |order| && Lists(order, |cands|)
    ensures RunTo(sets, cands, order, from, from, s, 0)
  {
  }

  ghost predicate RankCounts(sets: nat, cands: seq<nat>, order: seq<nat>, g: nat)
    requires 0 < sets && g < |order| && Lists(order, |cands|)
  {
    RankOf(sets, cands, order[g])
    == if g > 0 && SetOf(sets, cands[order[g - 1]]) == SetOf(sets, cands[order[g]]) then RankOf(sets, cands, order[g - 1]) + 1 else 0
  }

  ghost predicate RanksCount(sets: nat, cands: seq<nat>, order: seq<nat>) {
    0 < sets && Lists(order, |cands|) && forall g: nat | g < |order| :: RankCounts(sets, cands, order, g)
  }

  lemma RanksFollow(sets: nat, cands: seq<nat>, order: seq<nat>, key: nat -> int)
    requires 0 < sets && SortedBy(key, order) && Lists(order, |cands|) && Keyed(sets, cands, key)
    ensures RanksCount(sets, cands, order) && SortedList(order)
  {
    forall g: nat | g < |order|
      ensures RankCounts(sets, cands, order, g)
    {
      if g > 0 && SetOf(sets, cands[order[g - 1]]) == SetOf(sets, cands[order[g]]) {
        NextOfSet(sets, cands, order, key, g);
      } else {
        FirstOfSet(sets, cands, order, key, g);
      }
    }
  }

  lemma RankHere(sets: nat, cands: seq<nat>, order: seq<nat>, from: nat, g: nat, rank: nat)
    requires 0 < sets && RanksCount(sets, cands, order) && from <= g < |order| && RunFrom(sets, cands, order, from)
    requires RunTo(sets, cands, order, from, g, SetOf(sets, cands[order[g]]), rank)
    ensures RankOf(sets, cands, order[g]) == rank
    ensures RunTo(sets, cands, order, from, g + 1, SetOf(sets, cands[order[g]]), rank + 1)
  {
    assert RankCounts(sets, cands, order, g);
  }

  // --- The steps of a fetch ------------------------------------------------------------------

  // How the reads of a fetch's misses go, by local row: what the probe and the reads of each
  // row get, and what the threads do (RowRead.ReadBatch).
  datatype BatchReads = BatchReads(source: RowRead.Source, probe: nat -> RowRead.Probe, tries: nat -> seq<seq<RowRead.Answer>>,
                                   maxThreads: nat, refused: set<nat>, schedule: seq<nat>)
  {
    ghost predicate Ok(lo: nat, hi: nat) {
      0 < maxThreads && forall row: nat | row < hi - lo :: RowRead.ReadOk(source, lo + row, tries(row)) && RowRead.ProbeOk(source, lo + row, probe(row))
    }

    // The table is the file's rows lo..hi-1.
    ghost predicate Holds(table: nat -> Row, lo: nat, hi: nat) {
      forall row: nat | row < hi - lo :: table(row) == RowRead.RowOf(source, lo + row)
    }

    function Ids(lo: nat, missing: seq<nat>): seq<int> {
      seq(|missing|, m requires 0 <= m < |missing| => lo + missing[m])
    }

    function Probes(missing: seq<nat>): seq<RowRead.Probe> {
      seq(|missing|, m requires 0 <= m < |missing| => probe(missing[m]))
    }

    function Tries(missing: seq<nat>): seq<seq<seq<RowRead.Answer>>> {
      seq(|missing|, m requires 0 <= m < |missing| => tries(missing[m]))
    }
  }

  // The read of missing row m fails.
  ghost predicate BatchFailed(batch: BatchReads, lo: nat, missing: seq<nat>, m: nat) {
    m < |missing| && RowRead.Outcome(batch.source, lo + missing[m], batch.tries(missing[m])).Some?
    && !RowRead.ReadAtOnce(seq(|missing|, _ => true), batch.Probes(missing), batch.source, m)
  }

  ghost function FailedReads(batch: BatchReads, lo: nat, missing: seq<nat>): set<nat> {
    set m: nat | m < |missing| && BatchFailed(batch, lo, missing, m)
  }

  ghost predicate RowFailed(missing: seq<nat>, batch: BatchReads, lo: nat, row: int) {
    exists m: nat :: m < |missing| && missing[m] == row && BatchFailed(batch, lo, missing, m)
  }

  ghost predicate Asked(ids: seq<int>, lo: int, hi: int, row: int) {
    lo <= row + lo < hi && row + lo in ids
  }

  // A row that could not be read: a NaN as its first value, then zeros.
  function Poison(n: nat): Row {
    seq(n, i => if i == 0 then 127 else 0)
  }

  // The scale bytes of rows another rank owns.
  function UnownedScale(n: nat): Row {
    seq(n, _ => 127)
  }

  // An id's scales: its own, or those of 1.0.
  function ScaleOf(lo: nat, hi: nat, resident: seq<Row>, scaleBytes: nat, id: int): Row
    requires |resident| == hi - lo
  {
    if lo <= id < hi then resident[id - lo] else UnownedScale(scaleBytes)
  }

  ghost function FetchedRow(table: nat -> Row, lo: nat, hi: nat, missing: seq<nat>, batch: BatchReads, id: int): Row {
    if !(lo <= id < hi) then RowRead.Zeros(batch.source.rowBytes)
    else if RowFailed(missing, batch, lo, id - lo) then Poison(batch.source.rowBytes)
    else table(id - lo)
  }

  // What id's row is, said by bytes: zeros if it is not this rank's; else the file's bytes,
  // wherever it lies in the file, unless its read failed: then a 127 and zeros.
  ghost predicate ById(lo: nat, hi: nat, missing: seq<nat>, batch: BatchReads, id: int, row: Row) {
    if !(lo <= id < hi) then |row| == batch.source.rowBytes && forall k | 0 <= k < |row| :: row[k] == 0
    else if RowFailed(missing, batch, lo, id - lo) then
      |row| == batch.source.rowBytes && forall k | 0 <= k < |row| :: row[k] == if k == 0 then 127 else 0
    else
      var end := batch.source.base + (id + 1) * batch.source.rowBytes;
      end <= |batch.source.file| || id - lo in missing ==> RowRead.HoldsRow(batch.source, id, row)
  }

  lemma FetchedById(table: nat -> Row, lo: nat, hi: nat, missing: seq<nat>, batch: BatchReads, id: int)
    requires batch.Ok(lo, hi) && batch.Holds(table, lo, hi)
    ensures ById(lo, hi, missing, batch, id, FetchedRow(table, lo, hi, missing, batch, id))
  {
    if lo <= id < hi && !RowFailed(missing, batch, lo, id - lo) {
      var row: nat := id - lo;
      assert table(row) == RowRead.RowOf(batch.source, id);
      if row in missing {
        var m: nat :| m < |missing| && missing[m] == row;
        ReadById(lo, hi, missing, batch, m);
      } else {
        RowInFile(batch.source, id);
      }
    }
  }

  // A row read without failing holds its bytes.
  lemma ReadById(lo: nat, hi: nat, missing: seq<nat>, batch: BatchReads, m: nat)
    requires batch.Ok(lo, hi) && m < |missing| && missing[m] < hi - lo && !BatchFailed(batch, lo, missing, m)
    ensures RowRead.HoldsRow(batch.source, lo + missing[m], RowRead.RowOf(batch.source, lo + missing[m]))
  {
    var row := missing[m];
    assert RowRead.ReadOk(batch.source, lo + row, batch.tries(row)) && RowRead.ProbeOk(batch.source, lo + row, batch.probe(row));
    if RowRead.Outcome(batch.source, lo + row, batch.tries(row)).None? {
      RowRead.ReadHolds(batch.source, lo + row, batch.tries(row));
    } else {
      assert batch.probe(row) == RowRead.Probed(batch.source.rowBytes);
      RowRead.RowHolds(batch.source, lo + row);
    }
  }

  // A row that ends inside the file has its bytes there.
  lemma RowInFile(t: RowRead.Source, id: nat)
    ensures t.base + (id + 1) * t.rowBytes <= |t.file| ==> RowRead.HoldsRow(t, id, RowRead.RowOf(t, id))
  {
    assert (id + 1) * t.rowBytes == id * t.rowBytes + t.rowBytes;
    if t.base + (id + 1) * t.rowBytes <= |t.file| {
      RowRead.RowHolds(t, id);
    }
  }

  // A row fails when it was to be read, not at once, and its attempts failed.
  lemma FailedBy(batch: BatchReads, lo: nat, hi: nat, missing: seq<nat>, m: nat)
    requires batch.Ok(lo, hi) && m < |missing| && missing[m] < hi - lo && BatchFailed(batch, lo, missing, m)
    ensures exists error: int, reached: nat ::
              RowRead.TriesEnd(batch.source, lo + missing[m], batch.tries(missing[m]), RowRead.Failed(error, reached))
  {
    RowRead.ReadFails(batch.source, lo + missing[m], batch.tries(missing[m]));
  }

  // An id's scales by bytes: its own, or 127s.
  ghost predicate ScaleById(lo: nat, hi: nat, resident: seq<Row>, scaleBytes: nat, id: int, scale: Row)
    requires |resident| == hi - lo
  {
    if lo <= id < hi then scale == resident[id - lo] else |scale| == scaleBytes && forall k | 0 <= k < |scale| :: scale[k] == 127
  }

  ghost predicate AllById(lo: nat, hi: nat, missing: seq<nat>, batch: BatchReads, resident: seq<Row>, scaleBytes: nat,
                          ids: seq<int>, out: seq<Row>, scales: seq<Row>)
    requires |resident| == hi - lo
  {
    && |out| == |scales| == |ids|
    && forall i | 0 <= i < |ids| :: ById(lo, hi, missing, batch, ids[i], out[i]) && ScaleById(lo, hi, resident, scaleBytes, ids[i], scales[i])
  }

  lemma FetchedAll(table: nat -> Row, lo: nat, hi: nat, missing: seq<nat>, batch: BatchReads, resident: seq<Row>, scaleBytes: nat,
                   ids: seq<int>, out: seq<Row>, scales: seq<Row>)
    requires batch.Ok(lo, hi) && batch.Holds(table, lo, hi) && |resident| == hi - lo && |out| == |scales| == |ids|
    requires forall i | 0 <= i < |ids| :: out[i] == FetchedRow(table, lo, hi, missing, batch, ids[i])
    requires forall i | 0 <= i < |ids| :: scales[i] == ScaleOf(lo, hi, resident, scaleBytes, ids[i])
    ensures AllById(lo, hi, missing, batch, resident, scaleBytes, ids, out, scales)
  {
    forall i | 0 <= i < |ids|
      ensures ById(lo, hi, missing, batch, ids[i], out[i])
    {
      FetchedById(table, lo, hi, missing, batch, ids[i]);
    }
  }

  // The owned ones of the first n ids: their positions and local rows.
  ghost predicate OwnedTo(ids: seq<int>, lo: nat, hi: nat, n: nat, positions: seq<nat>, keys: seq<nat>) {
    && n <= |ids| && |keys| == |positions|
    && (forall k | 0 <= k < |keys| :: positions[k] < n && keys[k] == ids[positions[k]] - lo)
    && (forall k | 0 <= k < |keys| :: lo <= ids[positions[k]] < hi)
    && (forall a, b | 0 <= a < b < |positions| :: positions[a] < positions[b])
    && (forall j: nat | j < n && lo <= ids[j] < hi :: j in positions)
  }

  lemma OwnedNext(ids: seq<int>, lo: nat, hi: nat, n: nat, positions: seq<nat>, keys: seq<nat>)
    requires OwnedTo(ids, lo, hi, n, positions, keys) && n < |ids|
    ensures if lo <= ids[n] < hi then OwnedTo(ids, lo, hi, n + 1, positions + [n], keys + [ids[n] - lo])
            else OwnedTo(ids, lo, hi, n + 1, positions, keys)
  {
  }

  // The owned ids' positions and local rows, and every id's scales.
  method OwnedKeys(ids: seq<int>, lo: nat, hi: nat, resident: seq<Row>, scaleBytes: nat)
    returns (positions: seq<nat>, keys: seq<nat>, scales: seq<Row>)
    requires |resident| == hi - lo
    ensures |keys| == |positions| && forall k | 0 <= k < |keys| :: positions[k] < |ids| && keys[k] == ids[positions[k]] - lo
    ensures forall k | 0 <= k < |keys| :: lo <= ids[positions[k]] < hi
    ensures forall a, b | 0 <= a < b < |positions| :: positions[a] < positions[b]
    ensures forall i: nat | i < |ids| && lo <= ids[i] < hi :: i in positions
    ensures |scales| == |ids|
    ensures forall i | 0 <= i < |ids| :: scales[i] == ScaleOf(lo, hi, resident, scaleBytes, ids[i])
  {
    positions, keys, scales := [], [], [];
    for i := 0 to |ids|
      invariant OwnedTo(ids, lo, hi, i, positions, keys)
      invariant |scales| == i
      invariant forall j | 0 <= j < i :: scales[j] == ScaleOf(lo, hi, resident, scaleBytes, ids[j])
    {
      scales := scales + [ScaleOf(lo, hi, resident, scaleBytes, ids[i])];
      OwnedNext(ids, lo, hi, i, positions, keys);
      if lo <= ids[i] < hi {
        positions, keys := positions + [i], keys + [ids[i] - lo];
      }
    }
  }

  lemma AppendLarger(unique: seq<nat>, x: nat)
    requires forall a, b | 0 <= a < b < |unique| :: unique[a] < unique[b]
    requires |unique| > 0 ==> unique[|unique| - 1] < x
    ensures forall a, b | 0 <= a < b < |unique + [x]| :: (unique + [x])[a] < (unique + [x])[b]
  {
  }

  // The distinct keys ascending, and each key's place among them.
  method Unique(keys: seq<nat>) returns (unique: seq<nat>, slotOf: seq<nat>)
    ensures forall a, b | 0 <= a < b < |unique| :: unique[a] < unique[b]
    ensures |slotOf| == |keys| && forall k | 0 <= k < |keys| :: slotOf[k] < |unique| && unique[slotOf[k]] == keys[k]
    ensures forall j | 0 <= j < |unique| :: unique[j] in keys
  {
    var order := SortKeys(keys);
    unique, slotOf := [], seq(|keys|, _ => 0);
    for k := 0 to |order|
      invariant |slotOf| == |keys| && (k > 0 <==> |unique| > 0)
      invariant forall a, b | 0 <= a < b < |unique| :: unique[a] < unique[b]
      invariant forall a | 0 <= a < k :: slotOf[order[a]] < |unique| && unique[slotOf[order[a]]] == keys[order[a]]
      invariant forall j | 0 <= j < |unique| :: unique[j] in keys
      invariant k > 0 ==> unique[|unique| - 1] == keys[order[k - 1]]
    {
      var x := keys[order[k]];
      if |unique| == 0 || unique[|unique| - 1] != x {
        AppendLarger(unique, x);
        unique := unique + [x];
      }
      slotOf := slotOf[order[k] := |unique| - 1];
    }
    forall k | 0 <= k < |keys|
      ensures slotOf[k] < |unique| && unique[slotOf[k]] == keys[k]
    {
      assert k in order;
    }
  }

  method SortKeys(keys: seq<nat>) returns (order: seq<nat>)
    ensures Lists(order, |keys|)
    ensures forall a, b | 0 <= a < b < |order| :: order[a] != order[b] && keys[order[a]] <= keys[order[b]]
  {
    var key := (k: nat) => if k < |keys| then keys[k] else 0;
    order := SortIndices(key, |keys|);
    forall a, b | 0 <= a < b < |order|
      ensures order[a] != order[b] && keys[order[a]] <= keys[order[b]]
    {
      assert Before(key, order[a], order[b]);
    }
  }

  // A failed row becomes the poison row, and is not to be stored.
  method PoisonFailed(failures: seq<RowRead.Failure>, out: array<Row>, poison: Row) returns (good: seq<bool>)
    requires forall f | 0 <= f < |failures| :: failures[f].index < out.Length
    modifies out
    ensures |good| == out.Length
    ensures forall m: nat | m < out.Length :: good[m] <==> !FailedIn(failures, |failures|, m)
    ensures forall m: nat | m < out.Length :: out[m] == if good[m] then old(out[m]) else poison
  {
    good := seq(out.Length, _ => true);
    for f := 0 to |failures|
      invariant |good| == out.Length
      invariant forall m: nat | m < out.Length :: good[m] <==> !FailedIn(failures, f, m)
      invariant forall m: nat | m < out.Length :: out[m] == if good[m] then old(out[m]) else poison
    {
      var index := failures[f].index;
      out[index] := poison;
      good := good[index := false];
      forall m: nat | m < out.Length
        ensures FailedIn(failures, f + 1, m) <==> FailedIn(failures, f, m) || m == index
      {
        if m == index {
          assert failures[f].index == m;
        }
      }
    }
  }

  ghost predicate FailedIn(failures: seq<RowRead.Failure>, n: nat, m: nat)
    requires n <= |failures|
  {
    exists g :: 0 <= g < n && failures[g].index == m
  }

  // Reads the missing rows; a row that fails becomes the poison row.
  method ReadMisses(table: nat -> Row, lo: nat, hi: nat, missIds: seq<nat>, batch: BatchReads)
    returns (failed: nat, missed: seq<Row>, good: seq<bool>)
    requires batch.Ok(lo, hi) && batch.Holds(table, lo, hi) && forall m | 0 <= m < |missIds| :: missIds[m] < hi - lo
    ensures |missed| == |good| == |missIds| && failed == |FailedReads(batch, lo, missIds)|
    ensures forall m: nat | m < |missIds| :: good[m] == !BatchFailed(batch, lo, missIds, m)
    ensures forall m: nat | m < |missIds| :: missed[m] == if good[m] then table(missIds[m]) else Poison(batch.source.rowBytes)
  {
    var out := new Row[|missIds|](_ => []);
    var failures := ReadRegion(table, lo, hi, missIds, batch, out);
    failed := |failures|;
    good := PoisonFailed(failures, out, Poison(batch.source.rowBytes));
    missed := out[..];
    FailedCount(failures, |failures|, FailedReads(batch, lo, missIds));
  }

  // The failures name the rows that failed, once each, and the others hold their bytes.
  method ReadRegion(ghost table: nat -> Row, lo: nat, hi: nat, missIds: seq<nat>, batch: BatchReads, out: array<Row>)
    returns (failures: seq<RowRead.Failure>)
    requires batch.Ok(lo, hi) && batch.Holds(table, lo, hi) && forall m | 0 <= m < |missIds| :: missIds[m] < hi - lo
    requires out.Length == |missIds|
    modifies out
    ensures forall i, j | 0 <= i < j < |failures| :: failures[i].index < failures[j].index
    ensures forall f | 0 <= f < |failures| :: failures[f].index < |missIds|
    ensures forall m: nat | m < |missIds| :: FailedIn(failures, |failures|, m) <==> BatchFailed(batch, lo, missIds, m)
    ensures forall m: nat | m < |missIds| :: FailedIn(failures, |failures|, m) || out[m] == table(missIds[m])
  {
    var region := RowRead.Table(lo, hi, [lo], [hi]);
    RegionReady(region, batch, lo, hi, missIds);
    var pending;
    ghost var owned;
    failures, pending, owned :=
      RowRead.ReadBatch(batch.source, region, batch.Ids(lo, missIds), batch.Probes(missIds), batch.Tries(missIds),
                        batch.maxThreads, batch.refused, batch.schedule, out);
    AllAreOwned(region, batch.Ids(lo, missIds), owned);
    RegionRows(table, batch, lo, hi, missIds, owned, failures, pending, out[..]);
  }

  lemma RegionPending(batch: BatchReads, missing: seq<nat>, owned: seq<bool>, pending: seq<nat>)
    requires owned == seq(|missing|, _ => true)
    requires forall m: nat | m < |missing| ::
               m in pending <==> owned[m] && !RowRead.ReadAtOnce(owned, batch.Probes(missing), batch.source, m)
    ensures forall m: nat | m < |missing| ::
              m in pending <==> !RowRead.ReadAtOnce(seq(|missing|, _ => true), batch.Probes(missing), batch.source, m)
  {
  }

  lemma RegionRows(table: nat -> Row, batch: BatchReads, lo: nat, hi: nat, missing: seq<nat>, owned: seq<bool>,
                   failures: seq<RowRead.Failure>, pending: seq<nat>, rows: seq<Row>)
    requires batch.Holds(table, lo, hi) && owned == seq(|missing|, _ => true)
    requires forall m | 0 <= m < |missing| :: missing[m] < hi - lo
    requires RowRead.DoneOneByOne(batch.source, batch.Ids(lo, missing), batch.Probes(missing), batch.Tries(missing), owned, pending,
                                  failures, rows)
    ensures |rows| == |missing|
    ensures forall i, j | 0 <= i < j < |failures| :: failures[i].index < failures[j].index
    ensures forall f | 0 <= f < |failures| :: failures[f].index < |missing|
    ensures forall m: nat | m < |missing| :: FailedIn(failures, |failures|, m) <==> BatchFailed(batch, lo, missing, m)
    ensures forall m: nat | m < |missing| :: FailedIn(failures, |failures|, m) || rows[m] == table(missing[m])
  {
    FailuresInside(RowRead.Outcomes(batch.source, batch.Ids(lo, missing), batch.Tries(missing)), pending, failures, |missing|);
    RegionPending(batch, missing, owned, pending);
    forall m: nat | m < |missing|
      ensures FailedIn(failures, |failures|, m) <==> BatchFailed(batch, lo, missing, m)
      ensures FailedIn(failures, |failures|, m) || rows[m] == table(missing[m])
    {
      RegionRow(batch, lo, missing, failures, pending, m);
    }
  }

  lemma FailuresInside(outcome: RowRead.Reads, pending: seq<nat>, failures: seq<RowRead.Failure>, n: nat)
    requires RowRead.Ascending(pending, n) && failures == RowRead.AllFails(outcome, pending)
    ensures forall i, j | 0 <= i < j < |failures| :: failures[i].index < failures[j].index
    ensures forall f | 0 <= f < |failures| :: failures[f].index < n
  {
    RowRead.AllFailsOrder(outcome, pending);
    forall f | 0 <= f < |failures|
      ensures failures[f].index < n
    {
      assert failures[f].index in pending;
    }
  }

  // Row m is among the failures exactly when it was not read at once and its read failed.
  lemma RegionRow(batch: BatchReads, lo: nat, missing: seq<nat>, failures: seq<RowRead.Failure>, pending: seq<nat>, m: nat)
    requires m < |missing| && RowRead.Ascending(pending, |missing|)
    requires failures == RowRead.AllFails(RowRead.Outcomes(batch.source, batch.Ids(lo, missing), batch.Tries(missing)), pending)
    requires m in pending <==> !RowRead.ReadAtOnce(seq(|missing|, _ => true), batch.Probes(missing), batch.source, m)
    ensures FailedIn(failures, |failures|, m) <==> BatchFailed(batch, lo, missing, m)
    ensures FailedIn(failures, |failures|, m)
            <==> m in pending && RowRead.Outcomes(batch.source, batch.Ids(lo, missing), batch.Tries(missing))(m).Some?
  {
    FailedMeans(RowRead.Outcomes(batch.source, batch.Ids(lo, missing), batch.Tries(missing)), pending, failures, m);
  }

  lemma RegionReady(region: RowRead.Table, batch: BatchReads, lo: nat, hi: nat, missing: seq<nat>)
    requires batch.Ok(lo, hi) && forall m | 0 <= m < |missing| :: missing[m] < hi - lo
    requires region == RowRead.Table(lo, hi, [lo], [hi])
    ensures region.Sorted() && forall i | 0 <= i < |missing| :: RowRead.Owned(region, batch.Ids(lo, missing)[i])
    ensures forall i | 0 <= i < |missing| :: RowRead.ReadOk(batch.source, batch.Ids(lo, missing)[i], batch.Tries(missing)[i])
  {
    forall i | 0 <= i < |missing|
      ensures RowRead.Owned(region, lo + missing[i])
    {
      RegionOwns(lo, hi, lo + missing[i]);
    }
  }

  lemma AllAreOwned(t: RowRead.Table, ids: seq<int>, owned: seq<bool>)
    requires t.Sorted() && RowRead.OwnedAre(t, ids, owned) && forall i | 0 <= i < |ids| :: RowRead.Owned(t, ids[i])
    ensures owned == seq(|ids|, _ => true)
  {
  }

  // The fetch's region is one head: the rank's own rows.
  lemma RegionOwns(lo: nat, hi: nat, id: int)
    ensures RowRead.Owned(RowRead.Table(lo, hi, [lo], [hi]), id) <==> lo <= id < hi
  {
    if lo <= id < hi {
      assert RowRead.LastHead(RowRead.Table(lo, hi, [lo], [hi]), id, 0);
    }
  }

  // Failures of different rows are as many as those rows.
  lemma {:induction false} FailedCount(failures: seq<RowRead.Failure>, n: nat, rows: set<nat>)
    requires n <= |failures| && forall i, j | 0 <= i < j < |failures| :: failures[i].index < failures[j].index
    requires forall m: nat :: m in rows <==> FailedIn(failures, n, m)
    ensures n == |rows|
  {
    if n == 0 {
      assert rows == {};
    } else {
      var last := failures[n - 1].index;
      assert FailedIn(failures, n, last);
      forall m: nat
        ensures m in rows - {last} <==> FailedIn(failures, n - 1, m)
      {
      }
      FailedCount(failures, n - 1, rows - {last});
    }
  }

  lemma FailedMeans(outcome: RowRead.Reads, pending: seq<nat>, failures: seq<RowRead.Failure>, m: nat)
    requires forall i, j | 0 <= i < j < |pending| :: pending[i] < pending[j]
    requires failures == RowRead.AllFails(outcome, pending)
    ensures FailedIn(failures, |failures|, m) <==> m in pending && outcome(m).Some?
  {
    RowRead.AllFailsOrder(outcome, pending);
    if m in pending && outcome(m).Some? {
      var x := RowRead.Failure(m, outcome(m).value.0, outcome(m).value.1);
      assert x in failures;
      var g :| 0 <= g < |failures| && failures[g] == x;
      assert failures[g].index == m;
    }
  }

  // Missed rows into their slots.
  method CopyMisses(hits: seq<Row>, missSlot: seq<nat>, missed: seq<Row>) returns (rows: seq<Row>)
    requires |missed| == |missSlot| && forall a, b | 0 <= a < b < |missSlot| :: missSlot[a] < missSlot[b]
    requires forall a | 0 <= a < |missSlot| :: missSlot[a] < |hits|
    ensures |rows| == |hits| && forall m | 0 <= m < |missed| :: rows[missSlot[m]] == missed[m]
    ensures forall j: nat | j < |hits| && j !in missSlot :: rows[j] == hits[j]
  {
    rows := hits;
    for m := 0 to |missed|
      invariant |rows| == |hits| && forall n | 0 <= n < m :: rows[missSlot[n]] == missed[n]
      invariant forall j: nat | j < |hits| && j !in missSlot :: rows[j] == hits[j]
    {
      rows := rows[missSlot[m] := missed[m]];
    }
  }

  // The output: owned ids take their slot's row.
  method Scatter(ids: seq<int>, lo: int, hi: int, positions: seq<nat>, keys: seq<nat>, slotOf: seq<nat>, rows: seq<Row>, zero: Row)
    returns (out: seq<Row>)
    requires |keys| == |positions| == |slotOf|
    requires forall k | 0 <= k < |keys| :: positions[k] < |ids| && keys[k] == ids[positions[k]] - lo && slotOf[k] < |rows|
    requires forall k | 0 <= k < |keys| :: lo <= ids[positions[k]] < hi
    requires forall a, b | 0 <= a < b < |positions| :: positions[a] < positions[b]
    ensures |out| == |ids| && forall k | 0 <= k < |keys| :: out[positions[k]] == rows[slotOf[k]]
    ensures forall i | 0 <= i < |ids| && !(lo <= ids[i] < hi) :: out[i] == zero
  {
    out := seq(|ids|, _ => zero);
    for k := 0 to |keys|
      invariant |out| == |ids| && forall a | 0 <= a < k :: out[positions[a]] == rows[slotOf[a]]
      invariant forall i | 0 <= i < |ids| && !(lo <= ids[i] < hi) :: out[i] == zero
    {
      out := out[positions[k] := rows[slotOf[k]]];
    }
  }

  // The missing rows are the unique ones not cached.
  lemma Missing(es: seq<Entry>, unique: seq<nat>, hitWay: seq<int>, missSlot: seq<nat>, missing: seq<nat>)
    requires |hitWay| == |unique| && forall j | 0 <= j < |unique| :: hitWay[j] >= 0 <==> Cached(es, unique[j])
    requires forall a, b | 0 <= a < b < |unique| :: unique[a] < unique[b]
    requires Selects(missSlot, |unique|, j => 0 <= j < |unique| && hitWay[j] < 0)
    requires |missing| == |missSlot| && forall m | 0 <= m < |missing| :: missing[m] == unique[missSlot[m]]
    ensures forall m, n | 0 <= m < n < |missing| :: missing[m] < missing[n]
    ensures forall m | 0 <= m < |missing| :: !Cached(es, missing[m])
    ensures forall row: nat :: row in missing <==> row in unique && !Cached(es, row)
  {
    forall row: nat | row in unique && !Cached(es, row)
      ensures row in missing
    {
      var j: nat :| j < |unique| && unique[j] == row;
      assert j in missSlot;
      var m :| 0 <= m < |missSlot| && missSlot[m] == j;
      assert missing[m] == row;
    }
  }

  // Distinct rows fail one by one.
  lemma OneFailure(missing: seq<nat>, batch: BatchReads, lo: nat, m: nat)
    requires m < |missing| && forall a, b | 0 <= a < b < |missing| :: missing[a] < missing[b]
    ensures RowFailed(missing, batch, lo, missing[m]) <==> BatchFailed(batch, lo, missing, m)
  {
  }

  // Every unique row's slot ends up with its bytes, or the poison row.
  lemma SlotsRight(table: nat -> Row, before: seq<Entry>, unique: seq<nat>, hits: seq<Row>, missSlot: seq<nat>, missing: seq<nat>,
                        reread: seq<Row>, good: seq<bool>, rows: seq<Row>, poison: Row, batch: BatchReads, lo: nat)
    requires |hits| == |rows| == |unique| && |missing| == |missSlot| == |reread| == |good|
    requires forall j | 0 <= j < |unique| :: Cached(before, unique[j]) ==> hits[j] == table(unique[j])
    requires forall m | 0 <= m < |missing| :: missSlot[m] < |unique| && missing[m] == unique[missSlot[m]] && rows[missSlot[m]] == reread[m]
    requires forall j: nat | j < |hits| && j !in missSlot :: rows[j] == hits[j]
    requires forall row: nat :: row in missing <==> row in unique && !Cached(before, row)
    requires forall a, b | 0 <= a < b < |unique| :: unique[a] < unique[b]
    requires forall a, b | 0 <= a < b < |missing| :: missing[a] < missing[b]
    requires forall m: nat | m < |missing| :: good[m] == !BatchFailed(batch, lo, missing, m)
    requires forall m: nat | m < |missing| :: reread[m] == if good[m] then table(missing[m]) else poison
    ensures forall j | 0 <= j < |unique| :: rows[j] == if RowFailed(missing, batch, lo, unique[j]) then poison else table(unique[j])
  {
    forall j: nat | j < |unique|
      ensures rows[j] == if RowFailed(missing, batch, lo, unique[j]) then poison else table(unique[j])
    {
      if j in missSlot {
        var m :| 0 <= m < |missSlot| && missSlot[m] == j;
        OneFailure(missing, batch, lo, m);
      } else {
        NotMissed(unique, missSlot, missing, j);
      }
    }
  }

  lemma NotMissed(unique: seq<nat>, missSlot: seq<nat>, missing: seq<nat>, j: nat)
    requires j < |unique| && j !in missSlot && |missing| == |missSlot|
    requires forall m | 0 <= m < |missing| :: missSlot[m] < |unique| && missing[m] == unique[missSlot[m]]
    requires forall a, b | 0 <= a < b < |unique| :: unique[a] < unique[b]
    ensures unique[j] !in missing
  {
    forall m | 0 <= m < |missing|
      ensures missing[m] != unique[j]
    {
      assert missSlot[m] in missSlot;
    }
  }

  // The unique keys are the rows asked for.
  lemma KeysAsked(ids: seq<int>, lo: int, hi: int, positions: seq<nat>, keys: seq<nat>, unique: seq<nat>, slotOf: seq<nat>)
    requires |keys| == |positions| == |slotOf|
    requires forall k | 0 <= k < |keys| :: positions[k] < |ids| && keys[k] == ids[positions[k]] - lo && lo <= ids[positions[k]] < hi
    requires forall i: nat | i < |ids| && lo <= ids[i] < hi :: i in positions
    requires forall k | 0 <= k < |keys| :: slotOf[k] < |unique| && unique[slotOf[k]] == keys[k]
    requires forall j | 0 <= j < |unique| :: unique[j] in keys
    ensures forall row: nat :: row in unique <==> Asked(ids, lo, hi, row)
  {
    forall row: nat
      ensures row in unique <==> Asked(ids, lo, hi, row)
    {
      if row in unique {
        var k :| 0 <= k < |keys| && keys[k] == row;
        assert ids[positions[k]] == row + lo;
      }
      if Asked(ids, lo, hi, row) {
        AskedHasKey(ids, lo, hi, positions, keys, row);
        var k :| 0 <= k < |keys| && keys[k] == row;
        assert unique[slotOf[k]] == row;
      }
    }
  }

  lemma AskedHasKey(ids: seq<int>, lo: int, hi: int, positions: seq<nat>, keys: seq<nat>, row: nat)
    requires |keys| == |positions| && Asked(ids, lo, hi, row)
    requires forall k | 0 <= k < |keys| :: positions[k] < |ids| && keys[k] == ids[positions[k]] - lo
    requires forall i: nat | i < |ids| && lo <= ids[i] < hi :: i in positions
    ensures row in keys
  {
    var i: nat :| i < |ids| && ids[i] == row + lo;
    assert i in positions;
    var k :| 0 <= k < |positions| && positions[k] == i;
    assert keys[k] == row;
  }

  lemma Delivered(table: nat -> Row, ids: seq<int>, lo: nat, hi: nat, positions: seq<nat>, keys: seq<nat>, unique: seq<nat>, slotOf: seq<nat>,
                       rows: seq<Row>, missing: seq<nat>, batch: BatchReads, out: seq<Row>)
    requires |keys| == |positions| == |slotOf| && |out| == |ids| && |rows| == |unique|
    requires forall k | 0 <= k < |keys| :: positions[k] < |ids| && keys[k] == ids[positions[k]] - lo && lo <= ids[positions[k]] < hi
    requires forall i: nat | i < |ids| && lo <= ids[i] < hi :: i in positions
    requires forall k | 0 <= k < |keys| :: slotOf[k] < |unique| && unique[slotOf[k]] == keys[k]
    requires forall k | 0 <= k < |keys| :: out[positions[k]] == rows[slotOf[k]]
    requires forall i | 0 <= i < |ids| && !(lo <= ids[i] < hi) :: out[i] == RowRead.Zeros(batch.source.rowBytes)
    requires forall j | 0 <= j < |unique| :: rows[j] == if RowFailed(missing, batch, lo, unique[j]) then Poison(batch.source.rowBytes) else table(unique[j])
    ensures forall i | 0 <= i < |ids| :: out[i] == FetchedRow(table, lo, hi, missing, batch, ids[i])
  {
    forall i: nat | i < |ids|
      ensures out[i] == FetchedRow(table, lo, hi, missing, batch, ids[i])
    {
      if lo <= ids[i] < hi {
        assert i in positions;
        var k :| 0 <= k < |positions| && positions[k] == i;
      }
    }
  }

  // --- The cache -----------------------------------------------------------------------------

  class Cache {
    const table: nat -> Row
    const sets: nat
    const ways: nat
    var es: seq<Entry>
    var clock: int

    ghost predicate Valid()
      reads this
    {
      0 < ways && 0 <= clock && CacheOk(table, sets, ways, clock, es)
    }

    constructor (table: nat -> Row, sets: nat, ways: nat, blank: Row)
      requires 0 < ways
      ensures Valid() && clock == 0 && this.sets == sets && this.ways == ways && this.table == table
      ensures FilledInOrder(es, sets, ways) && forall row: int :: !Cached(es, row)
    {
      this.table, this.sets, this.ways, clock := table, sets, ways, 0;
      AtIs(ways, sets, 0);
      es := seq(At(ways, sets, 0), _ => Entry(-1, 0, blank));
    }

    // The candidates of one set, from position `from` of the sorted candidates on. The
    // state is carried whole (`== true`), not clause by clause.
    method InsertSet(cands: seq<nat>, rows: seq<Row>, order: seq<nat>, from: nat, s: nat, lru: seq<nat>,
                     ghost before: seq<Entry>, ghost lrus: map<nat, seq<nat>>, ghost placed0: map<(nat, nat), nat>,
                     inserted0: int, evicted0: int)
      returns (g: nat, inserted: int, evicted: int, ghost placed: map<(nat, nat), nat>)
      requires SetRun(table, sets, cands, rows, order, from, s, lru, lrus) == true
      requires Inserting(table, sets, ways, clock, before, es, cands, order, from, lrus, placed0, inserted0, evicted0) == true
      modifies this`es
      ensures from < g <= |order| && RunEnds(sets, cands, order, g, s)
      ensures Inserting(table, sets, ways, clock, before, es, cands, order, g, lrus, placed, inserted, evicted) == true
    {
      g, inserted, evicted, placed := from, inserted0, evicted0, placed0;
      var rank := 0;
      RunStarts(sets, cands, order, from, s);
      while g < |order| && SetOf(sets, cands[order[g]]) == s
        invariant from <= g <= |order|
        invariant RunTo(sets, cands, order, from, g, s, rank) == true
        invariant Inserting(table, sets, ways, clock, before, es, cands, order, g, lrus, placed, inserted, evicted) == true
        decreases |order| - g
      {
        inserted, evicted, placed := InsertOne(cands, rows, order, from, g, rank, s, lru, before, lrus, placed, inserted, evicted);
        g, rank := g + 1, rank + 1;
      }
      RunOver(sets, cands, order, from, g, s, rank);
    }

    // Candidate order[g], of rank `rank` in set s.
    method InsertOne(cands: seq<nat>, rows: seq<Row>, order: seq<nat>, ghost from: nat, g: nat, rank: nat, s: nat, lru: seq<nat>,
                     ghost before: seq<Entry>, ghost lrus: map<nat, seq<nat>>, ghost placed0: map<(nat, nat), nat>,
                     inserted0: int, evicted0: int)
      returns (inserted: int, evicted: int, ghost placed: map<(nat, nat), nat>)
      requires SetRun(table, sets, cands, rows, order, from, s, lru, lrus) == true
      requires from <= g < |order| && s == SetOf(sets, cands[order[g]]) && RunTo(sets, cands, order, from, g, s, rank) == true
      requires Inserting(table, sets, ways, clock, before, es, cands, order, g, lrus, placed0, inserted0, evicted0) == true
      modifies this`es
      ensures Inserting(table, sets, ways, clock, before, es, cands, order, g + 1, lrus, placed, inserted, evicted) == true
      ensures RunTo(sets, cands, order, from, g + 1, s, rank + 1) == true
    {
      RankHere(sets, cands, order, from, g, rank);
      inserted, evicted, placed := inserted0, evicted0, placed0;
      var m := order[g];
      ghost var now := es;
      NotYetPlaced(sets, ways, cands, order, g, lrus, placed0);
      if rank < ways {
        assert LruOrder(before, ways, s, lru);
        var entry := At(ways, s, lru[rank]);
        EntryOfSet(sets, ways, s, lru[rank]);
        StoreKeeps(table, sets, ways, clock, now, entry, cands[m]);
        StorePlaced(table, sets, ways, clock, before, now, cands, lrus, placed0, s, rank, m, entry);
        OccupiedUpdate(now, entry, Entry(cands[m], clock, rows[m]));
        evicted := evicted + (if es[entry].tag >= 0 then 1 else 0);
        es := es[entry := Entry(cands[m], clock, rows[m])];
        inserted := inserted + 1;
        placed := placed0[(s, rank) := m];
      }
      PlacedNext(sets, ways, cands, order, g, lrus, placed0, (s, rank), placed);
      FreshNext(now, es, cands, order, g);
    }

    // Stores the candidates: by set and then row, each set's into its ways in LRU order.
    method Insert(cands: seq<nat>, rows: seq<Row>)
      returns (inserted: int, evicted: int, ghost lrus: map<nat, seq<nat>>, ghost placed: map<(nat, nat), nat>)
      requires Valid() && 0 < sets && |rows| == |cands|
      requires forall m: nat | m < |cands| :: rows[m] == table(cands[m]) && !Cached(es, cands[m])
      requires forall m, n | 0 <= m < n < |cands| :: cands[m] != cands[n]
      modifies this`es, this`clock
      ensures Valid() && clock == old(clock) + 1
      ensures Inserted(table, sets, ways, clock, old(es), es, cands, lrus, placed)
      ensures forall m: nat | m < |cands| :: IsPlaced(sets, ways, cands, lrus, placed, m)
      ensures inserted == |placed| && Occupied(es) == Occupied(old(es)) + inserted - evicted
      ensures forall row: int :: Cached(es, row) ==> Cached(old(es), row) || row in cands
    {
      ghost var before := es;
      var key := (m: nat) => if m < |cands| then SetOf(sets, cands[m]) else 0;
      var order := SortIndices(key, |cands|);
      clock := clock + 1;
      inserted, evicted, lrus, placed := 0, 0, map[], map[];
      StartInsert(table, sets, ways, clock, before, cands, order);
      RanksFollow(sets, cands, order, key);
      var g := 0;
      while g < |order|
        invariant InsertState(cands, order, g, before, lrus, placed, inserted, evicted) == true && clock == old(clock) + 1
        decreases |order| - g
      {
        g, inserted, evicted, lrus, placed := InsertNext(cands, rows, order, key, g, before, lrus, placed, inserted, evicted);
      }
      AllPlaced(sets, ways, cands, order, lrus, placed);
      InsertedRows(table, sets, ways, clock, before, es, cands, lrus, placed);
    }

    // The insert stands at position g, where a set's run of candidates starts.
    ghost predicate InsertState(cands: seq<nat>, order: seq<nat>, g: nat, before: seq<Entry>, lrus: map<nat, seq<nat>>,
                                placed: map<(nat, nat), nat>, inserted: int, evicted: int)
      reads this
    {
      && 0 < sets && g <= |order| && Lists(order, |cands|)
      && (0 < g < |order| ==> SetOf(sets, cands[order[g - 1]]) != SetOf(sets, cands[order[g]]))
      && Opened(sets, cands, order, g, lrus)
      && Inserting(table, sets, ways, clock, before, es, cands, order, g, lrus, placed, inserted, evicted)
    }

    // The candidates of the next set.
    method InsertNext(cands: seq<nat>, rows: seq<Row>, order: seq<nat>, ghost key: nat -> int, g: nat, ghost before: seq<Entry>,
                      ghost lrus0: map<nat, seq<nat>>, ghost placed0: map<(nat, nat), nat>, inserted0: int, evicted0: int)
      returns (next: nat, inserted: int, evicted: int, ghost lrus: map<nat, seq<nat>>, ghost placed: map<(nat, nat), nat>)
      requires InsertState(cands, order, g, before, lrus0, placed0, inserted0, evicted0) && g < |order| && 0 <= clock
      requires 0 < sets && SortedBy(key, order) && Keyed(sets, cands, key)
      requires RanksCount(sets, cands, order) && SortedList(order) && RowsOf(table, cands, rows)
      modifies this`es
      ensures g < next && InsertState(cands, order, next, before, lrus, placed, inserted, evicted) == true
    {
      var lru;
      lru, lrus := InsertOrder(cands, order, key, g, before, lrus0, placed0, inserted0, evicted0);
      var s := SetOf(sets, cands[order[g]]);
      StartRun(table, sets, cands, rows, order, g, s, lru, lrus);
      next, inserted, evicted, placed := InsertSet(cands, rows, order, g, s, lru, before, lrus, placed0, inserted0, evicted0);
      OpenedNext(sets, cands, order, g, next, lrus0, lrus);
    }

    // The LRU order of the set whose candidates come next.
    method InsertOrder(cands: seq<nat>, order: seq<nat>, ghost key: nat -> int, g: nat, ghost before: seq<Entry>,
                       ghost lrus: map<nat, seq<nat>>, ghost placed: map<(nat, nat), nat>, ghost inserted: int, ghost evicted: int)
      returns (lru: seq<nat>, ghost more: map<nat, seq<nat>>)
      requires 0 < sets && g < |order| && SortedBy(key, order) && 0 <= clock
      requires Keyed(sets, cands, key)
      requires Inserting(table, sets, ways, clock, before, es, cands, order, g, lrus, placed, inserted, evicted)
      requires Opened(sets, cands, order, g, lrus) && |before| == |es|
      requires g > 0 ==> SetOf(sets, cands[order[g - 1]]) != SetOf(sets, cands[order[g]])
      ensures Inserting(table, sets, ways, clock, before, es, cands, order, g, more, placed, inserted, evicted)
      ensures more == lrus[SetOf(sets, cands[order[g]]) := lru] && more.Keys == lrus.Keys + {SetOf(sets, cands[order[g]])}
    {
      var s := SetOf(sets, cands[order[g]]);
      ghost var now := es;
      NewSet(sets, cands, order, key, g, lrus);
      lru := SortWays(s);
      forall w: nat | w < ways
        ensures StampOf(now, ways, s, w) == StampOf(before, ways, s, w)
      {
        EntryOfSet(sets, ways, s, w);
        Untouched(table, sets, ways, clock, before, now, cands, lrus, placed, s, w);
      }
      SameLru(before, now, ways, s, lru);
      OpenSet(table, sets, ways, clock, before, now, cands, order, g, lrus, placed, s, lru);
      OpenPlaced(sets, ways, cands, order, g, lrus, placed, s, lru);
      more := lrus[s := lru];
    }

    // preload: rows first..first + count - 1 into the empty ways of their sets, before any
    // fetch. It evicts nothing, and the stored rows share the oldest stamp there can be.
    method Preload(first: nat, count: nat) returns (stored: nat)
      requires Valid() && clock <= 1 && FilledInOrder(es, sets, ways)
      modifies this`es, this`clock
      ensures Valid() && FilledInOrder(es, sets, ways) && (0 < sets ==> clock == 1) && Occupied(es) == Occupied(old(es)) + stored
      ensures if 0 < sets then PreloadedTo(old(es), es, sets, ways, first, count) else es == old(es)
    {
      stored := 0;
      if sets == 0 {
        return;
      }
      OlderClocks(table, sets, ways, clock, 1, es);
      clock := 1;
      ghost var before := es;
      PreloadedNone(es, sets, ways, first);
      for i := 0 to count
        invariant PreloadState(before, first, i, stored) == true
      {
        stored := PreloadNext(before, first, i, stored);
      }
    }

    // n rows have been preloaded.
    ghost predicate PreloadState(before: seq<Entry>, first: nat, n: nat, stored: nat)
      reads this
    {
      && Valid() && 0 < sets && clock == 1 && FilledInOrder(es, sets, ways)
      && PreloadedTo(before, es, sets, ways, first, n) && Occupied(es) == Occupied(before) + stored
    }

    method PreloadNext(ghost before: seq<Entry>, first: nat, i: nat, stored: nat) returns (more: nat)
      requires PreloadState(before, first, i, stored) == true
      modifies this`es
      ensures PreloadState(before, first, i + 1, more) == true
    {
      ghost var was := es;
      var n := PreloadRow(first + i);
      PreloadedNext(before, was, es, sets, ways, first, i);
      more := stored + n;
    }

    method PreloadRow(row: nat) returns (stored: nat)
      requires Valid() == true && 0 < sets && clock == 1 && FilledInOrder(es, sets, ways) == true
      modifies this`es
      ensures Valid() && FilledInOrder(es, sets, ways) && Occupied(es) == Occupied(old(es)) + stored
      ensures PreloadedOne(old(es), es, sets, ways, row)
    {
      var s := SetOf(sets, row);
      for w := 0 to ways
        invariant es == old(es) && forall v: nat | v < w :: TagAt(es, ways, s, v) != row && TagAt(es, ways, s, v) >= 0
      {
        EntryOfSet(sets, ways, s, w);
        var e := At(ways, s, w);
        if es[e].tag == row {
          PreloadedSame(es, sets, ways, row);
          return 0;
        }
        assert EntryOk(table, sets, ways, clock, e, es[e]);
        if es[e].tag < 0 {
          NotCached(table, sets, ways, clock, es, row, w);
          StoreKeeps(table, sets, ways, clock, es, e, row);
          FillNext(es, sets, ways, s, w, e, Entry(row, clock, table(row)));
          OccupiedUpdate(es, e, Entry(row, clock, table(row)));
          PreloadedHere(es, sets, ways, e, row, Entry(row, clock, table(row)));
          es := es[e := Entry(row, clock, table(row))];
          return 1;
        }
      }
      PreloadedSame(es, sets, ways, row);
      stored := 0;
    }

    // A row's way in its set, or -1.
    method FindWay(row: nat) returns (way: int)
      requires Valid() && 0 < sets
      ensures way >= 0 <==> Cached(es, row)
      ensures way >= 0 ==> way < ways && At(ways, SetOf(sets, row), way) < |es| && es[At(ways, SetOf(sets, row), way)].tag == row
    {
      var w := 0;
      while w < ways
        invariant 0 <= w <= ways
        invariant forall v: nat | v < w :: TagAt(es, ways, SetOf(sets, row), v) != row
      {
        EntryOfSet(sets, ways, SetOf(sets, row), w);
        if es[At(ways, SetOf(sets, row), w)].tag == row {
          return w;
        }
        w := w + 1;
      }
      way := -1;
      if Cached(es, row) {
        WayHasTag(table, sets, ways, clock, es, row);
      }
    }

    // The probe: hits are stamped with one new clock value; nothing else changes.
    method Probe(unique: seq<nat>) returns (hitWay: seq<int>)
      requires Valid()
      modifies this`es, this`clock
      ensures Valid() && |es| == |old(es)| && clock >= old(clock) && |hitWay| == |unique|
      ensures forall j | 0 <= j < |unique| :: HitOk(old(es), sets, ways, unique[j], hitWay[j]) && HitOk(es, sets, ways, unique[j], hitWay[j])
      ensures StampedTo(old(es), es, clock, unique, |unique|)
      ensures clock == old(clock) + if AnyHit(old(es), unique) then 1 else 0
    {
      ghost var before := es;
      hitWay := FindWays(unique);
      if exists j :: 0 <= j < |hitWay| && hitWay[j] >= 0 {
        clock := clock + 1;
        OlderClock(table, sets, ways, clock - 1, es);
        StampHits(unique, hitWay);
      } else {
        NoHits(es, clock, unique);
      }
    }

    method FindWays(unique: seq<nat>) returns (hitWay: seq<int>)
      requires Valid()
      ensures |hitWay| == |unique| && forall i | 0 <= i < |unique| :: HitOk(es, sets, ways, unique[i], hitWay[i])
    {
      hitWay := [];
      for j := 0 to |unique|
        invariant |hitWay| == j
        invariant forall i | 0 <= i < j :: HitOk(es, sets, ways, unique[i], hitWay[i])
      {
        var way := -1;
        if 0 < sets {
          way := FindWay(unique[j]);
        } else {
          NoEntries(table, sets, ways, clock, es);
        }
        hitWay := hitWay + [way];
      }
    }

    method StampHits(unique: seq<nat>, hitWay: seq<int>)
      requires Valid() && 0 < clock && |hitWay| == |unique|
      requires forall i | 0 <= i < |unique| :: HitOk(es, sets, ways, unique[i], hitWay[i])
      modifies this`es
      ensures Valid() && StampedTo(old(es), es, clock, unique, |unique|)
    {
      ghost var before := es;
      for j := 0 to |unique|
        invariant CacheOk(table, sets, ways, clock, es) && StampedTo(before, es, clock, unique, j)
      {
        assert HitOk(before, sets, ways, unique[j], hitWay[j]);
        if hitWay[j] >= 0 {
          var e := At(ways, SetOf(sets, unique[j]), hitWay[j]);
          Restamp(table, sets, ways, clock, es, e);
          StampedNext(table, sets, ways, clock, before, es, unique, j, e);
          es := es[e := es[e].(stamp := clock)];
        } else {
          StampedMiss(before, es, clock, unique, j);
        }
      }
    }

    // Hits' rows, and the other rows' slots and ids in order.
    method CopyHits(unique: seq<nat>, hitWay: seq<int>, zero: Row) returns (rows: seq<Row>, missSlot: seq<nat>, missIds: seq<nat>)
      requires Valid() && |hitWay| == |unique| && forall j | 0 <= j < |unique| :: HitOk(es, sets, ways, unique[j], hitWay[j])
      ensures |rows| == |unique| && forall j | 0 <= j < |unique| :: Cached(es, unique[j]) ==> rows[j] == table(unique[j])
      ensures Selects(missSlot, |unique|, j => 0 <= j < |unique| && hitWay[j] < 0)
      ensures |missIds| == |missSlot| && forall m | 0 <= m < |missIds| :: missIds[m] == unique[missSlot[m]]
    {
      rows, missSlot, missIds := [], [], [];
      for j := 0 to |unique|
        invariant |rows| == j && forall i | 0 <= i < j :: Cached(es, unique[i]) ==> rows[i] == table(unique[i])
        invariant Selects(missSlot, j, j => 0 <= j < |unique| && hitWay[j] < 0)
        invariant |missIds| == |missSlot| && forall m | 0 <= m < |missIds| :: missIds[m] == unique[missSlot[m]]
      {
        assert HitOk(es, sets, ways, unique[j], hitWay[j]);
        if hitWay[j] >= 0 {
          var e := At(ways, SetOf(sets, unique[j]), hitWay[j]);
          assert EntryOk(table, sets, ways, clock, e, es[e]);
          rows := rows + [es[e].data];
        } else {
          rows, missSlot, missIds := rows + [zero], missSlot + [j], missIds + [unique[j]];
        }
      }
    }

    // Inserts the rows that were read.
    method InsertGood(missIds: seq<nat>, missed: seq<Row>, good: seq<bool>)
      returns (inserted: int, evicted: int, ghost cands: seq<nat>, ghost lrus: map<nat, seq<nat>>, ghost placed: map<(nat, nat), nat>)
      requires Valid() && |missed| == |good| == |missIds|
      requires forall m: nat | m < |missIds| :: !Cached(es, missIds[m]) && (good[m] ==> missed[m] == table(missIds[m]))
      requires forall m, n | 0 <= m < n < |missIds| :: missIds[m] < missIds[n]
      modifies this`es, this`clock
      ensures Valid() && GoodOnes(missIds, good, |missIds|, cands)
      ensures Stored(table, sets, ways, old(clock), old(es), clock, es, cands, lrus, placed, inserted, evicted)
    {
      inserted, evicted, lrus, placed := 0, 0, map[], map[];
      var chosen, rows := Choose(table, missIds, missed, good);
      cands := chosen;
      forall c: nat | c < |chosen|
        ensures rows[c] == table(chosen[c]) && !Cached(es, chosen[c])
      {
        assert GoodRow(missIds, good, |missIds|, chosen[c]);
      }
      if 0 < sets && |chosen| > 0 {
        inserted, evicted, lrus, placed := Insert(chosen, rows);
      }
    }

    // fetch: ids[i] in lo..hi-1 gives its row, or the poison row if its read failed in this
    // fetch; other ids give zeros. The misses are read in one batch, its index m being the
    // m-th missing row in ascending order.
    method Fetch(ids: seq<int>, lo: nat, hi: nat, batch: BatchReads, resident: seq<Row>, scaleBytes: nat)
      returns (out: seq<Row>, scales: seq<Row>, failed: nat, missing: seq<nat>, inserted: int, evicted: int, ghost did: Did)
      requires Valid() && lo <= hi && batch.Ok(lo, hi) && batch.Holds(table, lo, hi) && |resident| == hi - lo
      modifies this`es, this`clock
      ensures Valid() && |out| == |scales| == |ids|
      ensures forall i | 0 <= i < |ids| :: out[i] == FetchedRow(table, lo, hi, missing, batch, ids[i])
      ensures forall i | 0 <= i < |ids| :: scales[i] == ScaleOf(lo, hi, resident, scaleBytes, ids[i])
      ensures AllById(lo, hi, missing, batch, resident, scaleBytes, ids, out, scales)
      ensures forall m, n | 0 <= m < n < |missing| :: missing[m] < missing[n]
      ensures forall row: nat :: row in missing <==> !Cached(old(es), row) && Asked(ids, lo, hi, row)
      ensures failed == |FailedReads(batch, lo, missing)|
      // What it did to the cache (AskedAreNewest, FetchEvictsLru, GoodMissesCached, FetchOccupies).
      ensures did.Ok(table, sets, ways, old(clock), old(es), clock, es, inserted, evicted)
      ensures forall row: nat :: row in did.unique <==> Asked(ids, lo, hi, row)
      ensures forall row: nat :: row in did.cands <==> row in missing && !RowFailed(missing, batch, lo, row)
      ensures forall a, b | 0 <= a < b < |did.cands| :: did.cands[a] < did.cands[b]
    {
      var positions, keys;
      positions, keys, scales := OwnedKeys(ids, lo, hi, resident, scaleBytes);
      var unique, slotOf := Unique(keys);
      ghost var before, clock0 := es, clock;
      KeysAsked(ids, lo, hi, positions, keys, unique, slotOf);
      var hits, missSlot;
      hits, missSlot, missing := Lookup(unique);
      ghost var mid, midClock := es, clock;
      MissingAsked(ids, lo, hi, unique, missing);
      var reread, good;
      failed, reread, good := ReadMisses(table, lo, hi, missing, batch);
      var rows := CopyMisses(hits, missSlot, reread);
      ghost var cands, lrus, placed;
      inserted, evicted, cands, lrus, placed := InsertGood(missing, reread, good);
      did := Did(unique, mid, midClock, cands, lrus, placed);
      out := Scatter(ids, lo, hi, positions, keys, slotOf, rows, RowRead.Zeros(batch.source.rowBytes));
      SlotsRight(table, before, unique, hits, missSlot, missing, reread, good, rows, Poison(batch.source.rowBytes), batch, lo);
      Delivered(table, ids, lo, hi, positions, keys, unique, slotOf, rows, missing, batch, out);
      GoodMisses(missing, good, cands, batch, lo);
      FetchedAll(table, lo, hi, missing, batch, resident, scaleBytes, ids, out, scales);
    }

    // The probe and what it leaves to read.
    method Lookup(unique: seq<nat>) returns (hits: seq<Row>, missSlot: seq<nat>, missing: seq<nat>)
      requires Valid() && forall a, b | 0 <= a < b < |unique| :: unique[a] < unique[b]
      modifies this`es, this`clock
      ensures Valid() && StampedTo(old(es), es, clock, unique, |unique|)
      ensures clock == old(clock) + if AnyHit(old(es), unique) then 1 else 0
      ensures forall row: int :: Cached(es, row) <==> Cached(old(es), row)
      ensures |hits| == |unique| && forall j | 0 <= j < |unique| :: Cached(es, unique[j]) ==> hits[j] == table(unique[j])
      ensures |missing| == |missSlot| && forall m | 0 <= m < |missing| :: missSlot[m] < |unique| && missing[m] == unique[missSlot[m]]
      ensures forall m, n | 0 <= m < n < |missing| :: missing[m] < missing[n] && missSlot[m] < missSlot[n]
      ensures forall row: nat :: row in missing <==> row in unique && !Cached(es, row)
      ensures forall m | 0 <= m < |missing| :: !Cached(es, missing[m])
    {
      ghost var before := es;
      var hitWay := Probe(unique);
      SameTags(before, es);
      hits, missSlot, missing := CopyHits(unique, hitWay, []);
      Missing(es, unique, hitWay, missSlot, missing);
    }

    // The LRU order of a set's ways.
    method SortWays(s: nat) returns (lru: seq<nat>)
      requires Valid() && s < sets
      ensures LruOrder(es, ways, s, lru)
    {
      ghost var now := es;
      var stamps: seq<int> := [];
      for w := 0 to ways
        invariant |stamps| == w && forall v: nat | v < w :: stamps[v] == StampOf(now, ways, s, v)
      {
        EntryOfSet(sets, ways, s, w);
        stamps := stamps + [es[At(ways, s, w)].stamp];
      }
      lru := SortIndices((w: nat) => if w < |stamps| then stamps[w] else 0, ways);
    }
  }

  ghost predicate AnyHit(es: seq<Entry>, unique: seq<nat>) {
    exists j :: 0 <= j < |unique| && Cached(es, unique[j])
  }

  // The good ones of the first n rows, in order.
  ghost predicate GoodOnes(rows: seq<nat>, good: seq<bool>, n: nat, cands: seq<nat>)
    requires n <= |rows| == |good|
  {
    && (forall c, d | 0 <= c < d < |cands| :: cands[c] < cands[d])
    && (forall c | 0 <= c < |cands| :: GoodRow(rows, good, n, cands[c]))
    && (forall m | 0 <= m < n && good[m] :: rows[m] in cands)
  }

  ghost predicate GoodRow(rows: seq<nat>, good: seq<bool>, n: nat, row: nat)
    requires n <= |rows| == |good|
  {
    exists m :: 0 <= m < n && good[m] && rows[m] == row
  }

  method Choose(ghost table: nat -> Row, missIds: seq<nat>, missed: seq<Row>, good: seq<bool>) returns (chosen: seq<nat>, rows: seq<Row>)
    requires |missed| == |good| == |missIds|
    requires forall m: nat | m < |missIds| && good[m] :: missed[m] == table(missIds[m])
    requires forall m, n | 0 <= m < n < |missIds| :: missIds[m] < missIds[n]
    ensures GoodOnes(missIds, good, |missIds|, chosen) && RowsOf(table, chosen, rows)
  {
    chosen, rows := [], [];
    for m := 0 to |missIds|
      invariant GoodOnes(missIds, good, m, chosen) && RowsOf(table, chosen, rows)
    {
      GoodNext(missIds, good, m, chosen);
      if good[m] {
        RowsNext(table, chosen, rows, missIds[m], missed[m]);
        chosen, rows := chosen + [missIds[m]], rows + [missed[m]];
      }
    }
  }

  lemma RowsNext(table: nat -> Row, cands: seq<nat>, rows: seq<Row>, c: nat, row: Row)
    requires RowsOf(table, cands, rows) && row == table(c)
    ensures RowsOf(table, cands + [c], rows + [row])
  {
  }

  lemma GoodNext(rows: seq<nat>, good: seq<bool>, n: nat, cands: seq<nat>)
    requires n < |rows| == |good| && GoodOnes(rows, good, n, cands)
    requires forall m, k | 0 <= m < k < |rows| :: rows[m] < rows[k]
    ensures GoodOnes(rows, good, n + 1, if good[n] then cands + [rows[n]] else cands)
  {
    var more := if good[n] then cands + [rows[n]] else cands;
    forall c | 0 <= c < |more|
      ensures GoodRow(rows, good, n + 1, more[c])
    {
      if c < |cands| {
        assert GoodRow(rows, good, n, cands[c]);
      }
    }
    forall c | 0 <= c < |cands|
      ensures cands[c] < rows[n]
    {
      assert GoodRow(rows, good, n, cands[c]);
    }
  }

  // The candidates are the missing rows whose reads did not fail.
  lemma GoodMisses(missing: seq<nat>, good: seq<bool>, cands: seq<nat>, batch: BatchReads, lo: nat)
    requires |good| == |missing| && GoodOnes(missing, good, |missing|, cands)
    requires forall a, b | 0 <= a < b < |missing| :: missing[a] < missing[b]
    requires forall m: nat | m < |missing| :: good[m] == !BatchFailed(batch, lo, missing, m)
    ensures forall row: nat :: row in cands <==> row in missing && !RowFailed(missing, batch, lo, row)
    ensures forall a, b | 0 <= a < b < |cands| :: cands[a] < cands[b]
  {
    forall row: nat
      ensures row in cands <==> row in missing && !RowFailed(missing, batch, lo, row)
    {
      if row in cands {
        assert GoodRow(missing, good, |missing|, row);
        var m: nat :| m < |missing| && good[m] && missing[m] == row;
        OneFailure(missing, batch, lo, m);
      } else if row in missing {
        var m: nat :| m < |missing| && missing[m] == row;
        OneFailure(missing, batch, lo, m);
      }
    }
  }

  lemma MissingAsked(ids: seq<int>, lo: int, hi: int, unique: seq<nat>, missing: seq<nat>)
    requires forall row: nat :: row in unique <==> Asked(ids, lo, hi, row)
    requires forall row: nat :: row in missing ==> row in unique
    ensures forall m | 0 <= m < |missing| :: missing[m] < hi - lo
  {
    forall m | 0 <= m < |missing|
      ensures missing[m] < hi - lo
    {
      assert missing[m] in missing;
    }
  }

  // --- What a fetch does to the cache ----------------------------------------------------------

  // Storing the candidates: nothing changes without any; else they are inserted with one new
  // clock value.
  ghost predicate Stored(table: nat -> Row, sets: nat, ways: nat, clock: int, before: seq<Entry>, later: int, now: seq<Entry>,
                         cands: seq<nat>, lrus: map<nat, seq<nat>>, placed: map<(nat, nat), nat>, inserted: int, evicted: int) {
    if sets == 0 || cands == [] then now == before && later == clock && inserted == 0 && evicted == 0
    else
      && later == clock + 1 && Inserted(table, sets, ways, later, before, now, cands, lrus, placed)
      && (forall m: nat | m < |cands| :: IsPlaced(sets, ways, cands, lrus, placed, m))
      && inserted == |placed| && Occupied(now) == Occupied(before) + inserted - evicted
  }

  // A fetch of the rows `unique`: the probe stamps its hits, giving mid, and the rows read,
  // cands, are stored.
  datatype Did = Did(unique: seq<nat>, mid: seq<Entry>, midClock: int, cands: seq<nat>, lrus: map<nat, seq<nat>>,
                     placed: map<(nat, nat), nat>)
  {
    ghost predicate Ok(table: nat -> Row, sets: nat, ways: nat, clock: int, before: seq<Entry>, later: int, now: seq<Entry>,
                       inserted: int, evicted: int) {
      && CacheOk(table, sets, ways, clock, before) && CacheOk(table, sets, ways, midClock, mid)
      && StampedTo(before, mid, midClock, unique, |unique|) && midClock == clock + (if AnyHit(before, unique) then 1 else 0)
      && Stored(table, sets, ways, midClock, mid, later, now, cands, lrus, placed, inserted, evicted)
      && (forall row | row in cands :: row in unique && !Cached(before, row))
    }
  }

  // Every entry is one the probe left, or a stored candidate with the newest stamp.
  lemma EntryAfter(table: nat -> Row, sets: nat, ways: nat, clock: int, before: seq<Entry>, later: int, now: seq<Entry>,
                   did: Did, inserted: int, evicted: int, e: nat)
    requires did.Ok(table, sets, ways, clock, before, later, now, inserted, evicted) && e < |now|
    ensures |now| == |before| == |did.mid|
    ensures now[e] == did.mid[e] || (now[e].tag in did.cands && now[e].stamp == later == did.midClock + 1)
  {
    if !(sets == 0 || did.cands == []) {
      EntryFrom(table, sets, ways, later, did.mid, now, did.cands, did.lrus, did.placed, e);
    }
  }

  // After a fetch the rows it asked for have newer stamps than all others, which keep theirs.
  lemma AskedAreNewest(table: nat -> Row, sets: nat, ways: nat, clock: int, before: seq<Entry>, later: int, now: seq<Entry>,
                       did: Did, inserted: int, evicted: int, e: nat)
    requires did.Ok(table, sets, ways, clock, before, later, now, inserted, evicted) && e < |now| && 0 < sets
    ensures if now[e].tag in did.unique then now[e].stamp > clock else now[e] == before[e] && now[e].stamp <= clock
  {
    EntryAfter(table, sets, ways, clock, before, later, now, did, inserted, evicted, e);
    assert EntryOk(table, sets, ways, clock, e, before[e]);
    if now[e] == did.mid[e] {
      TagInUnique(did.unique, before[e].tag);
      if now[e].tag in did.unique {
        var j: nat :| j < |did.unique| && did.unique[j] == now[e].tag;
        assert Cached(before, did.unique[j]);
      }
    }
  }

  lemma TagInUnique(unique: seq<nat>, tag: int)
    ensures RowIn(unique, |unique|, tag) <==> tag in unique
  {
  }

  // An entry a fetch replaces comes, by stamp after the probe and then way, before every
  // entry of its set that stays.
  lemma FetchEvictsLru(table: nat -> Row, sets: nat, ways: nat, clock: int, before: seq<Entry>, later: int, now: seq<Entry>,
                       did: Did, inserted: int, evicted: int, s: nat, v: nat, w: nat)
    requires did.Ok(table, sets, ways, clock, before, later, now, inserted, evicted)
    requires s < sets && v < ways && w < ways && At(ways, s, v) < |now| && At(ways, s, w) < |now| && |now| == |did.mid|
    requires now[At(ways, s, v)] != did.mid[At(ways, s, v)] && now[At(ways, s, w)] == did.mid[At(ways, s, w)]
    ensures var old_, kept := did.mid[At(ways, s, v)].stamp, did.mid[At(ways, s, w)].stamp; old_ < kept || (old_ == kept && v < w)
  {
    forall e | 0 <= e < |did.mid|
      ensures did.mid[e].stamp < later
    {
      assert EntryOk(table, sets, ways, did.midClock, e, did.mid[e]);
    }
    EvictsLru(table, sets, ways, later, did.mid, now, did.cands, did.lrus, did.placed, s, v, w);
  }

  // The good misses are cached as far as the ways of their sets allow.
  lemma GoodMissesCached(table: nat -> Row, sets: nat, ways: nat, clock: int, before: seq<Entry>, later: int, now: seq<Entry>,
                         did: Did, inserted: int, evicted: int, m: nat)
    requires did.Ok(table, sets, ways, clock, before, later, now, inserted, evicted) && 0 < sets
    requires m < |did.cands| && |RowsIn(sets, did.cands, m, SetOf(sets, did.cands[m]))| < ways
    ensures Cached(now, did.cands[m])
  {
    RankIs(sets, did.cands, m);
    var s, k := SetOf(sets, did.cands[m]), RankOf(sets, did.cands, m);
    assert IsPlaced(sets, ways, did.cands, did.lrus, did.placed, m);
    assert RankFilled(table, ways, later, did.mid, now, did.cands, did.lrus, did.placed, s, k);
  }

  // Occupied entries change by inserts minus evictions.
  lemma FetchOccupies(table: nat -> Row, sets: nat, ways: nat, clock: int, before: seq<Entry>, later: int, now: seq<Entry>,
                      did: Did, inserted: int, evicted: int)
    requires did.Ok(table, sets, ways, clock, before, later, now, inserted, evicted)
    ensures Occupied(now) == Occupied(before) + inserted - evicted
    ensures |Holding(now)| == |Holding(before)| + inserted - evicted
  {
    OccupiedIs(now);
    OccupiedIs(before);
    SameOccupied(before, did.mid);
  }

  lemma {:induction false} SameOccupied(a: seq<Entry>, b: seq<Entry>)
    requires |a| == |b| && forall e | 0 <= e < |a| :: a[e].tag == b[e].tag
    ensures Occupied(a) == Occupied(b)
    decreases |a|
  {
    if a != [] {
      SameOccupied(a[..|a| - 1], b[..|b| - 1]);
    }
  }

  // list is exactly the indices below n that satisfy p, ascending.
  ghost predicate Selects(list: seq<nat>, n: nat, p: int -> bool) {
    && (forall a, b | 0 <= a < b < |list| :: list[a] < list[b])
    && (forall a | 0 <= a < |list| :: list[a] < n && p(list[a]))
    && (forall i: nat | i < n && p(i) :: i in list)
  }

  function TagAt(es: seq<Entry>, ways: nat, s: nat, w: nat): int {
    if At(ways, s, w) < |es| then es[At(ways, s, w)].tag else -1
  }

  ghost predicate HitOk(es: seq<Entry>, sets: nat, ways: nat, row: nat, way: int) {
    && (way >= 0 <==> Cached(es, row))
    && (way >= 0 ==> 0 < sets && At(ways, SetOf(sets, row), way) < |es| && es[At(ways, SetOf(sets, row), way)].tag == row)
  }

  lemma WayHasTag(table: nat -> Row, sets: nat, ways: nat, clock: int, es: seq<Entry>, row: nat)
    requires CacheOk(table, sets, ways, clock, es) && 0 < sets && Cached(es, row)
    ensures exists w: nat :: w < ways && TagAt(es, ways, SetOf(sets, row), w) == row
  {
    var w := CachedWay(table, sets, ways, clock, es, row);
    assert TagAt(es, ways, SetOf(sets, row), w) == row;
  }

  // The row is cached, or its set has no empty way.
  ghost predicate Preloaded(es: seq<Entry>, sets: nat, ways: nat, row: nat)
    requires 0 < sets
  {
    Cached(es, row) || forall w: nat | w < ways :: TagAt(es, ways, SetOf(sets, row), w) >= 0
  }

  // What preloading n rows from `first` on has done: only empty entries have changed, to hold
  // one of them with the oldest stamp.
  ghost predicate PreloadedTo(before: seq<Entry>, es: seq<Entry>, sets: nat, ways: nat, first: nat, n: nat)
    requires 0 < sets
  {
    && |es| == |before|
    && (forall e | 0 <= e < |es| && before[e].tag >= 0 :: es[e] == before[e])
    && (forall e | 0 <= e < |es| && es[e] != before[e] :: first <= es[e].tag < first + n && es[e].stamp == 1)
    && (forall row: nat | first <= row < first + n :: Preloaded(es, sets, ways, row))
  }

  ghost predicate PreloadedOne(was: seq<Entry>, es: seq<Entry>, sets: nat, ways: nat, row: nat)
    requires 0 < sets
  {
    && |es| == |was| && Preloaded(es, sets, ways, row)
    && forall e | 0 <= e < |es| && es[e] != was[e] :: was[e].tag < 0 && es[e].tag == row && es[e].stamp == 1
  }

  lemma PreloadedSame(es: seq<Entry>, sets: nat, ways: nat, row: nat)
    requires 0 < sets && Preloaded(es, sets, ways, row)
    ensures PreloadedOne(es, es, sets, ways, row)
  {
  }

  lemma PreloadedHere(es: seq<Entry>, sets: nat, ways: nat, e: nat, row: nat, x: Entry)
    requires 0 < sets && e < |es| && es[e].tag < 0 && x.tag == row && x.stamp == 1
    ensures PreloadedOne(es, es[e := x], sets, ways, row)
  {
    assert es[e := x][e].tag == row;
  }

  lemma PreloadedNone(es: seq<Entry>, sets: nat, ways: nat, first: nat)
    requires 0 < sets
    ensures PreloadedTo(es, es, sets, ways, first, 0)
  {
  }

  lemma PreloadedNext(before: seq<Entry>, was: seq<Entry>, es: seq<Entry>, sets: nat, ways: nat, first: nat, n: nat)
    requires 0 < sets && PreloadedTo(before, was, sets, ways, first, n) == true
    requires PreloadedOne(was, es, sets, ways, first + n) == true
    ensures PreloadedTo(before, es, sets, ways, first, n + 1)
  {
    forall row: nat | first <= row < first + n
      ensures Preloaded(es, sets, ways, row)
    {
      PreloadedKept(was, es, sets, ways, row);
    }
  }

  lemma PreloadedKept(was: seq<Entry>, now: seq<Entry>, sets: nat, ways: nat, row: nat)
    requires 0 < sets && |was| == |now| && forall e | 0 <= e < |was| && was[e].tag >= 0 :: now[e] == was[e]
    requires Preloaded(was, sets, ways, row)
    ensures Preloaded(now, sets, ways, row)
  {
    forall w: nat | w < ways && TagAt(was, ways, SetOf(sets, row), w) >= 0
      ensures TagAt(now, ways, SetOf(sets, row), w) >= 0
    {
    }
  }

  // Before any fetch, a set's occupied ways come before its empty ones.
  ghost predicate FilledInOrder(es: seq<Entry>, sets: nat, ways: nat) {
    forall s: nat, v: nat, w: nat :: FilledPair(es, sets, ways, s, v, w)
  }

  ghost predicate FilledPair(es: seq<Entry>, sets: nat, ways: nat, s: nat, v: nat, w: nat) {
    s < sets && v < w < ways && TagAt(es, ways, s, w) >= 0 ==> TagAt(es, ways, s, v) >= 0
  }

  lemma EmptyAfter(es: seq<Entry>, sets: nat, ways: nat, s: nat, w: nat, v: nat)
    requires FilledInOrder(es, sets, ways) && s < sets && w < v < ways && TagAt(es, ways, s, w) < 0
    ensures TagAt(es, ways, s, v) < 0
  {
    assert FilledPair(es, sets, ways, s, w, v);
  }

  // A row not met before its set's first empty way is not cached.
  lemma NotCached(table: nat -> Row, sets: nat, ways: nat, clock: int, es: seq<Entry>, row: nat, w: nat)
    requires CacheOk(table, sets, ways, clock, es) && 0 < sets && FilledInOrder(es, sets, ways)
    requires w < ways && TagAt(es, ways, SetOf(sets, row), w) < 0
    requires forall v: nat | v < w :: TagAt(es, ways, SetOf(sets, row), v) != row
    ensures !Cached(es, row)
  {
    if Cached(es, row) {
      WayHasTag(table, sets, ways, clock, es, row);
      var v: nat :| v < ways && TagAt(es, ways, SetOf(sets, row), v) == row;
      EmptyAfter(es, sets, ways, SetOf(sets, row), w, v);
    }
  }

  lemma FillNext(es: seq<Entry>, sets: nat, ways: nat, s: nat, w: nat, e: nat, x: Entry)
    requires FilledInOrder(es, sets, ways) && |es| == At(ways, sets, 0) && s < sets && w < ways && e == At(ways, s, w) < |es| && x.tag >= 0
    requires forall v: nat | v < w :: TagAt(es, ways, s, v) >= 0
    ensures FilledInOrder(es[e := x], sets, ways)
  {
    var after := es[e := x];
    forall t: nat, u: nat, v: nat
      ensures FilledPair(after, sets, ways, t, u, v)
    {
      if t < sets && u < v < ways {
        TagAfter(es, sets, ways, s, w, e, x, t, u);
        TagAfter(es, sets, ways, s, w, e, x, t, v);
        assert FilledPair(es, sets, ways, t, u, v);
      }
    }
  }

  lemma TagAfter(es: seq<Entry>, sets: nat, ways: nat, s: nat, w: nat, e: nat, x: Entry, t: nat, u: nat)
    requires |es| == At(ways, sets, 0) && s < sets && w < ways && e == At(ways, s, w) < |es| && t < sets && u < ways
    ensures TagAt(es[e := x], ways, t, u) == if t == s && u == w then x.tag else TagAt(es, ways, t, u)
  {
    EntryOfSet(sets, ways, t, u);
    EntryOfSet(sets, ways, s, w);
  }

  lemma OlderClocks(table: nat -> Row, sets: nat, ways: nat, clock: int, later: int, es: seq<Entry>)
    requires CacheOk(table, sets, ways, clock, es) && clock <= later
    ensures CacheOk(table, sets, ways, later, es)
  {
    if 0 < sets {
      forall e: nat | e < |es|
        ensures EntryOk(table, sets, ways, later, e, es[e])
      {
        assert EntryOk(table, sets, ways, clock, e, es[e]);
      }
    }
  }

  lemma NoEntries(table: nat -> Row, sets: nat, ways: nat, clock: int, es: seq<Entry>)
    requires CacheOk(table, sets, ways, clock, es) && sets == 0
    ensures es == [] && forall row: int :: !Cached(es, row)
  {
  }

  lemma NoHits(es: seq<Entry>, clock: int, unique: seq<nat>)
    requires forall i | 0 <= i < |unique| :: !Cached(es, unique[i])
    ensures StampedTo(es, es, clock, unique, |unique|)
  {
  }

  // Only stamps differ: entries of the first j rows carry the clock.
  ghost predicate StampedTo(before: seq<Entry>, es: seq<Entry>, clock: int, unique: seq<nat>, j: nat) {
    && j <= |unique| && |es| == |before|
    && (forall e | 0 <= e < |es| :: es[e].tag == before[e].tag && es[e].data == before[e].data)
    && (forall e | 0 <= e < |es| :: es[e].stamp == if RowIn(unique, j, before[e].tag) then clock else before[e].stamp)
  }

  ghost predicate RowIn(unique: seq<nat>, j: nat, row: int)
    requires j <= |unique|
  {
    exists i :: 0 <= i < j && unique[i] == row
  }

  lemma StampedNext(table: nat -> Row, sets: nat, ways: nat, clock: int, before: seq<Entry>, es: seq<Entry>, unique: seq<nat>, j: nat, e: nat)
    requires StampedTo(before, es, clock, unique, j) && j < |unique| && e < |es| && before[e].tag == unique[j]
    requires CacheOk(table, sets, ways, clock, es)
    ensures StampedTo(before, es[e := es[e].(stamp := clock)], clock, unique, j + 1)
  {
    forall f | 0 <= f < |es|
      ensures RowIn(unique, j + 1, before[f].tag) <==> RowIn(unique, j, before[f].tag) || f == e
    {
      RowInNext(unique, j, before[f].tag);
    }
  }

  lemma StampedMiss(before: seq<Entry>, es: seq<Entry>, clock: int, unique: seq<nat>, j: nat)
    requires StampedTo(before, es, clock, unique, j) && j < |unique| && !Cached(before, unique[j])
    ensures StampedTo(before, es, clock, unique, j + 1)
  {
    forall f | 0 <= f < |es|
      ensures RowIn(unique, j + 1, before[f].tag) <==> RowIn(unique, j, before[f].tag)
    {
      RowInNext(unique, j, before[f].tag);
    }
  }

  lemma RowInNext(unique: seq<nat>, j: nat, row: int)
    requires j < |unique|
    ensures RowIn(unique, j + 1, row) <==> RowIn(unique, j, row) || unique[j] == row
  {
    if unique[j] == row {
      assert 0 <= j < j + 1;
    }
  }

  // Stamping an occupied entry anew keeps the cache in order.
  lemma Restamp(table: nat -> Row, sets: nat, ways: nat, clock: int, es: seq<Entry>, e: nat)
    requires CacheOk(table, sets, ways, clock, es) && 0 < clock && e < |es| && es[e].tag >= 0 && 0 < sets
    ensures CacheOk(table, sets, ways, clock, es[e := es[e].(stamp := clock)])
    ensures forall row: int :: Cached(es[e := es[e].(stamp := clock)], row) <==> Cached(es, row)
  {
    var after := es[e := es[e].(stamp := clock)];
    assert forall f: nat | f < |es| :: after[f].tag == es[f].tag;
    forall f: nat | f < |after|
      ensures EntryOk(table, sets, ways, clock, f, after[f])
    {
      assert EntryOk(table, sets, ways, clock, f, es[f]);
    }
    SameTags(es, after);
  }

  lemma SameTags(a: seq<Entry>, b: seq<Entry>)
    requires |a| == |b| && forall e | 0 <= e < |a| :: a[e].tag == b[e].tag
    ensures forall row: int :: Cached(a, row) <==> Cached(b, row)
  {
  }

  lemma OlderClock(table: nat -> Row, sets: nat, ways: nat, clock: int, es: seq<Entry>)
    requires CacheOk(table, sets, ways, clock, es)
    ensures CacheOk(table, sets, ways, clock + 1, es)
  {
    if 0 < sets {
      forall e: nat | e < |es|
        ensures EntryOk(table, sets, ways, clock + 1, e, es[e])
      {
        assert EntryOk(table, sets, ways, clock, e, es[e]);
      }
    }
  }

  lemma OpenedNext(sets: nat, cands: seq<nat>, order: seq<nat>, from: nat, g: nat, lrus: map<nat, seq<nat>>, more: map<nat, seq<nat>>)
    requires 0 < sets && from < g <= |order| && Lists(order, |cands|) && Opened(sets, cands, order, from, lrus)
    requires more.Keys == lrus.Keys + {SetOf(sets, cands[order[from]])}
    ensures Opened(sets, cands, order, g, more)
  {
    forall s | s in more
      ensures exists a :: 0 <= a < g && SetOf(sets, cands[order[a]]) == s
    {
      if s in lrus {
        var a :| 0 <= a < from && SetOf(sets, cands[order[a]]) == s;
      }
    }
  }

  lemma StartInsert(table: nat -> Row, sets: nat, ways: nat, clock: int, es: seq<Entry>, cands: seq<nat>, order: seq<nat>)
    requires CacheOk(table, sets, ways, clock - 1, es) && 0 < sets && 0 < clock && Lists(order, |cands|)
    requires forall m: nat | m < |cands| :: !Cached(es, cands[m])
    requires forall m, n | 0 <= m < n < |cands| :: cands[m] != cands[n]
    ensures Inserting(table, sets, ways, clock, es, es, cands, order, 0, map[], map[], 0, 0)
  {
    OlderClock(table, sets, ways, clock - 1, es);
    forall s: nat, w: nat | s < sets && w < ways
      ensures WaySame(es, es, ways, s, w)
    {
    }
  }

  lemma SameLru(before: seq<Entry>, now: seq<Entry>, ways: nat, s: nat, lru: seq<nat>)
    requires LruOrder(now, ways, s, lru)
    requires forall w: nat | w < ways :: StampOf(now, ways, s, w) == StampOf(before, ways, s, w)
    ensures LruOrder(before, ways, s, lru)
  {
  }

  lemma OpenPlaced(sets: nat, ways: nat, cands: seq<nat>, order: seq<nat>, g: nat, lrus: map<nat, seq<nat>>, placed: map<(nat, nat), nat>,
                   s: nat, lru: seq<nat>)
    requires PlacedTo(sets, ways, cands, order, g, lrus, placed)
    ensures PlacedTo(sets, ways, cands, order, g, lrus[s := lru], placed)
  {
    forall a | 0 <= a < g
      ensures IsPlaced(sets, ways, cands, lrus[s := lru], placed, order[a])
    {
      assert IsPlaced(sets, ways, cands, lrus, placed, order[a]);
    }
  }

  lemma AllPlaced(sets: nat, ways: nat, cands: seq<nat>, order: seq<nat>, lrus: map<nat, seq<nat>>, placed: map<(nat, nat), nat>)
    requires PlacedTo(sets, ways, cands, order, |order|, lrus, placed)
    ensures forall m: nat | m < |cands| :: IsPlaced(sets, ways, cands, lrus, placed, m)
  {
    forall m: nat | m < |cands|
      ensures IsPlaced(sets, ways, cands, lrus, placed, m)
    {
      assert m in order;
    }
  }

  // An insert adds no row but its candidates.
  lemma InsertedRows(table: nat -> Row, sets: nat, ways: nat, clock: int, before: seq<Entry>, now: seq<Entry>,
                          cands: seq<nat>, lrus: map<nat, seq<nat>>, placed: map<(nat, nat), nat>)
    requires Inserted(table, sets, ways, clock, before, now, cands, lrus, placed) && 0 < ways && |before| == At(ways, sets, 0)
    ensures forall row: int :: Cached(now, row) ==> Cached(before, row) || row in cands
  {
    forall row: int | Cached(now, row)
      ensures Cached(before, row) || row in cands
    {
      var e: nat :| e < |now| && now[e].tag == row;
      EntryFrom(table, sets, ways, clock, before, now, cands, lrus, placed, e);
    }
  }

  lemma EntryFrom(table: nat -> Row, sets: nat, ways: nat, clock: int, before: seq<Entry>, now: seq<Entry>,
                       cands: seq<nat>, lrus: map<nat, seq<nat>>, placed: map<(nat, nat), nat>, e: nat)
    requires Inserted(table, sets, ways, clock, before, now, cands, lrus, placed) && 0 < ways && |before| == At(ways, sets, 0)
    requires e < |now|
    ensures now[e] == before[e] || (now[e].tag in cands && now[e].stamp == clock)
  {
    var s, w := Area(ways, e), Offset(ways, e);
    AtOfArea(ways, e);
    AreaBelow(ways, e, sets);
    if s in lrus {
      assert LruOrder(before, ways, s, lrus[s]);
      assert w in lrus[s];
      var k: nat :| k < ways && lrus[s][k] == w;
      assert RankFilled(table, ways, clock, before, now, cands, lrus, placed, s, k);
    } else {
      Untouched(table, sets, ways, clock, before, now, cands, lrus, placed, s, w);
    }
  }

  lemma FreshNext(now: seq<Entry>, after: seq<Entry>, cands: seq<nat>, order: seq<nat>, g: nat)
    requires Fresh(now, cands, order, g) && g < |order| && SortedList(order)
    requires forall row: int :: Cached(after, row) ==> row == cands[order[g]] || Cached(now, row)
    ensures Fresh(after, cands, order, g + 1)
  {
  }
}
