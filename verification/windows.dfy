/** Reading the hourly index over a window (intelligence_temporal.go, loadHourlyDimensionTotals) and the
    direct row scan it replaces (analytics.go, GetTopDimensions). */
module Windows {
  import opened Types
  import opened Matching
  import opened Allocator
  import opened Derived
  import opened Hourly
  import opened HourlyIndex
  import opened Plan
  import opened Accounting
  import opened Seeding

  function Amount(b: Bytes, up: bool): int {
    if up then b.up else b.down
  }

  /** The cells a window query groups for one dimension name and route. */
  function WindowKeys(cells: Cells, dim: Dim, route: Route, from: Time, to: Time): set<AggKey> {
    set key | key in cells && key.dim == dim && key.route == route && from <= key.bucket < to
  }

  function CellWeight(cells: Cells, up: bool): AggKey -> int {
    key => Amount(CellAt(cells, key).total, up)
  }

  /** loadHourlyDimensionTotals: SUM over the buckets starting inside the window. */
  ghost function HourlyTotal(cells: Cells, dim: Dim, route: Route, from: Time, to: Time, up: bool): int {
    Sum(CellWeight(cells, up), WindowKeys(cells, dim, route, from, to))
  }

  // ---------------------------------------------------------------------------------------------
  // The direct scan
  // ---------------------------------------------------------------------------------------------

  function DirectRow(r: AccountedRow, dim: Dim, route: Route, from: Time, to: Time): Bytes {
    if r.route == route && Carries(r.names, dim) then DirectShare(r.at, r.interval, r.exact, r.accounted, from, to)
        else NO_BYTES
  }

  function DirectTotal(rows: seq<AccountedRow>, dim: Dim, route: Route, from: Time, to: Time): Bytes {
    if rows == [] then NO_BYTES
    else
      var front, last := DirectTotal(rows[..|rows| - 1], dim, route, from, to),
          DirectRow(rows[|rows| - 1], dim, route, from, to);
      Bytes(front.up + last.up, front.down + last.down)
  }

  type Ranking = map<(string, Route), Bytes>

  function RankedAt(ranking: Ranking, name: string, route: Route): Bytes {
    if (name, route) in ranking then ranking[(name, route)] else NO_BYTES
  }

  /** GetTopDimensions without the sorting: rows without a name or without bytes in the window are skipped. */
  method GetTopDimensions(rows: seq<AccountedRow>, kind: DimKind, from: Time, to: Time) returns (ranking: Ranking)
    ensures forall name, route :: name != "" ==>
              RankedAt(ranking, name, route) == DirectTotal(rows, Dim(kind, name), route, from, to)
  {
    hide DirectShare;
    ranking := map[];
    for i := 0 to |rows|
      invariant forall name, route :: name != "" ==>
                  RankedAt(ranking, name, route) == DirectTotal(rows[..i], Dim(kind, name), route, from, to)
    {
      var r := rows[i];
      assert rows[..i + 1][..i] == rows[..i];
      var name := NameAt(r.names, kind);
      if name != "" {
        var share := DirectShare(r.at, r.interval, r.exact, r.accounted, from, to);
        if share.up != 0 || share.down != 0 {
          var was := RankedAt(ranking, name, r.route);
          ranking := ranking[(name, r.route) := Bytes(was.up + share.up, was.down + share.down)];
        }
      }
    }
    assert rows[..|rows|] == rows;
  }

  // ---------------------------------------------------------------------------------------------
  // Sums over cells
  // ---------------------------------------------------------------------------------------------

  function RowsWeight(rows: seq<AccountedRow>, up: bool): AggKey -> int {
    key => Amount(RowsShare(rows, key, true), up) + Amount(RowsShare(rows, key, false), up)
  }

  function RowWeight(r: AccountedRow, up: bool): AggKey -> int {
    key => Amount(RowShare(r, r.accounted, key, true), up) + Amount(RowShare(r, r.accounted, key, false), up)
  }

  function AllocWeight(allocs: seq<Allocation>, up: bool): AggKey -> int {
    (key: AggKey) => Amount(AllocSum(allocs, key.bucket, true), up) + Amount(AllocSum(allocs, key.bucket, false), up)
  }

  lemma {:induction false} WindowSumAppend(allocs: seq<Allocation>, a: Allocation, from: Time, to: Time)
    ensures WindowSum(allocs + [a], from, to)
            == if from <= a.bucket < to
               then Bytes(WindowSum(allocs, from, to).up + a.bytes.up, WindowSum(allocs, from, to).down + a.bytes.down)
               else WindowSum(allocs, from, to)
  {
    if allocs == [] {
      assert (allocs + [a])[1..] == [];
    } else {
      WindowSumAppend(allocs[1..], a, from, to);
      assert (allocs + [a])[1..] == allocs[1..] + [a];
    }
  }

  /** Summing an allocation list over the cells of a window is its window sum, provided every bucket of
      the list that lies in the window has a cell. */
  lemma {:induction false} CellsCollectAllocations(allocs: seq<Allocation>, keys: set<AggKey>, dim: Dim, route: Route,
                                                   from: Time, to: Time, up: bool)
    requires forall key :: key in keys ==> key.dim == dim && key.route == route && from <= key.bucket < to
    requires forall a :: a in allocs && from <= a.bucket < to ==> AggKey(a.bucket, dim, route) in keys
    ensures Sum(AllocWeight(allocs, up), keys) == Amount(WindowSum(allocs, from, to), up)
  {
    if allocs == [] {
      SumAdds(AllocWeight([], up), AllocWeight([], up), AllocWeight([], up), keys);
    } else {
      var front, a := allocs[..|allocs| - 1], allocs[|allocs| - 1];
      assert allocs == front + [a];
      CellsCollectAllocations(front, keys, dim, route, from, to, up);
      WindowSumAppend(front, a, from, to);
      var key := AggKey(a.bucket, dim, route);
      var one := LastWeight(a, up);
      SumAdds(AllocWeight(front, up), one, AllocWeight(allocs, up), keys);
      SumPoint(one, keys, key);
    }
  }

  function LastWeight(a: Allocation, up: bool): AggKey -> int {
    (key: AggKey) => if key.bucket == a.bucket then Amount(a.bytes, up) else 0
  }

  /** The bytes of a row that only the index counts: an empty interval is posted to the hour of its
      observation and clipped away by the scan. */
  function UnscannedRow(r: AccountedRow, dim: Dim, route: Route, from: Time, to: Time): Bytes {
    if r.route == route && Carries(r.names, dim) && EmptyInterval(r.interval, r.exact) && from <= r.at < to
    then r.accounted else NO_BYTES
  }

  function UnscannedTotal(rows: seq<AccountedRow>, dim: Dim, route: Route, from: Time, to: Time): Bytes {
    if rows == [] then NO_BYTES
    else
      var front := UnscannedTotal(rows[..|rows| - 1], dim, route, from, to);
      var last := UnscannedRow(rows[|rows| - 1], dim, route, from, to);
      Bytes(front.up + last.up, front.down + last.down)
  }

  /** What one row adds to the cells of a window is what the direct scan attributes to the window, and
      the row's unscanned bytes. */
  lemma RowOverWindow(r: AccountedRow, cells: Cells, dim: Dim, route: Route, from: Time, to: Time, up: bool)
    requires NonNegative(r.accounted) && HourAligned(from) && HourAligned(to)
    requires forall key :: ProjectsTo(r, key) ==> key in cells
    ensures Sum(RowWeight(r, up), WindowKeys(cells, dim, route, from, to))
            == Amount(DirectRow(r, dim, route, from, to), up) + Amount(UnscannedRow(r, dim, route, from, to), up)
  {
    hide RowShare, DirectShare, AllocSum, Allocations, WindowSum;
    var keys := WindowKeys(cells, dim, route, from, to);
    var allocs := AllocationsFor(r, r.accounted);
    forall key | key in keys
      ensures RowShare(r, r.accounted, key, true)
              == if r.route == route && Carries(r.names, dim) then AllocSum(allocs, key.bucket, true) else NO_BYTES
      ensures RowShare(r, r.accounted, key, false)
              == if r.route == route && Carries(r.names, dim) then AllocSum(allocs, key.bucket, false) else NO_BYTES
    {
      RowShareIsAllocSum(r, r.accounted, key, true);
      RowShareIsAllocSum(r, r.accounted, key, false);
    }
    if r.route == route && Carries(r.names, dim) {
      BucketsHaveCells(r, cells, dim);
      CellsCollectAllocations(allocs, keys, dim, route, from, to, up);
      if EmptyInterval(r.interval, r.exact) {
        EmptyIntervalOnlyInIndex(r.at, r.interval, r.exact, r.accounted, from, to);
      } else {
        BucketsAgreeWithDirectScan(r.at, r.interval, r.exact, r.accounted, from, to);
      }
      SumAdds(RowWeight(r, up), Nothing(), AllocWeight(allocs, up), keys);
      SumPoint(Nothing(), keys, AggKey(0, dim, route));
    } else {
      SumPoint(RowWeight(r, up), keys, AggKey(0, dim, route));
    }
  }

  function Nothing(): AggKey -> int {
    key => 0
  }

  lemma BucketsHaveCells(r: AccountedRow, cells: Cells, dim: Dim)
    requires Carries(r.names, dim) && forall key :: ProjectsTo(r, key) ==> key in cells
    ensures forall a :: a in AllocationsFor(r, r.accounted) ==> AggKey(a.bucket, dim, r.route) in cells
  {
    hide Allocations;
    BucketsIgnoreBytes(r, r.accounted, NO_BYTES);
    var x, y := AllocationsFor(r, r.accounted), AllocationsFor(r, NO_BYTES);
    forall a | a in x ensures AggKey(a.bucket, dim, r.route) in cells {
      var i :| 0 <= i < |x| && x[i] == a;
      assert y[i] in y && y[i].bucket == a.bucket;
      assert ProjectsTo(r, AggKey(a.bucket, dim, r.route));
    }
  }

  lemma {:induction false} RowsOverWindow(rows: seq<AccountedRow>, cells: Cells, dim: Dim, route: Route, from: Time,
                                          to: Time, up: bool)
    requires forall r :: r in rows ==> NonNegative(r.accounted)
    requires KeysOk(cells, rows) && HourAligned(from) && HourAligned(to)
    ensures Sum(RowsWeight(rows, up), WindowKeys(cells, dim, route, from, to))
            == Amount(DirectTotal(rows, dim, route, from, to), up)
                + Amount(UnscannedTotal(rows, dim, route, from, to), up)
  {
    hide RowShare, DirectRow, UnscannedRow, ProjectsTo;
    var keys := WindowKeys(cells, dim, route, from, to);
    if rows == [] {
      SumPoint(RowsWeight(rows, up), keys, AggKey(0, dim, route));
    } else {
      var front, r := rows[..|rows| - 1], rows[|rows| - 1];
      assert r in rows;
      RowsOverWindow(front, cells, dim, route, from, to, up);
      RowOverWindow(r, cells, dim, route, from, to, up);
      SumAdds(RowsWeight(front, up), RowWeight(r, up), RowsWeight(rows, up), keys);
    }
  }

  // ---------------------------------------------------------------------------------------------
  // The index answers for the scan
  // ---------------------------------------------------------------------------------------------

  /** The estimated bytes of a cell that no current row accounts for. */
  function StaleWeight(cells: Cells, rows: seq<AccountedRow>, up: bool): AggKey -> int {
    key => Amount(CellAt(cells, key).est, up) - Amount(RowsShare(rows, key, false), up)
  }

  /** For every UTC-hour-aligned window the hourly sum is the direct scan, plus the bytes of rows with an
      empty interval, plus the estimated bytes that corrections left behind in the cells of the window. */
  lemma HourlyIsScanPlus(cells: Cells, rows: seq<AccountedRow>, dim: Dim, route: Route, from: Time, to: Time, up: bool)
    requires BytesOk(cells, rows) && KeysOk(cells, rows) && HourAligned(from) && HourAligned(to)
    requires forall r :: r in rows ==> NonNegative(r.accounted)
    ensures HourlyTotal(cells, dim, route, from, to, up)
            == Amount(DirectTotal(rows, dim, route, from, to), up)
                + Amount(UnscannedTotal(rows, dim, route, from, to), up)
               + Sum(StaleWeight(cells, rows, up), WindowKeys(cells, dim, route, from, to))
  {
    hide RowsShare, ProjectsTo, DirectTotal, UnscannedTotal;
    var keys := WindowKeys(cells, dim, route, from, to);
    RowsOverWindow(rows, cells, dim, route, from, to, up);
    forall key | key in keys
      ensures CellWeight(cells, up)(key) == RowsWeight(rows, up)(key) + StaleWeight(cells, rows, up)(key)
    {
      assert CellOk(CellAt(cells, key), rows, key);
    }
    SumAdds(RowsWeight(rows, up), StaleWeight(cells, rows, up), CellWeight(cells, up), keys);
  }

  /** No stale weight is negative, so a window's stale bytes cover those of each of its cells. */
  lemma StaleIsNonNegative(cells: Cells, rows: seq<AccountedRow>, keys: set<AggKey>, up: bool)
    requires BytesOk(cells, rows)
    ensures Sum(StaleWeight(cells, rows, up), keys) >= 0
    ensures forall key :: key in keys ==>
              Sum(StaleWeight(cells, rows, up), keys) >= StaleWeight(cells, rows, up)(key) >= 0
  {
    hide RowsShare;
    var stale := StaleWeight(cells, rows, up);
    forall key ensures stale(key) >= 0 {
      assert CellOk(CellAt(cells, key), rows, key);
    }
    SumNonNegative(stale, keys);
    forall key | key in keys ensures Sum(stale, keys) >= stale(key) {
      SumTake(stale, keys, key);
      SumNonNegative(stale, keys - {key});
    }
  }

  lemma {:induction false} UnscannedIsNonNegative(rows: seq<AccountedRow>, dim: Dim, route: Route, from: Time, to: Time)
    requires forall r :: r in rows ==> NonNegative(r.accounted)
    ensures NonNegative(UnscannedTotal(rows, dim, route, from, to))
    ensures forall r :: r in rows ==>
              UnscannedRow(r, dim, route, from, to).AtMost(UnscannedTotal(rows, dim, route, from, to))
  {
    if rows != [] {
      var front, last := rows[..|rows| - 1], rows[|rows| - 1];
      assert rows == front + [last];
      UnscannedIsNonNegative(front, dim, route, from, to);
    }
  }

  /** The hourly sums never fall below the direct window totals, whatever the rows. */
  lemma HourlyNeverBelowScan(cells: Cells, rows: seq<AccountedRow>, dim: Dim, route: Route, from: Time, to: Time,
                             up: bool)
    requires BytesOk(cells, rows) && KeysOk(cells, rows) && HourAligned(from) && HourAligned(to)
    requires forall r :: r in rows ==> NonNegative(r.accounted)
    ensures HourlyTotal(cells, dim, route, from, to, up) >= Amount(DirectTotal(rows, dim, route, from, to), up)
  {
    hide BytesOk, KeysOk, HourlyTotal, StaleWeight;
    HourlyIsScanPlus(cells, rows, dim, route, from, to, up);
    StaleIsNonNegative(cells, rows, WindowKeys(cells, dim, route, from, to), up);
    UnscannedIsNonNegative(rows, dim, route, from, to);
  }

  /** Every aligned window query on the hourly index answers what the direct scan answers. */
  ghost predicate AnswersForScan(cells: Cells, rows: seq<AccountedRow>) {
    forall dim, route, from, to, up | HourAligned(from) && HourAligned(to) ::
      HourlyTotal(cells, dim, route, from, to, up) == Amount(DirectTotal(rows, dim, route, from, to), up)
  }

  predicate EmptyIntervalsCarryNothing(rows: seq<AccountedRow>) {
    forall r :: r in rows && EmptyInterval(r.interval, r.exact) ==> r.accounted == NO_BYTES
  }

  lemma {:induction false} NothingUnscanned(rows: seq<AccountedRow>, dim: Dim, route: Route, from: Time, to: Time)
    requires EmptyIntervalsCarryNothing(rows)
    ensures UnscannedTotal(rows, dim, route, from, to) == NO_BYTES
  {
    if rows != [] {
      assert rows == rows[..|rows| - 1] + [rows[|rows| - 1]];
      NothingUnscanned(rows[..|rows| - 1], dim, route, from, to);
    }
  }

  lemma CurrentIndexAnswers(cells: Cells, rows: seq<AccountedRow>)
    requires BytesOk(cells, rows) && KeysOk(cells, rows) && forall r :: r in rows ==> NonNegative(r.accounted)
    requires EstimatesCurrent(cells, rows) && EmptyIntervalsCarryNothing(rows)
    ensures AnswersForScan(cells, rows)
  {
    hide BytesOk, KeysOk, HourlyTotal, DirectTotal, UnscannedTotal, RowsShare, EmptyIntervalsCarryNothing;
    forall dim, route, from, to, up | HourAligned(from) && HourAligned(to)
      ensures HourlyTotal(cells, dim, route, from, to, up) == Amount(DirectTotal(rows, dim, route, from, to), up)
    {
      HourlyIsScanPlus(cells, rows, dim, route, from, to, up);
      NothingUnscanned(rows, dim, route, from, to);
      SumPoint(StaleWeight(cells, rows, up), WindowKeys(cells, dim, route, from, to), AggKey(0, dim, route));
    }
  }

  /** One window that a stale cell or an unscanned row makes wrong. */
  lemma WrongWindow(cells: Cells, rows: seq<AccountedRow>, dim: Dim, route: Route, from: Time, to: Time, up: bool)
    requires BytesOk(cells, rows) && KeysOk(cells, rows) && HourAligned(from) && HourAligned(to)
    requires forall r :: r in rows ==> NonNegative(r.accounted)
    requires || Amount(UnscannedTotal(rows, dim, route, from, to), up) > 0
             || Sum(StaleWeight(cells, rows, up), WindowKeys(cells, dim, route, from, to)) > 0
    ensures !AnswersForScan(cells, rows)
  {
    hide BytesOk, KeysOk, HourlyTotal, StaleWeight, DirectTotal, UnscannedTotal;
    HourlyIsScanPlus(cells, rows, dim, route, from, to, up);
    StaleIsNonNegative(cells, rows, WindowKeys(cells, dim, route, from, to), up);
    UnscannedIsNonNegative(rows, dim, route, from, to);
    assert HourlyTotal(cells, dim, route, from, to, up) != Amount(DirectTotal(rows, dim, route, from, to), up);
  }

  lemma {:induction false} SharesAreNonNegative(rows: seq<AccountedRow>, key: AggKey)
    requires forall r :: r in rows ==> NonNegative(r.accounted)
    ensures NonNegative(RowsShare(rows, key, false))
  {
    hide RowShare;
    if rows != [] {
      var r := rows[|rows| - 1];
      assert r in rows;
      SharesAreNonNegative(rows[..|rows| - 1], key);
      if Spread(r) {
        SpreadShare(r, r.accounted, key);
      } else {
        WholeShare(r, r.accounted, key, false);
      }
    }
  }

  lemma StaleCellShows(cells: Cells, rows: seq<AccountedRow>, key: AggKey)
    requires BytesOk(cells, rows) && KeysOk(cells, rows) && HourCells(cells)
    requires forall r :: r in rows ==> NonNegative(r.accounted)
    requires CellAt(cells, key).est != RowsShare(rows, key, false)
    ensures !AnswersForScan(cells, rows)
  {
    hide RowsShare, ProjectsTo, AnswersForScan;
    SharesAreNonNegative(rows, key);
    assert CellOk(CellAt(cells, key), rows, key);
    var up := CellAt(cells, key).est.up != RowsShare(rows, key, false).up;
    var keys := WindowKeys(cells, key.dim, key.route, key.bucket, key.bucket + HOUR);
    assert key in keys;
    StaleIsNonNegative(cells, rows, keys, up);
    WrongWindow(cells, rows, key.dim, key.route, key.bucket, key.bucket + HOUR, up);
  }

  lemma UnscannedRowShows(cells: Cells, rows: seq<AccountedRow>, r: AccountedRow)
    requires BytesOk(cells, rows) && KeysOk(cells, rows) && forall r :: r in rows ==> NonNegative(r.accounted)
    requires r in rows && EmptyInterval(r.interval, r.exact) && r.accounted != NO_BYTES
    ensures !AnswersForScan(cells, rows)
  {
    hide BytesOk, KeysOk, AnswersForScan, UnscannedTotal;
    var dim, from := Dim(TotalDim, "total"), Bucket(r.at);
    BucketBounds(r.at);
    UnscannedIsNonNegative(rows, dim, r.route, from, from + HOUR);
    WrongWindow(cells, rows, dim, r.route, from, from + HOUR, r.accounted.up != 0);
  }

  /** Every aligned window of every dimension answers what the direct scan answers exactly when no
      correction has left estimated bytes behind and no row with an empty interval carries bytes. */
  lemma HourlyEqualsScanIff(cells: Cells, rows: seq<AccountedRow>)
    requires BytesOk(cells, rows) && KeysOk(cells, rows) && HourCells(cells)
    requires forall r :: r in rows ==> NonNegative(r.accounted)
    ensures AnswersForScan(cells, rows) <==> EstimatesCurrent(cells, rows) && EmptyIntervalsCarryNothing(rows)
  {
    hide BytesOk, KeysOk, HourCells, AnswersForScan, RowsShare;
    if EstimatesCurrent(cells, rows) && EmptyIntervalsCarryNothing(rows) {
      CurrentIndexAnswers(cells, rows);
    } else if !EstimatesCurrent(cells, rows) {
      var key :| CellAt(cells, key).est != RowsShare(rows, key, false);
      StaleCellShows(cells, rows, key);
    } else {
      var r :| r in rows && EmptyInterval(r.interval, r.exact) && r.accounted != NO_BYTES;
      UnscannedRowShows(cells, rows, r);
    }
  }

  /** So it is for every published generation and the index beside it. */
  lemma GenerationAnswersIff(gen: Generation, journal: seq<Event>, index: Cells, seen: Seen)
    requires GenOk(gen, journal) && Sound(journal) && IndexOk(index, seen, gen.rows)
    ensures AnswersForScan(index, gen.rows)
            <==> EstimatesCurrent(index, gen.rows) && EmptyIntervalsCarryNothing(gen.rows)
  {
    hide GenOk, Sound, AnswersForScan, EstimatesCurrent, EmptyIntervalsCarryNothing;
    LedgerHasNoNegatives(gen, journal);
    HourlyEqualsScanIff(index, gen.rows);
  }

  /** Adjacent aligned windows of the direct scan add up. */
  lemma {:induction false} ScanIsAdditive(rows: seq<AccountedRow>, dim: Dim, route: Route, from: Time, mid: Time,
                                          to: Time)
    requires forall r :: r in rows ==> NonNegative(r.accounted)
    requires from <= mid <= to
    ensures DirectTotal(rows, dim, route, from, to).up
            == DirectTotal(rows, dim, route, from, mid).up + DirectTotal(rows, dim, route, mid, to).up
    ensures DirectTotal(rows, dim, route, from, to).down
            == DirectTotal(rows, dim, route, from, mid).down + DirectTotal(rows, dim, route, mid, to).down
  {
    if rows != [] {
      var r := rows[|rows| - 1];
      assert r in rows;
      ScanIsAdditive(rows[..|rows| - 1], dim, route, from, mid, to);
      DirectIsAdditive(r, from, mid, to);
    }
  }

  lemma DirectIsAdditive(r: AccountedRow, from: Time, mid: Time, to: Time)
    requires NonNegative(r.accounted) && from <= mid <= to
    ensures var whole, left, right := DirectShare(r.at, r.interval, r.exact, r.accounted, from, to),
                                      DirectShare(r.at, r.interval, r.exact, r.accounted, from, mid),
                                      DirectShare(r.at, r.interval, r.exact, r.accounted, mid, to);
            whole.up == left.up + right.up && whole.down == left.down + right.down
  {
    if !r.exact && r.interval.Some? {
      var iv := r.interval.value;
      var s, e := Max(iv.start, from), Min(iv.end, to);
      if s <= mid <= e {
        AllocateIsAdditive(IntervalAllocator(iv.start, iv.end, r.accounted.up), s, mid, e);
        AllocateIsAdditive(IntervalAllocator(iv.start, iv.end, r.accounted.down), s, mid, e);
      }
    }
  }
}
