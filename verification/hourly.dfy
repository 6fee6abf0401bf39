/** The hourly dimension index (accounting_v2.go): byte cells per (bucket, dimension, route) and the
    distinct connections behind each cell's connection count. */
module Hourly {
  import opened Types
  import opened Matching
  import opened Allocator
  import opened Derived

  datatype DimKind =
    | TotalDim | ProcessDim | HostDim | DestIPDim | RuleDim | RulePayloadDim | FinalProxyDim | TopGroupDim | NetworkDim

  datatype Dim = Dim(kind: DimKind, name: string)

  datatype AggKey = AggKey(bucket: Time, dim: Dim, route: Route)

  datatype Posting = Posting(key: AggKey, bytes: Bytes, exact: bool)

  /** The name a row carries for a dimension. */
  function NameAt(n: Names, kind: DimKind): string {
    match kind
    case TotalDim => "total"
    case ProcessDim => n.process
    case HostDim => n.host
    case DestIPDim => n.destIP
    case RuleDim => n.rule
    case RulePayloadDim => n.rulePayload
    case FinalProxyDim => n.finalProxy
    case TopGroupDim => n.topGroup
    case NetworkDim => n.network
  }

  const ALL_KINDS := [TotalDim, ProcessDim, HostDim, DestIPDim, RuleDim, RulePayloadDim, FinalProxyDim, TopGroupDim,
                      NetworkDim]

  function NamedDims(n: Names, kinds: seq<DimKind>): seq<Dim> {
    if kinds == [] then []
    else
      var kind := kinds[|kinds| - 1];
      NamedDims(n, kinds[..|kinds| - 1]) + if NameAt(n, kind) == "" then [] else [Dim(kind, NameAt(n, kind))]
  }

  /** accountedDimensionPairs: the total, then every dimension the row has a name for. */
  function Dims(n: Names): seq<Dim> {
    NamedDims(n, ALL_KINDS)
  }

  predicate Carries(n: Names, d: Dim) {
    d.name != "" && d.name == NameAt(n, d.kind)
  }

  lemma {:induction false} NamedDimsAre(n: Names, kinds: seq<DimKind>)
    requires Distinct(kinds)
    ensures forall d :: d in NamedDims(n, kinds) <==> d.kind in kinds && Carries(n, d)
    ensures Distinct(NamedDims(n, kinds))
  {
    if kinds != [] {
      var front, kind := kinds[..|kinds| - 1], kinds[|kinds| - 1];
      NamedDimsAre(n, front);
      assert kinds == front + [kind];
    }
  }

  /** A dimension is projected exactly when the row carries its name, and never twice. */
  lemma DimsAreDistinct(n: Names)
    ensures forall d :: d in Dims(n) <==> Carries(n, d)
    ensures Distinct(Dims(n))
  {
    NamedDimsAre(n, ALL_KINDS);
    forall kind: DimKind ensures kind in ALL_KINDS {
      match kind
      case TotalDim => assert ALL_KINDS[0] == TotalDim;
      case ProcessDim => assert ALL_KINDS[1] == ProcessDim;
      case HostDim => assert ALL_KINDS[2] == HostDim;
      case DestIPDim => assert ALL_KINDS[3] == DestIPDim;
      case RuleDim => assert ALL_KINDS[4] == RuleDim;
      case RulePayloadDim => assert ALL_KINDS[5] == RulePayloadDim;
      case FinalProxyDim => assert ALL_KINDS[6] == FinalProxyDim;
      case TopGroupDim => assert ALL_KINDS[7] == TopGroupDim;
      case NetworkDim => assert ALL_KINDS[8] == NetworkDim;
    }
  }

  // ---------------------------------------------------------------------------------------------
  // Postings of a row
  // ---------------------------------------------------------------------------------------------

  function PostAllocation(a: Allocation, dims: seq<Dim>, route: Route): seq<Posting> {
    if dims == [] then []
    else
      PostAllocation(a, dims[..|dims| - 1], route)
      + [Posting(AggKey(a.bucket, dims[|dims| - 1], route), a.bytes, a.exact)]
  }

  function PostAllocations(allocs: seq<Allocation>, dims: seq<Dim>, route: Route): seq<Posting> {
    if allocs == [] then []
    else PostAllocations(allocs[..|allocs| - 1], dims, route) + PostAllocation(allocs[|allocs| - 1], dims, route)
  }

  function PostSum(ps: seq<Posting>, key: AggKey, exact: bool): Bytes {
    if ps == [] then NO_BYTES
    else
      var front, p := PostSum(ps[..|ps| - 1], key, exact), ps[|ps| - 1];
      if p.key == key && p.exact == exact then Bytes(front.up + p.bytes.up, front.down + p.bytes.down) else front
  }

  function AllocSum(allocs: seq<Allocation>, bucket: Time, exact: bool): Bytes {
    if allocs == [] then NO_BYTES
    else
      var front, a := AllocSum(allocs[..|allocs| - 1], bucket, exact), allocs[|allocs| - 1];
      if a.bucket == bucket && a.exact == exact then Bytes(front.up + a.bytes.up, front.down + a.bytes.down) else front
  }

  lemma {:induction false} PostSumConcat(a: seq<Posting>, b: seq<Posting>, key: AggKey, exact: bool)
    ensures PostSum(a + b, key, exact).up == PostSum(a, key, exact).up + PostSum(b, key, exact).up
    ensures PostSum(a + b, key, exact).down == PostSum(a, key, exact).down + PostSum(b, key, exact).down
  {
    if b == [] {
      assert a + b == a;
    } else {
      PostSumConcat(a, b[..|b| - 1], key, exact);
      assert (a + b)[..|a + b| - 1] == a + b[..|b| - 1];
    }
  }

  lemma PostSumStep(ps: seq<Posting>, p: Posting, key: AggKey, exact: bool)
    ensures PostSum([], key, exact) == NO_BYTES
    ensures PostSum(ps + [p], key, exact)
            == if p.key == key && p.exact == exact
               then Bytes(PostSum(ps, key, exact).up + p.bytes.up, PostSum(ps, key, exact).down + p.bytes.down)
               else PostSum(ps, key, exact)
  {
    assert (ps + [p])[..|ps + [p]| - 1] == ps;
  }

  lemma {:induction false} OnePostSum(a: Allocation, dims: seq<Dim>, route: Route, key: AggKey, exact: bool)
    requires Distinct(dims)
    ensures PostSum(PostAllocation(a, dims, route), key, exact)
            == if route == key.route && key.dim in dims && a.bucket == key.bucket && a.exact == exact
               then a.bytes else NO_BYTES
  {
    hide PostSum;
    if dims == [] {
      PostSumStep([], Posting(key, NO_BYTES, exact), key, exact);
    } else {
      var front, d := dims[..|dims| - 1], dims[|dims| - 1];
      OnePostSum(a, front, route, key, exact);
      assert dims == front + [d];
      PostSumStep(PostAllocation(a, front, route), Posting(AggKey(a.bucket, d, route), a.bytes, a.exact), key, exact);
    }
  }

  /** Each allocation reaches each projected dimension once. */
  lemma {:induction false} PostSumIsAllocSum(allocs: seq<Allocation>, dims: seq<Dim>, route: Route, key: AggKey,
                                             exact: bool)
    requires Distinct(dims)
    ensures PostSum(PostAllocations(allocs, dims, route), key, exact)
            == if route == key.route && key.dim in dims then AllocSum(allocs, key.bucket, exact) else NO_BYTES
  {
    if allocs != [] {
      var front, a := allocs[..|allocs| - 1], allocs[|allocs| - 1];
      PostSumIsAllocSum(front, dims, route, key, exact);
      OnePostSum(a, dims, route, key, exact);
      PostSumConcat(PostAllocations(front, dims, route), PostAllocation(a, dims, route), key, exact);
    }
  }

  function AllocationsFor(r: AccountedRow, bytes: Bytes): seq<Allocation> {
    Allocations(r.at, r.interval, r.exact, bytes)
  }

  function RowPostings(r: AccountedRow, bytes: Bytes): seq<Posting> {
    PostAllocations(AllocationsFor(r, bytes), Dims(r.names), r.route)
  }

  function RowShare(r: AccountedRow, bytes: Bytes, key: AggKey, exact: bool): Bytes {
    PostSum(RowPostings(r, bytes), key, exact)
  }

  predicate ProjectsTo(r: AccountedRow, key: AggKey) {
    && r.route == key.route
    && Carries(r.names, key.dim)
    && exists a :: a in AllocationsFor(r, NO_BYTES) && a.bucket == key.bucket
  }

  lemma RowShareIsAllocSum(r: AccountedRow, bytes: Bytes, key: AggKey, exact: bool)
    ensures RowShare(r, bytes, key, exact)
            == if r.route == key.route && Carries(r.names, key.dim)
               then AllocSum(AllocationsFor(r, bytes), key.bucket, exact)
               else NO_BYTES
  {
    DimsAreDistinct(r.names);
    PostSumIsAllocSum(AllocationsFor(r, bytes), Dims(r.names), r.route, key, exact);
  }

  lemma {:induction false} SharesSameBuckets(iv: Interval, b: Bytes, b': Bytes, curr: Time)
    ensures |SharesFrom(iv, b, curr)| == |SharesFrom(iv, b', curr)|
    ensures forall i :: 0 <= i < |SharesFrom(iv, b, curr)| ==>
                          SharesFrom(iv, b, curr)[i].bucket == SharesFrom(iv, b', curr)[i].bucket
    decreases iv.end - curr
  {
    if curr < iv.end {
      SharesSameBuckets(iv, b, b', BucketEnd(curr, iv.end));
    }
  }

  lemma BucketsIgnoreBytes(r: AccountedRow, b: Bytes, b': Bytes)
    ensures |AllocationsFor(r, b)| == |AllocationsFor(r, b')|
    ensures forall i :: 0 <= i < |AllocationsFor(r, b)| ==>
                          AllocationsFor(r, b)[i].bucket == AllocationsFor(r, b')[i].bucket
  {
    if !r.exact && r.interval.Some? && r.interval.value.start < r.interval.value.end {
      SharesSameBuckets(r.interval.value, b, b', r.interval.value.start);
    }
  }

  lemma {:induction false} PostingKeys(allocs: seq<Allocation>, dims: seq<Dim>, route: Route, key: AggKey)
    ensures (exists p :: p in PostAllocations(allocs, dims, route) && p.key == key)
            <==> route == key.route && key.dim in dims && exists a :: a in allocs && a.bucket == key.bucket
  {
    if allocs != [] {
      var front, a := allocs[..|allocs| - 1], allocs[|allocs| - 1];
      PostingKeys(front, dims, route, key);
      OnePostingKeys(a, dims, route, key);
      assert allocs == front + [a];
    }
  }

  lemma {:induction false} OnePostingKeys(a: Allocation, dims: seq<Dim>, route: Route, key: AggKey)
    ensures (exists p :: p in PostAllocation(a, dims, route) && p.key == key)
            <==> route == key.route && key.dim in dims && a.bucket == key.bucket
  {
    if dims != [] {
      OnePostingKeys(a, dims[..|dims| - 1], route, key);
      assert dims == dims[..|dims| - 1] + [dims[|dims| - 1]];
      var ps := PostAllocation(a, dims, route);
      assert ps[|ps| - 1] in ps;
    }
  }

  /** Whatever bytes a row posts, it touches the same cells. */
  lemma RowTouches(r: AccountedRow, bytes: Bytes, key: AggKey)
    ensures (exists p :: p in RowPostings(r, bytes) && p.key == key) <==> ProjectsTo(r, key)
  {
    hide PostAllocations, Dims, Allocations, Carries;
    DimsAreDistinct(r.names);
    PostingKeys(AllocationsFor(r, bytes), Dims(r.names), r.route, key);
    BucketsIgnoreBytes(r, bytes, NO_BYTES);
    var a, b := AllocationsFor(r, bytes), AllocationsFor(r, NO_BYTES);
    assert forall i :: 0 <= i < |a| ==> a[i] in a && b[i] in b;
  }

  // ---------------------------------------------------------------------------------------------
  // Posting a correction
  // ---------------------------------------------------------------------------------------------

  /** The row's bytes are spread over a non-empty interval by the allocator. */
  predicate Spread(r: AccountedRow) {
    !r.exact && r.interval.Some? && r.interval.value.start < r.interval.value.end
  }

  lemma {:induction false} SharesAreEstimates(iv: Interval, b: Bytes, curr: Time)
    ensures forall a :: a in SharesFrom(iv, b, curr) ==>
                          && !a.exact && a.bytes.up >= 0 && a.bytes.down >= 0
                          && (b.up <= 0 ==> a.bytes.up == 0) && (b.down <= 0 ==> a.bytes.down == 0)
    decreases iv.end - curr
  {
    if curr < iv.end {
      SharesAreEstimates(iv, b, BucketEnd(curr, iv.end));
      NegativeOrNot(IntervalAllocator(iv.start, iv.end, b.up), curr, BucketEnd(curr, iv.end));
      NegativeOrNot(IntervalAllocator(iv.start, iv.end, b.down), curr, BucketEnd(curr, iv.end));
    }
  }

  lemma NegativeOrNot(a: IntervalAllocator, s: Time, e: Time)
    ensures a.Allocate(s, e) >= 0 && (a.total <= 0 ==> a.Allocate(s, e) == 0)
  {
    if a.total <= 0 {
      NegativeTotalAllocatesNothing(a, s, e);
    }
  }

  lemma {:induction false} AllocSumBounds(allocs: seq<Allocation>, bucket: Time, b: Bytes)
    requires forall a :: a in allocs ==>
                           && !a.exact && a.bytes.up >= 0 && a.bytes.down >= 0
                           && (b.up <= 0 ==> a.bytes.up == 0) && (b.down <= 0 ==> a.bytes.down == 0)
    ensures AllocSum(allocs, bucket, true) == NO_BYTES
    ensures AllocSum(allocs, bucket, false).up >= 0 && AllocSum(allocs, bucket, false).down >= 0
    ensures b.up <= 0 ==> AllocSum(allocs, bucket, false).up == 0
    ensures b.down <= 0 ==> AllocSum(allocs, bucket, false).down == 0
  {
    if allocs != [] {
      AllocSumBounds(allocs[..|allocs| - 1], bucket, b);
      assert allocs[|allocs| - 1] in allocs;
    }
  }

  lemma SpreadShare(r: AccountedRow, b: Bytes, key: AggKey)
    requires Spread(r)
    ensures RowShare(r, b, key, true) == NO_BYTES
    ensures RowShare(r, b, key, false).up >= 0 && RowShare(r, b, key, false).down >= 0
    ensures b.up <= 0 ==> RowShare(r, b, key, false).up == 0
    ensures b.down <= 0 ==> RowShare(r, b, key, false).down == 0
  {
    RowShareIsAllocSum(r, b, key, true);
    RowShareIsAllocSum(r, b, key, false);
    SharesAreEstimates(r.interval.value, b, r.interval.value.start);
    AllocSumBounds(AllocationsFor(r, b), key.bucket, b);
  }

  /** A row posted in one piece lands whole in its observation bucket. */
  lemma WholeShare(r: AccountedRow, b: Bytes, key: AggKey, exact: bool)
    requires !Spread(r)
    ensures RowShare(r, b, key, exact)
            == if r.route == key.route && Carries(r.names, key.dim) && key.bucket == Bucket(r.at)
                  && exact == (r.exact || r.interval.None?)
               then b else NO_BYTES
  {
    RowShareIsAllocSum(r, b, key, exact);
    var allocs := AllocationsFor(r, b);
    assert |allocs| == 1 && allocs[..0] == [];
  }

  predicate NonNegative(b: Bytes) {
    b.up >= 0 && b.down >= 0
  }

  /** Posting the difference of a correction: exact cells follow the row exactly; estimated cells never
      fall below it. */
  lemma CorrectionShare(r: AccountedRow, was: Bytes, now: Bytes, key: AggKey)
    requires NonNegative(r.raw) && (was == NO_BYTES || was == r.raw) && (now == NO_BYTES || now == r.raw)
    ensures var delta := Bytes(now.up - was.up, now.down - was.down);
            && RowShare(r, delta, key, true).up == RowShare(r, now, key, true).up - RowShare(r, was, key, true).up
            && RowShare(r, delta, key, true).down == RowShare(r, now, key, true).down - RowShare(r, was, key, true).down
            && RowShare(r, delta, key, false).up >= RowShare(r, now, key, false).up - RowShare(r, was, key, false).up
            && RowShare(r, delta, key, false).down
               >= RowShare(r, now, key, false).down - RowShare(r, was, key, false).down
  {
    var delta := Bytes(now.up - was.up, now.down - was.down);
    hide RowShare;
    if Spread(r) {
      SpreadShare(r, delta, key);
      SpreadShare(r, was, key);
      SpreadShare(r, now, key);
    } else {
      WholeShare(r, delta, key, true);
      WholeShare(r, delta, key, false);
      WholeShare(r, was, key, true);
      WholeShare(r, was, key, false);
      WholeShare(r, now, key, true);
      WholeShare(r, now, key, false);
    }
  }

  /** What a correction leaves behind in an estimated cell: the old share of a spread row that now
      accounts nothing, and nothing otherwise. */
  lemma CorrectionLeaves(r: AccountedRow, was: Bytes, now: Bytes, key: AggKey)
    requires NonNegative(r.raw) && (was == NO_BYTES || was == r.raw) && (now == NO_BYTES || now == r.raw)
    ensures var delta := Bytes(now.up - was.up, now.down - was.down);
            var left := if Spread(r) && now == NO_BYTES then RowShare(r, was, key, false) else NO_BYTES;
            && RowShare(r, delta, key, false).up
               == RowShare(r, now, key, false).up - RowShare(r, was, key, false).up + left.up
            && RowShare(r, delta, key, false).down
               == RowShare(r, now, key, false).down - RowShare(r, was, key, false).down + left.down
  {
    var delta := Bytes(now.up - was.up, now.down - was.down);
    hide RowShare;
    if Spread(r) {
      SpreadShare(r, delta, key);
      SpreadShare(r, was, key);
      SpreadShare(r, now, key);
    } else {
      WholeShare(r, delta, key, false);
      WholeShare(r, was, key, false);
      WholeShare(r, now, key, false);
    }
  }

  lemma {:induction false} EmptySharesEmptySum(allocs: seq<Allocation>, from: Time, to: Time)
    requires forall a :: a in allocs ==> a.bytes == NO_BYTES
    ensures WindowSum(allocs, from, to) == NO_BYTES
  {
    if allocs != [] {
      assert allocs[0] in allocs;
      EmptySharesEmptySum(allocs[1..], from, to);
    }
  }

  lemma {:induction false} SumCoversMember(allocs: seq<Allocation>, a: Allocation)
    requires a in allocs && forall x :: x in allocs ==> !x.exact && x.bytes.up >= 0 && x.bytes.down >= 0
    ensures a.bytes.AtMost(AllocSum(allocs, a.bucket, false))
  {
    var front, last := allocs[..|allocs| - 1], allocs[|allocs| - 1];
    assert allocs == front + [last] && last in allocs;
    AllocSumBounds(front, a.bucket, Bytes(1, 1));
    if a in front {
      SumCoversMember(front, a);
    }
  }

  /** A spread row with bytes has a share in some cell. */
  lemma SpreadRowHasShare(r: AccountedRow, bytes: Bytes) returns (key: AggKey)
    requires Spread(r) && NonNegative(bytes) && bytes != NO_BYTES
    ensures RowShare(r, bytes, key, false) != NO_BYTES
  {
    hide RowShare;
    var iv, allocs := r.interval.value, AllocationsFor(r, bytes);
    var from, to := Bucket(iv.start), Bucket(iv.end) + HOUR;
    BucketBounds(iv.start);
    BucketBounds(iv.end);
    SharesFillWindow(iv, bytes, iv.start, from, to);
    AllocateIgnoresOutside(IntervalAllocator(iv.start, iv.end, bytes.up), iv.start, iv.end);
    AllocateIgnoresOutside(IntervalAllocator(iv.start, iv.end, bytes.down), iv.start, iv.end);
    assert WindowSum(allocs, from, to) == bytes;
    if forall a :: a in allocs ==> a.bytes == NO_BYTES {
      EmptySharesEmptySum(allocs, from, to);
    }
    var a :| a in allocs && a.bytes != NO_BYTES;
    key := AggKey(a.bucket, Dim(TotalDim, "total"), r.route);
    SharesAreEstimates(iv, bytes, iv.start);
    SumCoversMember(allocs, a);
    RowShareIsAllocSum(r, bytes, key, false);
  }

  /** Taking a row's bytes back empties its estimated cell exactly when the row is not spread over an
      interval or had no share in the cell: the allocator clamps negative totals. */
  lemma RemovalIsExactIff(r: AccountedRow, key: AggKey)
    requires NonNegative(r.raw)
    ensures RowShare(r, Bytes(-r.raw.up, -r.raw.down), key, false)
            == Bytes(-RowShare(r, r.raw, key, false).up, -RowShare(r, r.raw, key, false).down)
            <==> !Spread(r) || RowShare(r, r.raw, key, false) == NO_BYTES
  {
    hide RowShare;
    if Spread(r) {
      SpreadShare(r, Bytes(-r.raw.up, -r.raw.down), key);
      SpreadShare(r, r.raw, key);
    } else {
      WholeShare(r, Bytes(-r.raw.up, -r.raw.down), key, false);
      WholeShare(r, r.raw, key, false);
    }
  }

  // ---------------------------------------------------------------------------------------------
  // Cells
  // ---------------------------------------------------------------------------------------------

  datatype Cell = Cell(total: Bytes, exact: Bytes, est: Bytes, count: int)

  type Cells = map<AggKey, Cell>

  const NO_CELL := Cell(NO_BYTES, NO_BYTES, NO_BYTES, 0)

  function CellAt(cells: Cells, key: AggKey): Cell {
    if key in cells then cells[key] else NO_CELL
  }

  /** upsertHourlyBytesV2: the total column is maintained beside the exact and estimated ones. */
  function UpsertCell(cells: Cells, key: AggKey, exact: Bytes, est: Bytes): Cells {
    var c := CellAt(cells, key);
    cells[key := Cell(Bytes(c.total.up + exact.up + est.up, c.total.down + exact.down + est.down),
                      Bytes(c.exact.up + exact.up, c.exact.down + exact.down),
                      Bytes(c.est.up + est.up, c.est.down + est.down),
                      c.count)]
  }

  function Post(cells: Cells, p: Posting): Cells {
    UpsertCell(cells, p.key, if p.exact then p.bytes else NO_BYTES, if p.exact then NO_BYTES else p.bytes)
  }

  function PostAll(cells: Cells, ps: seq<Posting>): Cells {
    if ps == [] then cells else Post(PostAll(cells, ps[..|ps| - 1]), ps[|ps| - 1])
  }

  /** `after` holds `before` plus these byte amounts, with untouched counts. */
  ghost predicate Added(before: Cell, after: Cell, exact: Bytes, est: Bytes) {
    && after.exact == Bytes(before.exact.up + exact.up, before.exact.down + exact.down)
    && after.est == Bytes(before.est.up + est.up, before.est.down + est.down)
    && after.total == Bytes(before.total.up + exact.up + est.up, before.total.down + exact.down + est.down)
    && after.count == before.count
  }

  lemma PostAdds(before: Cells, cells: Cells, ps: seq<Posting>, p: Posting, key: AggKey)
    requires Added(CellAt(before, key), CellAt(cells, key), PostSum(ps, key, true), PostSum(ps, key, false))
    ensures Added(CellAt(before, key), CellAt(Post(cells, p), key), PostSum(ps + [p], key, true),
                  PostSum(ps + [p], key, false))
  {
    hide PostSum;
    PostSumStep(ps, p, key, true);
    PostSumStep(ps, p, key, false);
  }

  lemma NothingAdds(cells: Cells, key: AggKey)
    ensures Added(CellAt(cells, key), CellAt(cells, key), PostSum([], key, true), PostSum([], key, false))
  {
  }

  lemma {:induction false} PostAllKeys(cells: Cells, ps: seq<Posting>, key: AggKey)
    ensures key in PostAll(cells, ps) <==> key in cells || exists p :: p in ps && p.key == key
  {
    if ps != [] {
      var front, p := ps[..|ps| - 1], ps[|ps| - 1];
      PostAllKeys(cells, front, key);
      assert ps == front + [p];
      assert p in ps;
    }
  }

  lemma {:induction false} PostAllAdds(cells: Cells, ps: seq<Posting>, key: AggKey)
    ensures Added(CellAt(cells, key), CellAt(PostAll(cells, ps), key), PostSum(ps, key, true), PostSum(ps, key, false))
    ensures key in PostAll(cells, ps) <==> key in cells || exists p :: p in ps && p.key == key
  {
    hide Added, CellAt, Post, PostSum;
    PostAllKeys(cells, ps, key);
    if ps == [] {
      NothingAdds(cells, key);
    } else {
      var front, p := ps[..|ps| - 1], ps[|ps| - 1];
      PostAllAdds(cells, front, key);
      assert ps == front + [p];
      PostAdds(cells, PostAll(cells, front), front, p, key);
    }
  }
}
