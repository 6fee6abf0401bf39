/** The mutable hourly index: byte cells, and the seen set that backs connection_count. */
module HourlyIndex {
  import opened Types
  import opened Allocator
  import opened Derived
  import opened Hourly

  type Seen = set<(AggKey, ConnKey)>

  function Seers(seen: Seen, key: AggKey): set<ConnKey> {
    set p | p in seen && p.0 == key :: p.1
  }

  /** connection_count is the number of distinct connections registered for the cell. */
  ghost predicate CountsOk(cells: Cells, seen: Seen) {
    && (forall p :: p in seen ==> p.0 in cells)
    && (forall key :: key in cells ==> cells[key].count == |Seers(seen, key)|)
  }

  ghost predicate SameBytes(a: Cells, b: Cells) {
    a.Keys == b.Keys && forall key :: key in a ==> b[key] == a[key].(count := b[key].count)
  }

  function RowsShare(rows: seq<AccountedRow>, key: AggKey, exact: bool): Bytes {
    if rows == [] then NO_BYTES
    else
      var front, r := RowsShare(rows[..|rows| - 1], key, exact), rows[|rows| - 1];
      var share := RowShare(r, r.accounted, key, exact);
      Bytes(front.up + share.up, front.down + share.down)
  }

  /** Exact bytes equal the sum over the current rows; estimated bytes are at least that sum. */
  ghost predicate CellOk(c: Cell, rows: seq<AccountedRow>, key: AggKey) {
    && c.exact == RowsShare(rows, key, true)
    && RowsShare(rows, key, false).AtMost(c.est)
    && c.total == Bytes(c.exact.up + c.est.up, c.exact.down + c.est.down)
  }

  ghost predicate BytesOk(cells: Cells, rows: seq<AccountedRow>) {
    forall key :: CellOk(CellAt(cells, key), rows, key)
  }

  /** No estimated byte has been left behind: estimated cells, too, equal the sum over the current rows. */
  ghost predicate EstimatesCurrent(cells: Cells, rows: seq<AccountedRow>) {
    forall key :: CellAt(cells, key).est == RowsShare(rows, key, false)
  }

  /** The estimated bytes of a cell that no current row accounts for. */
  function StaleAt(cells: Cells, rows: seq<AccountedRow>, key: AggKey): Bytes {
    Bytes(CellAt(cells, key).est.up - RowsShare(rows, key, false).up,
          CellAt(cells, key).est.down - RowsShare(rows, key, false).down)
  }

  /** From one index and row list to the next, the stale bytes of a cell grow by `more`. */
  predicate StaleGrows(cells: Cells, rows: seq<AccountedRow>, cells': Cells, rows': seq<AccountedRow>, key: AggKey,
                       more: Bytes)
  {
    StaleAt(cells', rows', key)
    == Bytes(StaleAt(cells, rows, key).up + more.up, StaleAt(cells, rows, key).down + more.down)
  }

  lemma CurrentIsNotStale(cells: Cells, rows: seq<AccountedRow>)
    ensures EstimatesCurrent(cells, rows) <==> forall key :: StaleAt(cells, rows, key) == NO_BYTES
  {
    hide RowsShare;
    forall key
      ensures CellAt(cells, key).est == RowsShare(rows, key, false) <==> StaleAt(cells, rows, key) == NO_BYTES
    {
    }
  }

  /** Every cell is an hour bucket. */
  ghost predicate HourCells(cells: Cells) {
    forall key :: key in cells ==> HourAligned(key.bucket)
  }

  ghost predicate KeysOk(cells: Cells, rows: seq<AccountedRow>) {
    forall r, key :: r in rows && ProjectsTo(r, key) ==> key in cells
  }

  predicate Contributes(r: AccountedRow, c: ConnKey, key: AggKey) {
    r.key == c && (r.accounted.up != 0 || r.accounted.down != 0) && ProjectsTo(r, key)
  }

  ghost predicate AnyContributes(rows: seq<AccountedRow>, c: ConnKey, key: AggKey) {
    exists r :: r in rows && Contributes(r, c, key)
  }

  lemma AnyContributesStep(rows: seq<AccountedRow>, r: AccountedRow, c: ConnKey, key: AggKey)
    ensures AnyContributes(rows + [r], c, key) <==> AnyContributes(rows, c, key) || Contributes(r, c, key)
  {
    assert r in rows + [r];
  }

  /** The seen set is exactly the connections with a nonzero accounted row projecting to the cell. */
  ghost predicate SeenOk(seen: Seen, rows: seq<AccountedRow>) {
    forall key, c :: (key, c) in seen <==> AnyContributes(rows, c, key)
  }

  ghost predicate IndexOk(cells: Cells, seen: Seen, rows: seq<AccountedRow>) {
    CountsOk(cells, seen) && BytesOk(cells, rows) && KeysOk(cells, rows) && HourCells(cells) && SeenOk(seen, rows)
  }

  // ---------------------------------------------------------------------------------------------
  // Counting
  // ---------------------------------------------------------------------------------------------

  function Counted(cells: Cells, key: AggKey, delta: int): Cells {
    if key in cells then cells[key := cells[key].(count := cells[key].count + delta)] else cells
  }

  lemma RegisterKeepsCounts(cells: Cells, seen: Seen, key: AggKey, c: ConnKey)
    requires CountsOk(cells, seen) && key in cells && (key, c) !in seen
    ensures CountsOk(Counted(cells, key, 1), seen + {(key, c)})
    ensures SameBytes(cells, Counted(cells, key, 1))
  {
    assert Seers(seen + {(key, c)}, key) == Seers(seen, key) + {c};
    forall k | k in cells && k != key ensures Seers(seen + {(key, c)}, k) == Seers(seen, k) {
    }
  }

  lemma UnregisterKeepsCounts(cells: Cells, seen: Seen, key: AggKey, c: ConnKey)
    requires CountsOk(cells, seen) && (key, c) in seen
    ensures CountsOk(Counted(cells, key, -1), seen - {(key, c)})
    ensures SameBytes(cells, Counted(cells, key, -1))
  {
    SeersWithout(seen, key, c);
  }

  lemma SeersWithout(seen: Seen, key: AggKey, c: ConnKey)
    requires (key, c) in seen
    ensures c in Seers(seen, key) && Seers(seen - {(key, c)}, key) == Seers(seen, key) - {c}
    ensures forall k :: k != key ==> Seers(seen - {(key, c)}, k) == Seers(seen, k)
  {
  }

  lemma UpsertKeepsCounts(cells: Cells, seen: Seen, key: AggKey, exact: Bytes, est: Bytes)
    requires CountsOk(cells, seen)
    ensures CountsOk(UpsertCell(cells, key, exact, est), seen)
  {
    if key !in cells {
      assert Seers(seen, key) == {};
    }
  }

  lemma SameBytesTransitive(a: Cells, b: Cells, c: Cells)
    requires SameBytes(a, b) && SameBytes(b, c)
    ensures SameBytes(a, c)
  {
  }

  // ---------------------------------------------------------------------------------------------
  // The tables
  // ---------------------------------------------------------------------------------------------

  lemma NothingPosted(allocs: seq<Allocation>, dims: seq<Dim>, route: Route)
    ensures PostAllocations(allocs[..0], dims, route) == []
    ensures forall a :: PostAllocation(a, dims[..0], route) == []
  {
  }

  lemma OnePostingMore(a: Allocation, dims: seq<Dim>, j: nat, route: Route)
    requires j < |dims|
    ensures PostAllocation(a, dims[..j + 1], route)
            == PostAllocation(a, dims[..j], route) + [Posting(AggKey(a.bucket, dims[j], route), a.bytes, a.exact)]
  {
    assert dims[..j + 1][..j] == dims[..j];
  }

  lemma OneAllocationMore(allocs: seq<Allocation>, i: nat, dims: seq<Dim>, route: Route)
    requires i < |allocs|
    ensures PostAllocations(allocs[..i + 1], dims, route)
            == PostAllocations(allocs[..i], dims, route) + PostAllocation(allocs[i], dims, route)
  {
    hide PostAllocation;
    assert allocs[..i + 1][..i] == allocs[..i];
  }

  method ListPostings(r: AccountedRow, bytes: Bytes) returns (ps: seq<Posting>)
    ensures ps == RowPostings(r, bytes)
  {
    hide SpreadOver, Allocations, PostAllocation, PostAllocations, Dims;
    var allocs := AllocateAccountedRowBuckets(r.at, r.interval, r.exact, bytes);
    var dims := Dims(r.names);
    ps := [];
    NothingPosted(allocs, dims, r.route);
    for i := 0 to |allocs|
      invariant ps == PostAllocations(allocs[..i], dims, r.route)
    {
      ghost var before := ps;
      for j := 0 to |dims|
        invariant ps == before + PostAllocation(allocs[i], dims[..j], r.route)
      {
        OnePostingMore(allocs[i], dims, j, r.route);
        ps := ps + [Posting(AggKey(allocs[i].bucket, dims[j], r.route), allocs[i].bytes, allocs[i].exact)];
      }
      assert dims[..|dims|] == dims;
      OneAllocationMore(allocs, i, dims, r.route);
    }
    assert allocs[..|allocs|] == allocs;
  }

  class Index {
    var cells: Cells
    var seen: Seen

    constructor ()
      ensures cells == map[] && seen == {}
      ensures IndexOk(cells, seen, []) && EstimatesCurrent(cells, [])
    {
      cells, seen := map[], {};
    }

    method UpsertHourlyBytes(key: AggKey, exact: Bytes, est: Bytes)
      modifies this
      ensures cells == UpsertCell(old(cells), key, exact, est) && seen == old(seen)
    {
      cells := UpsertCell(cells, key, exact, est);
    }

    /** insertHourlyConnSeenV2 followed by the count bump when the pair is new. */
    method RegisterConn(key: AggKey, c: ConnKey)
      requires CountsOk(cells, seen) && key in cells
      modifies this
      ensures CountsOk(cells, seen) && SameBytes(old(cells), cells)
      ensures seen == old(seen) + {(key, c)}
    {
      if (key, c) !in seen {
        RegisterKeepsCounts(cells, seen, key, c);
        seen := seen + {(key, c)};
        cells := Counted(cells, key, 1);
      }
    }

    /** Post a row's bytes, or the difference of its correction, to every cell it projects to. */
    method PostRow(r: AccountedRow, bytes: Bytes)
      requires CountsOk(cells, seen)
      modifies this
      ensures cells == PostAll(old(cells), RowPostings(r, bytes)) && seen == old(seen)
      ensures CountsOk(cells, seen)
    {
      var ps := ListPostings(r, bytes);
      for i := 0 to |ps|
        invariant cells == PostAll(old(cells), ps[..i]) && seen == old(seen)
        invariant CountsOk(cells, seen)
      {
        var p := ps[i];
        var exact, est := if p.exact then p.bytes else NO_BYTES, if p.exact then NO_BYTES else p.bytes;
        assert ps[..i + 1][..i] == ps[..i];
        UpsertKeepsCounts(cells, seen, p.key, exact, est);
        UpsertHourlyBytes(p.key, exact, est);
      }
      assert ps[..|ps|] == ps;
    }

    /** removeConnFromHourlyCounts: a confirmed duplicate stops counting everywhere. */
    method RemoveConn(c: ConnKey)
      requires CountsOk(cells, seen)
      modifies this
      ensures CountsOk(cells, seen) && SameBytes(old(cells), cells)
      ensures forall p :: p in seen <==> p in old(seen) && p.1 != c
    {
      hide CountsOk, Counted;
      var todo := set p | p in seen && p.1 == c;
      while todo != {}
        invariant CountsOk(cells, seen) && SameBytes(old(cells), cells)
        invariant todo <= seen && forall p :: p in todo ==> p.1 == c
        invariant forall p :: p in seen <==> p in old(seen) && (p.1 != c || p in todo)
        decreases |todo|
      {
        var p :| p in todo;
        UnregisterKeepsCounts(cells, seen, p.0, c);
        SameBytesTransitive(old(cells), cells, Counted(cells, p.0, -1));
        seen := seen - {(p.0, c)};
        cells := Counted(cells, p.0, -1);
        todo := todo - {p};
      }
    }

    /** Register one row's connection in every cell the row projects to. */
    method ReaddRow(r: AccountedRow)
      requires CountsOk(cells, seen) && forall key :: ProjectsTo(r, key) ==> key in cells
      modifies this
      ensures CountsOk(cells, seen) && SameBytes(old(cells), cells)
      ensures forall key, c :: (key, c) in seen <==> (key, c) in old(seen) || (c == r.key && ProjectsTo(r, key))
    {
      var ps := ListPostings(r, r.accounted);
      forall key ensures (exists p :: p in ps && p.key == key) <==> ProjectsTo(r, key) {
        RowTouches(r, r.accounted, key);
      }
      for i := 0 to |ps|
        invariant CountsOk(cells, seen) && SameBytes(old(cells), cells)
        invariant forall key, c :: (key, c) in seen <==>
                                     (key, c) in old(seen) || (c == r.key && exists p :: p in ps[..i] && p.key == key)
      {
        assert ps[i] in ps && ps[..i + 1] == ps[..i] + [ps[i]];
        label before: RegisterConn(ps[i].key, r.key);
        SameBytesTransitive(old(cells), old@before(cells), cells);
      }
      assert ps[..|ps|] == ps;
    }

    /** readdConnToHourlyCounts: a connection that is no longer a duplicate counts again. */
    method ReaddConn(rows: seq<AccountedRow>, c: ConnKey)
      requires CountsOk(cells, seen) && KeysOk(cells, rows)
      modifies this
      ensures CountsOk(cells, seen) && SameBytes(old(cells), cells)
      ensures forall key, x :: (key, x) in seen <==>
                                 (key, x) in old(seen) || (x == c && AnyContributes(rows, c, key))
    {
      for i := 0 to |rows|
        invariant CountsOk(cells, seen) && SameBytes(old(cells), cells)
        invariant forall key, x :: (key, x) in seen <==>
                    (key, x) in old(seen) || (x == c && AnyContributes(rows[..i], c, key))
      {
        var r := rows[i];
        assert r in rows && rows[..i + 1] == rows[..i] + [r];
        forall key
          ensures AnyContributes(rows[..i + 1], c, key) <==> AnyContributes(rows[..i], c, key) || Contributes(r, c, key)
        {
          AnyContributesStep(rows[..i], r, c, key);
        }
        if r.key == c && (r.accounted.up != 0 || r.accounted.down != 0) {
          label before: ReaddRow(r);
          SameBytesTransitive(old(cells), old@before(cells), cells);
        }
      }
      assert rows[..|rows|] == rows;
    }
  }
}
