/** The precomputed write set of a journal range (accounting_v2.go, buildAccountedPlan and
    applyAccountedPlan) and its effect on the hourly index. */
module Plan {
  import opened Types
  import opened Evidence
  import opened Allocator
  import opened Derived
  import opened Hourly
  import opened HourlyIndex

  /** Rows to insert, byte deltas per cell (their count column is unused), and connections to register. */
  datatype AccountedPlan = AccountedPlan(rows: seq<AccountedRow>, deltas: Cells, pairs: Seen)

  ghost predicate DeltasOf(deltas: Cells, rows: seq<AccountedRow>) {
    && (forall key :: CellAt(deltas, key).exact == RowsShare(rows, key, true))
    && (forall key :: CellAt(deltas, key).est == RowsShare(rows, key, false))
    && (forall key :: key in deltas <==> exists r :: r in rows && ProjectsTo(r, key))
  }

  ghost predicate PlanOk(plan: AccountedPlan) {
    DeltasOf(plan.deltas, plan.rows) && SeenOk(plan.pairs, plan.rows)
  }

  lemma RowsShareStep(rows: seq<AccountedRow>, r: AccountedRow, key: AggKey, exact: bool)
    ensures RowsShare(rows + [r], key, exact)
            == Bytes(RowsShare(rows, key, exact).up + RowShare(r, r.accounted, key, exact).up,
                     RowsShare(rows, key, exact).down + RowShare(r, r.accounted, key, exact).down)
  {
    assert (rows + [r])[..|rows + [r]| - 1] == rows;
  }

  lemma {:induction false} RowsShareConcat(a: seq<AccountedRow>, b: seq<AccountedRow>, key: AggKey, exact: bool)
    ensures RowsShare(a + b, key, exact)
            == Bytes(RowsShare(a, key, exact).up + RowsShare(b, key, exact).up,
                     RowsShare(a, key, exact).down + RowsShare(b, key, exact).down)
  {
    hide RowShare;
    if b == [] {
      assert a + b == a;
    } else {
      RowsShareConcat(a, b[..|b| - 1], key, exact);
      assert a + b == a + b[..|b| - 1] + [b[|b| - 1]] && b == b[..|b| - 1] + [b[|b| - 1]];
      RowsShareStep(a + b[..|b| - 1], b[|b| - 1], key, exact);
      RowsShareStep(b[..|b| - 1], b[|b| - 1], key, exact);
    }
  }

  lemma DeltasStep(deltas: Cells, rows: seq<AccountedRow>, r: AccountedRow)
    requires DeltasOf(deltas, rows)
    ensures DeltasOf(PostAll(deltas, RowPostings(r, r.accounted)), rows + [r])
  {
    hide RowsShare, RowPostings, PostAll, ProjectsTo, PostSum;
    var after := PostAll(deltas, RowPostings(r, r.accounted));
    forall key
      ensures CellAt(after, key).exact == RowsShare(rows + [r], key, true)
      ensures CellAt(after, key).est == RowsShare(rows + [r], key, false)
      ensures key in after <==> exists x :: x in rows + [r] && ProjectsTo(x, key)
    {
      PostAllAdds(deltas, RowPostings(r, r.accounted), key);
      RowsShareStep(rows, r, key, true);
      RowsShareStep(rows, r, key, false);
      RowTouches(r, r.accounted, key);
      assert r in rows + [r];
    }
  }

  lemma SeenStep(pairs: Seen, rows: seq<AccountedRow>, r: AccountedRow, pairs': Seen)
    requires SeenOk(pairs, rows)
    requires forall key, c :: (key, c) in pairs' <==> (key, c) in pairs || Contributes(r, c, key)
    ensures SeenOk(pairs', rows + [r])
  {
    forall key, c ensures (key, c) in pairs' <==> AnyContributes(rows + [r], c, key) {
      AnyContributesStep(rows, r, c, key);
    }
  }

  /** The registrations of one row: only rows with nonzero accounted bytes register their connection. */
  method PlanRow(r: AccountedRow, deltas: Cells, pairs: Seen) returns (deltas': Cells, pairs': Seen)
    ensures deltas' == PostAll(deltas, RowPostings(r, r.accounted))
    ensures forall key, c :: (key, c) in pairs' <==> (key, c) in pairs || Contributes(r, c, key)
  {
    hide RowPostings, ProjectsTo;
    var ps := ListPostings(r, r.accounted);
    var contributes := r.accounted.up != 0 || r.accounted.down != 0;
    deltas', pairs' := deltas, pairs;
    for i := 0 to |ps|
      invariant deltas' == PostAll(deltas, ps[..i])
      invariant forall key, c :: (key, c) in pairs' <==>
                  (key, c) in pairs || (contributes && c == r.key && exists p :: p in ps[..i] && p.key == key)
    {
      assert ps[..i + 1][..i] == ps[..i] && ps[..i + 1] == ps[..i] + [ps[i]];
      deltas' := Post(deltas', ps[i]);
      if contributes {
        pairs' := pairs' + {(ps[i].key, r.key)};
      }
    }
    assert ps[..|ps|] == ps;
    forall key ensures (exists p :: p in ps && p.key == key) <==> ProjectsTo(r, key) {
      RowTouches(r, r.accounted, key);
    }
  }

  method BuildAccountedPlan(items: seq<TrafficItem>, classes: ClassMap) returns (plan: AccountedPlan)
    ensures plan.rows == PlanRows(items, classes) && PlanOk(plan)
  {
    hide RowsShare, ProjectsTo, DeltasOf;
    var rows, deltas: Cells, pairs: Seen := [], map[], {};
    assert DeltasOf(deltas, rows) by { EmptyDeltas(); }
    for i := 0 to |items|
      invariant rows == PlanRows(items[..i], classes)
      invariant DeltasOf(deltas, rows) && SeenOk(pairs, rows)
    {
      var it := items[i];
      assert items[..i + 1][..i] == items[..i];
      if HasBytes(it) {
        var r := BuildRecord(it, ClassFor(classes, it.key));
        DeltasStep(deltas, rows, r);
        var deltas', pairs' := PlanRow(r, deltas, pairs);
        SeenStep(pairs, rows, r, pairs');
        rows, deltas, pairs := rows + [r], deltas', pairs';
      }
    }
    assert items[..|items|] == items;
    plan := AccountedPlan(rows, deltas, pairs);
  }

  lemma EmptyDeltas()
    ensures DeltasOf(map[], [])
  {
  }

  // ---------------------------------------------------------------------------------------------
  // Applying the plan
  // ---------------------------------------------------------------------------------------------

  /** `after` is `before` with the deltas of all keys but `todo` added. */
  ghost predicate Absorbed(before: Cells, after: Cells, deltas: Cells, todo: set<AggKey>) {
    && after.Keys == before.Keys + (deltas.Keys - todo)
    && (forall key :: key in todo ==> CellAt(after, key) == CellAt(before, key))
    && (forall key :: key !in todo ==> Added(CellAt(before, key), CellAt(after, key),
                                             CellAt(deltas, key).exact, CellAt(deltas, key).est))
  }

  lemma AbsorbStep(before: Cells, after: Cells, deltas: Cells, todo: set<AggKey>, key: AggKey)
    requires Absorbed(before, after, deltas, todo) && key in todo && todo <= deltas.Keys
    ensures Absorbed(before, UpsertCell(after, key, deltas[key].exact, deltas[key].est), deltas, todo - {key})
  {
    hide Added;
    var next := UpsertCell(after, key, deltas[key].exact, deltas[key].est);
    forall k | k !in todo - {key}
      ensures Added(CellAt(before, k), CellAt(next, k), CellAt(deltas, k).exact, CellAt(deltas, k).est)
    {
      if k == key {
        UpsertAdds(after, key, deltas[key].exact, deltas[key].est);
      }
    }
    assert next.Keys == before.Keys + (deltas.Keys - (todo - {key}));
  }

  lemma UpsertAdds(cells: Cells, key: AggKey, exact: Bytes, est: Bytes)
    ensures Added(CellAt(cells, key), CellAt(UpsertCell(cells, key, exact, est), key), exact, est)
  {
  }

  lemma NothingAbsorbed(before: Cells, deltas: Cells)
    ensures Absorbed(before, before, deltas, deltas.Keys)
  {
  }

  method ApplyDeltas(index: Index, deltas: Cells)
    requires CountsOk(index.cells, index.seen)
    modifies index
    ensures CountsOk(index.cells, index.seen) && index.seen == old(index.seen)
    ensures Absorbed(old(index.cells), index.cells, deltas, {})
  {
    hide Absorbed, CountsOk;
    var todo := deltas.Keys;
    NothingAbsorbed(index.cells, deltas);
    while todo != {}
      invariant todo <= deltas.Keys
      invariant CountsOk(index.cells, index.seen) && index.seen == old(index.seen)
      invariant Absorbed(old(index.cells), index.cells, deltas, todo)
      decreases |todo|
    {
      var key :| key in todo;
      UpsertKeepsCounts(index.cells, index.seen, key, deltas[key].exact, deltas[key].est);
      AbsorbStep(old(index.cells), index.cells, deltas, todo, key);
      index.UpsertHourlyBytes(key, deltas[key].exact, deltas[key].est);
      todo := todo - {key};
    }
  }

  method ApplyPairs(index: Index, pairs: Seen)
    requires CountsOk(index.cells, index.seen) && forall p :: p in pairs ==> p.0 in index.cells
    modifies index
    ensures CountsOk(index.cells, index.seen) && SameBytes(old(index.cells), index.cells)
    ensures index.seen == old(index.seen) + pairs
  {
    hide CountsOk;
    var todo := pairs;
    while todo != {}
      invariant todo <= pairs
      invariant CountsOk(index.cells, index.seen) && SameBytes(old(index.cells), index.cells)
      invariant index.seen == old(index.seen) + (pairs - todo)
      decreases |todo|
    {
      var p :| p in todo;
      label before: index.RegisterConn(p.0, p.1);
      SameBytesTransitive(old(index.cells), old@before(index.cells), index.cells);
      todo := todo - {p};
      assert pairs - todo == pairs - (todo + {p}) + {p};
    }
  }

  lemma CellGrows(before: Cell, after: Cell, rows: seq<AccountedRow>, more: seq<AccountedRow>, key: AggKey)
    requires CellOk(before, rows, key) && Added(before, after, RowsShare(more, key, true), RowsShare(more, key, false))
    ensures CellOk(after, rows + more, key)
  {
    hide RowsShare;
    RowsShareConcat(rows, more, key, true);
    RowsShareConcat(rows, more, key, false);
  }

  lemma PlanKeepsBytes(before: Cells, after: Cells, rows: seq<AccountedRow>, plan: AccountedPlan)
    requires BytesOk(before, rows) && DeltasOf(plan.deltas, plan.rows) && Absorbed(before, after, plan.deltas, {})
    ensures BytesOk(after, rows + plan.rows)
  {
    hide RowsShare, ProjectsTo, CellOk, CellAt, Added;
    forall key ensures CellOk(CellAt(after, key), rows + plan.rows, key) {
      assert CellOk(CellAt(before, key), rows, key);
      CellGrows(CellAt(before, key), CellAt(after, key), rows, plan.rows, key);
    }
  }

  /** New rows bring exactly their own estimates. */
  lemma PlanKeepsEstimates(before: Cells, after: Cells, rows: seq<AccountedRow>, plan: AccountedPlan)
    requires DeltasOf(plan.deltas, plan.rows) && Absorbed(before, after, plan.deltas, {})
    ensures EstimatesCurrent(before, rows) <==> EstimatesCurrent(after, rows + plan.rows)
  {
    hide RowsShare, ProjectsTo, CellAt;
    forall key
      ensures CellAt(before, key).est == RowsShare(rows, key, false)
              <==> CellAt(after, key).est == RowsShare(rows + plan.rows, key, false)
    {
      assert Added(CellAt(before, key), CellAt(after, key), CellAt(plan.deltas, key).exact,
                   CellAt(plan.deltas, key).est);
      RowsShareConcat(rows, plan.rows, key, false);
    }
  }

  lemma PlanKeepsStale(before: Cells, after: Cells, rows: seq<AccountedRow>, plan: AccountedPlan, key: AggKey)
    requires DeltasOf(plan.deltas, plan.rows) && Absorbed(before, after, plan.deltas, {})
    ensures StaleAt(after, rows + plan.rows, key) == StaleAt(before, rows, key)
  {
    hide RowsShare, ProjectsTo, CellAt;
    assert Added(CellAt(before, key), CellAt(after, key), CellAt(plan.deltas, key).exact, CellAt(plan.deltas, key).est);
    RowsShareConcat(rows, plan.rows, key, false);
  }

  lemma CountChangesKeepStale(before: Cells, after: Cells, rows: seq<AccountedRow>, key: AggKey)
    requires SameBytes(before, after)
    ensures StaleAt(before, rows, key) == StaleAt(after, rows, key)
  {
    hide RowsShare;
  }

  lemma CountChangesKeepEstimates(before: Cells, after: Cells, rows: seq<AccountedRow>)
    requires SameBytes(before, after)
    ensures EstimatesCurrent(before, rows) <==> EstimatesCurrent(after, rows)
    ensures HourCells(before) <==> HourCells(after)
  {
    hide RowsShare;
    forall key ensures CellAt(before, key).est == CellAt(after, key).est {
    }
  }

  lemma ProjectedBucketIsHour(r: AccountedRow, key: AggKey)
    requires ProjectsTo(r, key)
    ensures HourAligned(key.bucket)
  {
    var a :| a in AllocationsFor(r, NO_BYTES) && a.bucket == key.bucket;
    if Spread(r) {
      ShareBucketsAreHours(r.interval.value, NO_BYTES, r.interval.value.start);
    } else {
      BucketBounds(r.at);
    }
  }

  lemma CountChangesKeepBytes(before: Cells, after: Cells, rows: seq<AccountedRow>)
    requires SameBytes(before, after) && BytesOk(before, rows) && KeysOk(before, rows)
    ensures BytesOk(after, rows) && KeysOk(after, rows)
  {
    hide RowsShare, ProjectsTo;
    forall key ensures CellOk(CellAt(after, key), rows, key) {
      assert CellOk(CellAt(before, key), rows, key);
    }
  }

  lemma SeenUnion(seen: Seen, rows: seq<AccountedRow>, plan: AccountedPlan)
    requires SeenOk(seen, rows) && SeenOk(plan.pairs, plan.rows)
    ensures SeenOk(seen + plan.pairs, rows + plan.rows)
  {
    hide ProjectsTo;
    forall key, c ensures (key, c) in seen + plan.pairs <==> AnyContributes(rows + plan.rows, c, key) {
      assert AnyContributes(rows + plan.rows, c, key)
             <==> AnyContributes(rows, c, key) || AnyContributes(plan.rows, c, key) by {
        assert forall r :: r in rows + plan.rows <==> r in rows || r in plan.rows;
      }
    }
  }

  /** Inserting the planned rows keeps the index in step with the rows. */
  method ApplyAccountedPlan(index: Index, ghost rows: seq<AccountedRow>, plan: AccountedPlan)
    requires IndexOk(index.cells, index.seen, rows) && PlanOk(plan)
    modifies index
    ensures IndexOk(index.cells, index.seen, rows + plan.rows)
    ensures forall key :: StaleAt(index.cells, rows + plan.rows, key) == old(StaleAt(index.cells, rows, key))
    ensures old(EstimatesCurrent(index.cells, rows)) <==> EstimatesCurrent(index.cells, rows + plan.rows)
  {
    hide BytesOk, DeltasOf, SeenOk, ProjectsTo, EstimatesCurrent, HourCells, StaleAt;
    ApplyDeltas(index, plan.deltas);
    PlanKeepsBytes(old(index.cells), index.cells, rows, plan);
    PlanKeepsEstimates(old(index.cells), index.cells, rows, plan);
    PlanKeys(old(index.cells), index.cells, rows, plan);
    label posted: ApplyPairs(index, plan.pairs);
    CountChangesKeepBytes(old@posted(index.cells), index.cells, rows + plan.rows);
    CountChangesKeepEstimates(old@posted(index.cells), index.cells, rows + plan.rows);
    forall key ensures StaleAt(index.cells, rows + plan.rows, key) == old(StaleAt(index.cells, rows, key)) {
      PlanKeepsStale(old(index.cells), old@posted(index.cells), rows, plan, key);
      CountChangesKeepStale(old@posted(index.cells), index.cells, rows + plan.rows, key);
    }
    SeenUnion(old(index.seen), rows, plan);
  }

  lemma PlanKeys(before: Cells, after: Cells, rows: seq<AccountedRow>, plan: AccountedPlan)
    requires KeysOk(before, rows) && HourCells(before) && PlanOk(plan) && Absorbed(before, after, plan.deltas, {})
    ensures KeysOk(after, rows + plan.rows) && HourCells(after)
    ensures forall p :: p in plan.pairs ==> p.0 in after
  {
    hide ProjectsTo, RowsShare;
    forall p | p in plan.pairs ensures p.0 in after {
      assert (p.0, p.1) in plan.pairs;
      assert AnyContributes(plan.rows, p.1, p.0);
    }
    forall key | key in plan.deltas ensures HourAligned(key.bucket) {
      var r :| r in plan.rows && ProjectsTo(r, key);
      ProjectedBucketIsHour(r, key);
    }
  }
}
