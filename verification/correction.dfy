/** Class corrections of stored rows (accounting_v2.go, applyClassCorrection) and their effect on the
    hourly index. */
module Correction {
  import opened Types
  import opened Matching
  import opened Derived
  import opened Hourly
  import opened HourlyIndex
  import opened Plan

  lemma SameProjection(r: AccountedRow, r': AccountedRow)
    requires r' == r.(accounted := r'.accounted, decided := r'.decided)
    ensures forall bytes, key, exact :: RowShare(r', bytes, key, exact) == RowShare(r, bytes, key, exact)
    ensures forall key :: ProjectsTo(r', key) <==> ProjectsTo(r, key)
  {
  }

  lemma {:induction false} RowsShareUpdate(rows: seq<AccountedRow>, i: nat, r': AccountedRow, key: AggKey, exact: bool)
    requires i < |rows|
    ensures RowsShare(rows[i := r'], key, exact).up == RowsShare(rows, key, exact).up
              - RowShare(rows[i], rows[i].accounted, key, exact).up + RowShare(r', r'.accounted, key, exact).up
    ensures RowsShare(rows[i := r'], key, exact).down == RowsShare(rows, key, exact).down
              - RowShare(rows[i], rows[i].accounted, key, exact).down + RowShare(r', r'.accounted, key, exact).down
  {
    hide RowShare;
    var front, last := rows[..|rows| - 1], rows[|rows| - 1];
    assert rows == front + [last];
    RowsShareStep(front, last, key, exact);
    if i == |rows| - 1 {
      assert rows[i := r'] == front + [r'];
      RowsShareStep(front, r', key, exact);
    } else {
      assert rows[i := r'] == front[i := r'] + [last];
      RowsShareStep(front[i := r'], last, key, exact);
      RowsShareUpdate(front, i, r', key, exact);
    }
  }

  /** A row whose accounted bytes switch between nothing and its raw bytes. */
  predicate Switched(r: AccountedRow, r': AccountedRow) {
    && r' == r.(accounted := r'.accounted, decided := r'.decided)
    && NonNegative(r.raw)
    && (r.accounted == NO_BYTES || r.accounted == r.raw)
    && (r'.accounted == NO_BYTES || r'.accounted == r.raw)
  }

  function Difference(r: AccountedRow, r': AccountedRow): Bytes {
    Bytes(r'.accounted.up - r.accounted.up, r'.accounted.down - r.accounted.down)
  }

  lemma CorrectedCell(c: Cell, c': Cell, rows: seq<AccountedRow>, i: nat, r': AccountedRow, key: AggKey)
    requires i < |rows| && Switched(rows[i], r') && CellOk(c, rows, key)
    requires Added(c, c', RowShare(rows[i], Difference(rows[i], r'), key, true),
                          RowShare(rows[i], Difference(rows[i], r'), key, false))
    ensures CellOk(c', rows[i := r'], key)
  {
    hide RowShare, RowsShare;
    var r := rows[i];
    CorrectionShare(r, r.accounted, r'.accounted, key);
    SameProjection(r, r');
    RowsShareUpdate(rows, i, r', key, true);
    RowsShareUpdate(rows, i, r', key, false);
  }

  /** Posting the difference of one switched row keeps every cell in step. */
  lemma CorrectionKeepsBytes(cells: Cells, rows: seq<AccountedRow>, i: nat, r': AccountedRow)
    requires i < |rows| && Switched(rows[i], r') && BytesOk(cells, rows) && KeysOk(cells, rows)
    ensures BytesOk(PostAll(cells, RowPostings(rows[i], Difference(rows[i], r'))), rows[i := r'])
    ensures KeysOk(PostAll(cells, RowPostings(rows[i], Difference(rows[i], r'))), rows[i := r'])
  {
    hide RowsShare, ProjectsTo, CellOk, Added, RowPostings, PostAll, PostSum;
    var ps := RowPostings(rows[i], Difference(rows[i], r'));
    SameProjection(rows[i], r');
    forall key ensures CellOk(CellAt(PostAll(cells, ps), key), rows[i := r'], key) {
      assert CellOk(CellAt(cells, key), rows, key);
      PostAllAdds(cells, ps, key);
      CorrectedCell(CellAt(cells, key), CellAt(PostAll(cells, ps), key), rows, i, r', key);
    }
    forall r, key | r in rows[i := r'] && ProjectsTo(r, key) ensures key in PostAll(cells, ps) {
      PostAllAdds(cells, ps, key);
      assert rows[i] in rows;
    }
  }

  /** The correction takes the bytes of a spread row back. */
  predicate TakesBack(r: AccountedRow, r': AccountedRow) {
    Spread(r) && r.accounted != NO_BYTES && r'.accounted == NO_BYTES
  }

  /** What a corrected row leaves behind in an estimated cell. */
  function GivenBack(r: AccountedRow, r': AccountedRow, key: AggKey): Bytes {
    if TakesBack(r, r') then RowShare(r, r.accounted, key, false) else NO_BYTES
  }

  lemma GivenBackIsNonNegative(r: AccountedRow, r': AccountedRow, key: AggKey)
    ensures NonNegative(GivenBack(r, r', key))
  {
    hide RowShare;
    if Spread(r) {
      SpreadShare(r, r.accounted, key);
    }
  }

  lemma CorrectedEstimate(c: Cell, c': Cell, rows: seq<AccountedRow>, i: nat, r': AccountedRow, key: AggKey)
    requires i < |rows| && Switched(rows[i], r')
    requires Added(c, c', RowShare(rows[i], Difference(rows[i], r'), key, true),
                          RowShare(rows[i], Difference(rows[i], r'), key, false))
    ensures c'.est.up - RowsShare(rows[i := r'], key, false).up
            == c.est.up - RowsShare(rows, key, false).up + GivenBack(rows[i], r', key).up
    ensures c'.est.down - RowsShare(rows[i := r'], key, false).down
            == c.est.down - RowsShare(rows, key, false).down + GivenBack(rows[i], r', key).down
  {
    hide RowShare, RowsShare;
    var r := rows[i];
    CorrectionLeaves(r, r.accounted, r'.accounted, key);
    SameProjection(r, r');
    RowsShareUpdate(rows, i, r', key, false);
    if Spread(r) {
      SpreadShare(r, r.accounted, key);
    }
  }

  /** Posting the difference of one switched row leaves behind exactly what the row gives back. */
  lemma CorrectionStale(cells: Cells, rows: seq<AccountedRow>, i: nat, r': AccountedRow, key: AggKey)
    requires i < |rows| && Switched(rows[i], r')
    ensures StaleGrows(cells, rows, PostAll(cells, RowPostings(rows[i], Difference(rows[i], r'))), rows[i := r'], key,
                       GivenBack(rows[i], r', key))
  {
    hide RowsShare, Added, RowPostings, PostAll, PostSum, GivenBack;
    var ps := RowPostings(rows[i], Difference(rows[i], r'));
    PostAllAdds(cells, ps, key);
    CorrectedEstimate(CellAt(cells, key), CellAt(PostAll(cells, ps), key), rows, i, r', key);
  }

  lemma StaleOfBytesOk(cells: Cells, rows: seq<AccountedRow>, key: AggKey)
    requires BytesOk(cells, rows)
    ensures NonNegative(StaleAt(cells, rows, key))
  {
    hide RowsShare;
    assert CellOk(CellAt(cells, key), rows, key);
  }

  /** A correction posts to cells its row already has. */
  lemma CorrectionKeepsCells(cells: Cells, rows: seq<AccountedRow>, i: nat, bytes: Bytes)
    requires i < |rows| && KeysOk(cells, rows)
    ensures PostAll(cells, RowPostings(rows[i], bytes)).Keys == cells.Keys
  {
    hide ProjectsTo, RowPostings, PostAll;
    forall key ensures key in PostAll(cells, RowPostings(rows[i], bytes)) <==> key in cells {
      PostAllAdds(cells, RowPostings(rows[i], bytes), key);
      RowTouches(rows[i], bytes, key);
      assert rows[i] in rows;
    }
  }

  // ---------------------------------------------------------------------------------------------
  // One connection
  // ---------------------------------------------------------------------------------------------

  datatype ClassChange = ClassChange(key: ConnKey, oldClass: Option<AccountingClass>, newClass: AccountingClass)

  /** What the ledger guarantees about the rows of the changed connection. */
  predicate RowConsistent(r: AccountedRow, ch: ClassChange) {
    && NonNegative(r.raw) && r.raw != NO_BYTES
    && r.accounted == if ch.oldClass == Some(ConfirmedDuplicate) then NO_BYTES else r.raw
  }

  ghost predicate Consistent(rows: seq<AccountedRow>, ch: ClassChange) {
    forall r :: r in rows && r.key == ch.key ==> RowConsistent(r, ch)
  }

  lemma CorrectRowSwitches(r: AccountedRow, ch: ClassChange)
    requires r.key == ch.key && RowConsistent(r, ch)
    ensures Switched(r, CorrectRow(r, map[ch.key := ch.newClass]))
  {
  }

  /** All that a set of class changes leaves behind in an estimated cell. */
  function TakenBack(rows: seq<AccountedRow>, changes: ClassMap, key: AggKey): Bytes {
    if rows == [] then NO_BYTES
    else
      var front, r := TakenBack(rows[..|rows| - 1], changes, key), rows[|rows| - 1];
      var back := GivenBack(r, CorrectRow(r, changes), key);
      Bytes(front.up + back.up, front.down + back.down)
  }

  lemma TakenBackStep(rows: seq<AccountedRow>, i: nat, changes: ClassMap, key: AggKey)
    requires i < |rows|
    ensures var back := GivenBack(rows[i], CorrectRow(rows[i], changes), key);
            TakenBack(rows[..i + 1], changes, key)
            == Bytes(TakenBack(rows[..i], changes, key).up + back.up,
                     TakenBack(rows[..i], changes, key).down + back.down)
  {
    assert rows[..i + 1][..i] == rows[..i];
  }

  /** Between the two states every cell's stale bytes grew by what the changes take back from `part`. */
  ghost predicate StaleBy(cells: Cells, rows: seq<AccountedRow>, cells': Cells, rows': seq<AccountedRow>,
                          part: seq<AccountedRow>, changes: ClassMap)
  {
    forall key :: StaleGrows(cells, rows, cells', rows', key, TakenBack(part, changes, key))
  }

  /** No change takes the bytes of a spread row back. */
  predicate LeakFree(rows: seq<AccountedRow>, changes: ClassMap) {
    forall r :: r in rows ==> !TakesBack(r, CorrectRow(r, changes))
  }

  lemma {:induction false} TakenBackIsNonNegative(rows: seq<AccountedRow>, changes: ClassMap, key: AggKey)
    ensures NonNegative(TakenBack(rows, changes, key))
    ensures forall r :: r in rows ==> GivenBack(r, CorrectRow(r, changes), key).AtMost(TakenBack(rows, changes, key))
    ensures LeakFree(rows, changes) ==> TakenBack(rows, changes, key) == NO_BYTES
  {
    hide RowShare, CorrectRow;
    if rows != [] {
      var front, r := rows[..|rows| - 1], rows[|rows| - 1];
      assert rows == front + [r];
      TakenBackIsNonNegative(front, changes, key);
      GivenBackIsNonNegative(r, CorrectRow(r, changes), key);
      forall x | x in front ensures NonNegative(GivenBack(x, CorrectRow(x, changes), key)) {
        GivenBackIsNonNegative(x, CorrectRow(x, changes), key);
      }
    }
  }

  /** The guard decides exactly whether a set of changes leaves anything behind anywhere. */
  lemma LeakFreeIff(rows: seq<AccountedRow>, changes: ClassMap)
    requires forall r :: r in rows ==> NonNegative(r.accounted)
    ensures LeakFree(rows, changes) <==> forall key :: TakenBack(rows, changes, key) == NO_BYTES
  {
    hide RowShare, CorrectRow, TakenBack;
    forall key ensures LeakFree(rows, changes) ==> TakenBack(rows, changes, key) == NO_BYTES {
      TakenBackIsNonNegative(rows, changes, key);
    }
    if r :| r in rows && TakesBack(r, CorrectRow(r, changes)) {
      var key := SpreadRowHasShare(r, r.accounted);
      TakenBackIsNonNegative(rows, changes, key);
      SpreadShare(r, r.accounted, key);
      assert GivenBack(r, CorrectRow(r, changes), key) != NO_BYTES;
    }
  }

  /** What is left behind in an estimated cell never goes away: the cells equal the rows' sums afterwards
      exactly when they did before and nothing was taken back. */
  lemma StaleDecides(cells: Cells, rows: seq<AccountedRow>, cells': Cells, rows': seq<AccountedRow>, changes: ClassMap)
    requires BytesOk(cells, rows) && StaleBy(cells, rows, cells', rows', rows, changes)
    requires forall r :: r in rows ==> NonNegative(r.accounted)
    ensures EstimatesCurrent(cells', rows') <==> EstimatesCurrent(cells, rows) && LeakFree(rows, changes)
  {
    hide StaleAt, BytesOk, EstimatesCurrent, TakenBack, LeakFree;
    CurrentIsNotStale(cells, rows);
    CurrentIsNotStale(cells', rows');
    LeakFreeIff(rows, changes);
    forall key
      ensures StaleAt(cells', rows', key) == NO_BYTES
              <==> StaleAt(cells, rows, key) == NO_BYTES && TakenBack(rows, changes, key) == NO_BYTES
    {
      assert StaleGrows(cells, rows, cells', rows', key, TakenBack(rows, changes, key));
      StaleOfBytesOk(cells, rows, key);
      TakenBackIsNonNegative(rows, changes, key);
    }
    if EstimatesCurrent(cells', rows') {
      forall key ensures StaleAt(cells, rows, key) == NO_BYTES && TakenBack(rows, changes, key) == NO_BYTES {
        assert StaleAt(cells', rows', key) == NO_BYTES;
      }
    }
    if EstimatesCurrent(cells, rows) && LeakFree(rows, changes) {
      forall key ensures StaleAt(cells', rows', key) == NO_BYTES {
        assert StaleAt(cells, rows, key) == NO_BYTES && TakenBack(rows, changes, key) == NO_BYTES;
      }
    }
  }

  lemma OneMoreRowStale(cells: Cells, now: Cells, rows: seq<AccountedRow>, rows': seq<AccountedRow>, i: nat,
                        changes: ClassMap)
    requires i < |rows| == |rows'| && rows'[i] == rows[i] && Switched(rows[i], CorrectRow(rows[i], changes))
    requires StaleBy(cells, rows, now, rows', rows[..i], changes)
    ensures var r' := CorrectRow(rows[i], changes);
            StaleBy(cells, rows, PostAll(now, RowPostings(rows[i], Difference(rows[i], r'))), rows'[i := r'],
                    rows[..i + 1], changes)
  {
    hide StaleAt, GivenBack, TakenBack, PostAll, RowPostings, CorrectRow;
    var r', part := CorrectRow(rows[i], changes), rows[..i + 1];
    var later, rows'' := PostAll(now, RowPostings(rows[i], Difference(rows[i], r'))), rows'[i := r'];
    forall key ensures StaleGrows(cells, rows, later, rows'', key, TakenBack(part, changes, key)) {
      assert StaleGrows(cells, rows, now, rows', key, TakenBack(rows[..i], changes, key));
      CorrectionStale(now, rows', i, r', key);
      TakenBackStep(rows, i, changes, key);
    }
  }

  lemma UnchangedRowGivesNothing(cells: Cells, now: Cells, rows: seq<AccountedRow>, rows': seq<AccountedRow>, i: nat,
                                 changes: ClassMap)
    requires i < |rows| && CorrectRow(rows[i], changes) == rows[i]
    requires StaleBy(cells, rows, now, rows', rows[..i], changes)
    ensures StaleBy(cells, rows, now, rows', rows[..i + 1], changes)
  {
    hide StaleAt, TakenBack, RowShare;
    var part := rows[..i + 1];
    forall key ensures StaleGrows(cells, rows, now, rows', key, TakenBack(part, changes, key)) {
      assert StaleGrows(cells, rows, now, rows', key, TakenBack(rows[..i], changes, key));
      TakenBackStep(rows, i, changes, key);
    }
  }

  lemma CountingKeepsStale(cells: Cells, rows: seq<AccountedRow>, before: Cells, after: Cells, rows': seq<AccountedRow>,
                           part: seq<AccountedRow>, changes: ClassMap)
    requires SameBytes(before, after) && StaleBy(cells, rows, before, rows', part, changes)
    ensures StaleBy(cells, rows, after, rows', part, changes)
  {
    hide StaleAt, TakenBack, SameBytes;
    forall key ensures StaleGrows(cells, rows, after, rows', key, TakenBack(part, changes, key)) {
      assert StaleGrows(cells, rows, before, rows', key, TakenBack(part, changes, key));
      CountChangesKeepStale(before, after, rows', key);
    }
  }

  function Corrected(rows: seq<AccountedRow>, changes: ClassMap, n: nat): seq<AccountedRow>
    requires n <= |rows|
  {
    CorrectRows(rows[..n], changes) + rows[n..]
  }

  lemma CorrectedStep(rows: seq<AccountedRow>, changes: ClassMap, n: nat)
    requires n < |rows|
    ensures Corrected(rows, changes, n)[n] == rows[n]
    ensures Corrected(rows, changes, n + 1) == Corrected(rows, changes, n)[n := CorrectRow(rows[n], changes)]
  {
  }

  lemma {:induction false} AccountedTotalUpdate(rows: seq<AccountedRow>, i: nat, r': AccountedRow)
    requires i < |rows|
    ensures AccountedTotal(rows[i := r']).up == AccountedTotal(rows).up + Difference(rows[i], r').up
    ensures AccountedTotal(rows[i := r']).down == AccountedTotal(rows).down + Difference(rows[i], r').down
  {
    var front := rows[..|rows| - 1];
    if i == |rows| - 1 {
      assert rows[i := r'][..|rows| - 1] == front;
    } else {
      assert rows[i := r'][..|rows| - 1] == front[i := r'];
      AccountedTotalUpdate(front, i, r');
    }
  }

  /** The row loop: rewrite the connection's rows and post every difference. */
  method CorrectConnRows(index: Index, rows: seq<AccountedRow>, ch: ClassChange)
    returns (rows': seq<AccountedRow>, delta: Bytes)
    requires Consistent(rows, ch)
    requires CountsOk(index.cells, index.seen) && BytesOk(index.cells, rows) && KeysOk(index.cells, rows)
    modifies index
    ensures CountsOk(index.cells, index.seen) && BytesOk(index.cells, rows') && KeysOk(index.cells, rows')
    ensures index.seen == old(index.seen) && index.cells.Keys == old(index.cells).Keys
    ensures StaleBy(old(index.cells), rows, index.cells, rows', rows, map[ch.key := ch.newClass])
    ensures rows' == CorrectRows(rows, map[ch.key := ch.newClass])
    ensures delta.up == AccountedTotal(rows').up - AccountedTotal(rows).up
    ensures delta.down == AccountedTotal(rows').down - AccountedTotal(rows).down
  {
    hide CountsOk, BytesOk, KeysOk, RowPostings, AccountedTotal, StaleBy;
    ghost var changes := map[ch.key := ch.newClass];
    rows', delta := rows, NO_BYTES;
    assert Corrected(rows, changes, 0) == rows;
    NoRowsGiveNothing(index.cells, rows, changes);
    for i := 0 to |rows|
      invariant CountsOk(index.cells, index.seen) && BytesOk(index.cells, rows') && KeysOk(index.cells, rows')
      invariant index.seen == old(index.seen) && index.cells.Keys == old(index.cells).Keys
      invariant StaleBy(old(index.cells), rows, index.cells, rows', rows[..i], changes)
      invariant rows' == Corrected(rows, changes, i)
      invariant delta.up == AccountedTotal(rows').up - AccountedTotal(rows).up
      invariant delta.down == AccountedTotal(rows').down - AccountedTotal(rows).down
    {
      var r := rows[i];
      CorrectedStep(rows, changes, i);
      if r.key == ch.key {
        assert r in rows;
        CorrectRowSwitches(r, ch);
        var now := AccountedBytes(ch.newClass, r.raw);
        var up, down := now.up - r.accounted.up, now.down - r.accounted.down;
        if up != 0 || down != 0 {
          var r' := r.(accounted := now, decided := ch.newClass);
          assert r' == CorrectRow(r, changes);
          CorrectionKeepsBytes(index.cells, rows', i, r');
          CorrectionKeepsCells(index.cells, rows', i, Bytes(up, down));
          OneMoreRowStale(old(index.cells), index.cells, rows, rows', i, changes);
          AccountedTotalUpdate(rows', i, r');
          index.PostRow(r, Bytes(up, down));
          rows' := rows'[i := r'];
          delta := Bytes(delta.up + up, delta.down + down);
        } else {
          UnchangedRowGivesNothing(old(index.cells), index.cells, rows, rows', i, changes);
        }
      } else {
        UnchangedRowGivesNothing(old(index.cells), index.cells, rows, rows', i, changes);
      }
    }
    assert rows[..|rows|] == rows;
    assert Corrected(rows, changes, |rows|) == CorrectRows(rows, changes);
  }

  lemma NoRowsGiveNothing(cells: Cells, rows: seq<AccountedRow>, changes: ClassMap)
    ensures StaleBy(cells, rows, cells, rows, rows[..0], changes)
  {
  }

  lemma OthersContributeAlike(rows: seq<AccountedRow>, ch: ClassChange, c: ConnKey, key: AggKey)
    requires c != ch.key
    ensures AnyContributes(CorrectRows(rows, map[ch.key := ch.newClass]), c, key) <==> AnyContributes(rows, c, key)
  {
    hide ProjectsTo;
    var rows' := CorrectRows(rows, map[ch.key := ch.newClass]);
    if r :| r in rows && Contributes(r, c, key) {
      var i :| 0 <= i < |rows| && rows[i] == r;
      assert rows'[i] == r && rows'[i] in rows';
    }
    if r :| r in rows' && Contributes(r, c, key) {
      var i :| 0 <= i < |rows'| && rows'[i] == r;
      assert rows[i] == r && rows[i] in rows;
    }
  }

  /** Without a crossing of the duplicate line a correction changes no row, whatever the classes. */
  lemma NoCrossingKeepsRows(rows: seq<AccountedRow>, ch: ClassChange)
    requires Consistent(rows, ch) && (ch.oldClass == Some(ConfirmedDuplicate) <==> ch.newClass.ConfirmedDuplicate?)
    ensures CorrectRows(rows, map[ch.key := ch.newClass]) == rows
  {
    forall i | 0 <= i < |rows| ensures CorrectRow(rows[i], map[ch.key := ch.newClass]) == rows[i] {
      assert rows[i] in rows;
    }
  }

  lemma DuplicateContributesNothing(rows: seq<AccountedRow>, ch: ClassChange, key: AggKey)
    requires Consistent(rows, ch) && ch.newClass.ConfirmedDuplicate?
    ensures !AnyContributes(CorrectRows(rows, map[ch.key := ch.newClass]), ch.key, key)
  {
    hide ProjectsTo;
  }

  lemma OldDuplicateContributedNothing(rows: seq<AccountedRow>, ch: ClassChange, key: AggKey)
    requires Consistent(rows, ch) && ch.oldClass == Some(ConfirmedDuplicate)
    ensures !AnyContributes(rows, ch.key, key)
  {
  }

  /** applyClassCorrection: rewrite the rows, then stop or resume counting the connection. */
  method ApplyClassCorrection(index: Index, rows: seq<AccountedRow>, ch: ClassChange)
    returns (rows': seq<AccountedRow>, delta: Bytes)
    requires Consistent(rows, ch) && IndexOk(index.cells, index.seen, rows)
    modifies index
    ensures IndexOk(index.cells, index.seen, rows')
    ensures StaleBy(old(index.cells), rows, index.cells, rows', rows, map[ch.key := ch.newClass])
    ensures rows' == CorrectRows(rows, map[ch.key := ch.newClass])
    ensures delta.up == AccountedTotal(rows').up - AccountedTotal(rows).up
    ensures delta.down == AccountedTotal(rows').down - AccountedTotal(rows).down
  {
    hide CountsOk, BytesOk, KeysOk, AnyContributes, AccountedTotal, CorrectRows, Consistent, StaleBy;
    rows', delta := CorrectConnRows(index, rows, ch);
    forall key, c | c != ch.key ensures AnyContributes(rows', c, key) <==> AnyContributes(rows, c, key) {
      OthersContributeAlike(rows, ch, c, key);
    }
    label corrected:
    if ch.newClass.ConfirmedDuplicate? && ch.oldClass != Some(ConfirmedDuplicate) {
      forall key ensures !AnyContributes(rows', ch.key, key) { DuplicateContributesNothing(rows, ch, key); }
      index.RemoveConn(ch.key);
      CountChangesKeepBytes(old@corrected(index.cells), index.cells, rows');
      CountingKeepsStale(old(index.cells), rows, old@corrected(index.cells), index.cells, rows', rows,
                         map[ch.key := ch.newClass]);
      forall key, c ensures (key, c) in index.seen <==> AnyContributes(rows', c, key) {
        assert (key, c) in index.seen <==> (key, c) in old(index.seen) && (key, c).1 != ch.key;
      }
    } else if ch.oldClass == Some(ConfirmedDuplicate) && !ch.newClass.ConfirmedDuplicate? {
      forall key ensures !AnyContributes(rows, ch.key, key) { OldDuplicateContributedNothing(rows, ch, key); }
      index.ReaddConn(rows', ch.key);
      CountChangesKeepBytes(old@corrected(index.cells), index.cells, rows');
      CountingKeepsStale(old(index.cells), rows, old@corrected(index.cells), index.cells, rows', rows,
                         map[ch.key := ch.newClass]);
    } else {
      NoCrossingKeepsRows(rows, ch);
    }
  }
}
