/** The active generation as mutable tables: the writer transaction of one incremental chunk
    (accounting_v2.go, advanceIncrementalChunk) applied step by step. */
module GenerationStore {
  import opened Types
  import opened Matching
  import opened ConnState
  import opened Evidence
  import opened Derived
  import opened Accounting
  import opened Hourly
  import opened HourlyIndex
  import opened Plan
  import opened Correction
  import opened Preparation

  datatype Outcome = Committed(boundary: nat) | SkippedRace(actual: nat)

  function MapOf(changes: seq<ClassChange>): ClassMap {
    if changes == [] then map[]
    else MapOf(changes[..|changes| - 1])[changes[|changes| - 1].key := changes[|changes| - 1].newClass]
  }

  ghost predicate DistinctChanges(changes: seq<ClassChange>) {
    forall i, j :: 0 <= i < j < |changes| ==> changes[i].key != changes[j].key
  }

  lemma {:induction false} MapOfMembers(changes: seq<ClassChange>)
    requires DistinctChanges(changes)
    ensures forall ch :: ch in changes ==> ch.key in MapOf(changes) && MapOf(changes)[ch.key] == ch.newClass
    ensures forall k :: k in MapOf(changes) ==> exists ch :: ch in changes && ch.key == k
  {
    if changes != [] {
      var front, last := changes[..|changes| - 1], changes[|changes| - 1];
      MapOfMembers(front);
      assert changes == front + [last];
      forall ch | ch in front ensures ch.key != last.key {
      }
      forall k | k in MapOf(changes) ensures exists ch :: ch in changes && ch.key == k {
        if k == last.key {
          assert last in changes;
        } else {
          assert k in MapOf(front);
          var ch :| ch in front && ch.key == k;
          assert ch in changes;
        }
      }
    }
  }

  lemma ListedChangesAreMap(changes: seq<ClassChange>, m: ClassMap, dirty: Generation, partners: Generation,
                               updates: Updates, cutoff: Time)
    requires ListsChanges(changes, m, dirty, partners, updates, cutoff)
    ensures MapOf(changes) == m
  {
    hide PriorClass;
    MapOfMembers(changes);
    forall k | k in m ensures k in MapOf(changes) && MapOf(changes)[k] == m[k] {
      var ch :| ch in changes && ch.key == k;
    }
  }

  lemma CorrectTwice(rows: seq<AccountedRow>, m: ClassMap, ch: ClassChange)
    requires ch.key !in m
    ensures CorrectRows(CorrectRows(rows, m), map[ch.key := ch.newClass]) == CorrectRows(rows, m[ch.key := ch.newClass])
  {
    var twice := CorrectRows(CorrectRows(rows, m), map[ch.key := ch.newClass]);
    forall i | 0 <= i < |rows| ensures twice[i] == CorrectRow(rows[i], m[ch.key := ch.newClass]) {
      assert CorrectRows(rows, m)[i] == CorrectRow(rows[i], m);
    }
  }

  lemma OthersStayConsistent(rows: seq<AccountedRow>, m: ClassMap, ch: ClassChange)
    requires Consistent(rows, ch) && ch.key !in m
    ensures Consistent(CorrectRows(rows, m), ch)
  {
    forall r | r in CorrectRows(rows, m) && r.key == ch.key ensures RowConsistent(r, ch) {
      var i :| 0 <= i < |rows| && CorrectRows(rows, m)[i] == r;
      assert rows[i] in rows && r == CorrectRow(rows[i], m);
    }
  }

  lemma {:induction false} TakenBackTwice(rows: seq<AccountedRow>, m: ClassMap, ch: ClassChange, key: AggKey)
    requires ch.key !in m
    ensures var first := TakenBack(rows, m, key);
            var second := TakenBack(CorrectRows(rows, m), map[ch.key := ch.newClass], key);
            TakenBack(rows, m[ch.key := ch.newClass], key) == Bytes(first.up + second.up, first.down + second.down)
  {
    hide RowShare;
    if rows != [] {
      var front, r := rows[..|rows| - 1], rows[|rows| - 1];
      TakenBackTwice(front, m, ch, key);
      assert CorrectRows(rows, m)[..|rows| - 1] == CorrectRows(front, m);
    }
  }

  lemma OneMoreChangeStale(c0: Cells, c1: Cells, c2: Cells, rows: seq<AccountedRow>, rows'': seq<AccountedRow>,
                           m: ClassMap, ch: ClassChange)
    requires ch.key !in m && StaleBy(c0, rows, c1, CorrectRows(rows, m), rows, m)
    requires StaleBy(c1, CorrectRows(rows, m), c2, rows'', CorrectRows(rows, m), map[ch.key := ch.newClass])
    ensures StaleBy(c0, rows, c2, rows'', rows, m[ch.key := ch.newClass])
  {
    hide StaleAt, TakenBack, CorrectRows;
    var m', one := m[ch.key := ch.newClass], map[ch.key := ch.newClass];
    forall key ensures StaleGrows(c0, rows, c2, rows'', key, TakenBack(rows, m', key)) {
      assert StaleGrows(c0, rows, c1, CorrectRows(rows, m), key, TakenBack(rows, m, key));
      assert StaleGrows(c1, CorrectRows(rows, m), c2, rows'', key, TakenBack(CorrectRows(rows, m), one, key));
      TakenBackTwice(rows, m, ch, key);
    }
  }

  lemma {:induction false} NoChangeTakesNothing(rows: seq<AccountedRow>, key: AggKey)
    ensures TakenBack(rows, map[], key) == NO_BYTES
  {
    if rows != [] {
      NoChangeTakesNothing(rows[..|rows| - 1], key);
    }
  }

  lemma NothingStaleYet(cells: Cells, rows: seq<AccountedRow>)
    ensures StaleBy(cells, rows, cells, rows, rows, map[])
  {
    hide StaleAt, TakenBack;
    forall key ensures StaleGrows(cells, rows, cells, rows, key, TakenBack(rows, map[], key)) {
      NoChangeTakesNothing(rows, key);
    }
  }

  lemma InsertingKeepsStale(c0: Cells, c1: Cells, c2: Cells, rows: seq<AccountedRow>, rows': seq<AccountedRow>,
                            rows'': seq<AccountedRow>, m: ClassMap)
    requires StaleBy(c0, rows, c1, rows', rows, m) && forall key :: StaleAt(c2, rows'', key) == StaleAt(c1, rows', key)
    ensures StaleBy(c0, rows, c2, rows'', rows, m)
  {
    hide StaleAt, TakenBack;
    forall key ensures StaleGrows(c0, rows, c2, rows'', key, TakenBack(rows, m, key)) {
      assert StaleGrows(c0, rows, c1, rows', key, TakenBack(rows, m, key));
    }
  }

  /** applyClassCorrections: every changed connection in turn. */
  method ApplyClassCorrections(index: Index, rows: seq<AccountedRow>, changes: seq<ClassChange>)
    returns (rows': seq<AccountedRow>, delta: Bytes)
    requires DistinctChanges(changes) && forall ch :: ch in changes ==> Consistent(rows, ch)
    requires IndexOk(index.cells, index.seen, rows)
    modifies index
    ensures IndexOk(index.cells, index.seen, rows')
    ensures StaleBy(old(index.cells), rows, index.cells, rows', rows, MapOf(changes))
    ensures rows' == CorrectRows(rows, MapOf(changes)) && delta == CorrectionDelta(rows, MapOf(changes))
  {
    hide IndexOk, StaleBy, Consistent, AccountedTotal, CorrectRows;
    rows', delta := rows, NO_BYTES;
    CorrectNothing(rows);
    NothingStaleYet(index.cells, rows);
    for i := 0 to |changes|
      invariant IndexOk(index.cells, index.seen, rows')
      invariant StaleBy(old(index.cells), rows, index.cells, rows', rows, MapOf(changes[..i]))
      invariant rows' == CorrectRows(rows, MapOf(changes[..i]))
      invariant delta.up == AccountedTotal(rows').up - AccountedTotal(rows).up
      invariant delta.down == AccountedTotal(rows').down - AccountedTotal(rows).down
    {
      var ch := changes[i];
      assert changes[..i + 1][..i] == changes[..i] && ch in changes;
      assert changes[..i + 1] == changes[..i] + [ch];
      MapOfMembers(changes[..i]);
      OthersStayConsistent(rows, MapOf(changes[..i]), ch);
      CorrectTwice(rows, MapOf(changes[..i]), ch);
      ghost var cells := index.cells;
      var step;
      rows', step := ApplyClassCorrection(index, rows', ch);
      OneMoreChangeStale(old(index.cells), cells, index.cells, rows, rows', MapOf(changes[..i]), ch);
      delta := Bytes(delta.up + step.up, delta.down + step.down);
    }
    assert changes[..|changes|] == changes;
  }

  lemma CorrectNothing(rows: seq<AccountedRow>)
    ensures CorrectRows(rows, map[]) == rows
  {
  }

  // ---------------------------------------------------------------------------------------------
  // Connection rows and classes
  // ---------------------------------------------------------------------------------------------

  function MergedRow(table: Table, updates: Updates, k: ConnKey): Summary
    requires k in updates
  {
    if k in table then Upsert(table[k], updates[k]) else Insert(updates[k])
  }

  ghost predicate RowsStored(table: Table, updates: Updates, now: Table, done: set<ConnKey>) {
    && now.Keys == table.Keys + done
    && (forall k :: k in done ==> k in updates && now[k] == MergedRow(table, updates, k))
    && (forall k :: k in table && k !in done ==> now[k] == table[k])
  }

  lemma StoreRow(table: Table, updates: Updates, now: Table, done: set<ConnKey>, k: ConnKey)
    requires RowsStored(table, updates, now, done) && k in updates && k !in done
    ensures k in now <==> k in table
    ensures k in now ==> now[k] == table[k]
    ensures RowsStored(table, updates, now[k := MergedRow(table, updates, k)], done + {k})
  {
    hide MergedRow;
  }

  lemma AllRowsStored(table: Table, updates: Updates, now: Table)
    requires RowsStored(table, updates, now, updates.Keys)
    ensures now == ApplyUpdates(table, updates)
  {
    hide Upsert, Insert;
  }

  ghost predicate DefaultsStored(classes: ClassMap, now: ClassMap, done: set<ConnKey>) {
    now.Keys == classes.Keys + done && forall k :: k in now ==> now[k] == ClassFor(classes, k)
  }

  lemma StoreDefault(classes: ClassMap, now: ClassMap, done: set<ConnKey>, k: ConnKey)
    requires DefaultsStored(classes, now, done) && k !in done
    ensures DefaultsStored(classes, now[k := if k in now then now[k] else Unique], done + {k})
  {
  }

  /** applyConnStateUpdates; a new row starts with the default class. */
  method ApplyConnStateUpdates(table: Table, classes: ClassMap, updates: Updates)
    returns (table': Table, classes': ClassMap)
    ensures table' == ApplyUpdates(table, updates)
    ensures classes'.Keys == classes.Keys + updates.Keys
    ensures forall k :: k in classes' ==> classes'[k] == ClassFor(classes, k)
  {
    hide ApplyUpdates, RowsStored, DefaultsStored;
    table', classes' := table, classes;
    var todo := updates.Keys;
    ghost var done: set<ConnKey> := {};
    assert RowsStored(table, updates, table, {}) && DefaultsStored(classes, classes, {}) by {
      NothingStored(table, classes, updates);
    }
    while todo != {}
      invariant todo <= updates.Keys && done == updates.Keys - todo
      invariant RowsStored(table, updates, table', done) && DefaultsStored(classes, classes', done)
      decreases |todo|
    {
      var k :| k in todo;
      StoreRow(table, updates, table', done, k);
      StoreDefault(classes, classes', done, k);
      table' := table'[k := if k in table' then Upsert(table'[k], updates[k]) else Insert(updates[k])];
      classes' := classes'[k := if k in classes' then classes'[k] else Unique];
      done := done + {k};
      todo := todo - {k};
    }
    assert done == updates.Keys;
    AllRowsStored(table, updates, table');
    AllDefaultsStored(classes, updates, classes');
  }

  lemma NothingStored(table: Table, classes: ClassMap, updates: Updates)
    ensures RowsStored(table, updates, table, {}) && DefaultsStored(classes, classes, {})
  {
  }

  lemma AllDefaultsStored(classes: ClassMap, updates: Updates, now: ClassMap)
    requires DefaultsStored(classes, now, updates.Keys)
    ensures now.Keys == classes.Keys + updates.Keys && forall k :: k in now ==> now[k] == ClassFor(classes, k)
  {
  }

  /** applyClassChanges: one update per changed connection; the row is always there. */
  method ApplyClassChanges(classes: ClassMap, changes: seq<ClassChange>) returns (classes': ClassMap)
    requires forall ch :: ch in changes ==> ch.key in classes
    ensures classes' == classes + MapOf(changes)
  {
    classes' := classes;
    for i := 0 to |changes|
      invariant classes' == classes + MapOf(changes[..i])
    {
      assert changes[..i + 1][..i] == changes[..i];
      classes' := classes'[changes[i].key := changes[i].newClass];
    }
    assert changes[..|changes|] == changes;
  }

  lemma StoredClassesAre(gen: Generation, updates: Updates, m: ClassMap, inserted: ClassMap)
    requires gen.classes.Keys == gen.table.Keys && m.Keys <= gen.table.Keys + updates.Keys
    requires inserted.Keys == gen.classes.Keys + updates.Keys
    requires forall k :: k in inserted ==> inserted[k] == ClassFor(gen.classes, k)
    ensures inserted + m == StoredClasses(gen, updates, m)
  {
  }

  /** A published generation's rows agree with the old class of every listed change. */
  lemma LedgerMakesConsistent(gen: Generation, journal: seq<Event>, updates: Updates, cutoff: Time, m: ClassMap,
                              changes: seq<ClassChange>)
    requires GenOk(gen, journal) && Sound(journal) && ListsChanges(changes, m, gen, gen, updates, cutoff)
    requires m.Keys <= InputKeys(gen, gen, updates, cutoff)
    ensures forall ch :: ch in changes ==> Consistent(gen.rows, ch)
  {
    hide Ledger, BooksEvent, Items, TableOf, RawTotal, AccountedTotal, FrameOrdered;
    RowsAreExactlyTheTraffic(gen, journal);
    LedgerAccounts(gen.rows, Items(journal, gen.published), gen.classes);
    forall ch, r | ch in changes && r in gen.rows && r.key == ch.key ensures RowConsistent(r, ch) {
      RowAgreesWithPrior(gen, journal, updates, cutoff, r);
    }
  }

  lemma RowAgreesWithPrior(gen: Generation, journal: seq<Event>, updates: Updates, cutoff: Time, r: AccountedRow)
    requires r.key in InputKeys(gen, gen, updates, cutoff)
    requires gen.classes.Keys == gen.table.Keys && Sound(journal) && BooksEvent(r, journal, gen.published)
    requires r.accounted == AccountedBytes(ClassFor(gen.classes, r.key), r.raw)
    ensures NonNegative(r.raw) && r.raw != NO_BYTES
    ensures r.accounted == if PriorClass(gen, gen, updates, cutoff, r.key) == Some(ConfirmedDuplicate) then NO_BYTES
              else r.raw
  {
    assert journal[r.seqno - 1] in journal;
  }

  /** What a commit does to the hourly index: in step with the new rows, and its stale bytes grown by
      exactly what the class changes take back. */
  ghost predicate IndexFollows(gen: Generation, chunk: Chunk, to: nat, cells: Cells, cells': Cells, seen': Seen) {
    var gen' := Commit(gen, chunk, to);
    IndexOk(cells', seen', gen'.rows) && StaleBy(cells, gen.rows, cells', gen'.rows, gen.rows, chunk.changes)
  }

  /** A commit keeps the estimated cells exact exactly when they were and its changes take nothing back. */
  lemma CommitDecidesStale(gen: Generation, journal: seq<Event>, cells: Cells, seen: Seen, cells': Cells,
                           rows': seq<AccountedRow>, changes: ClassMap)
    requires GenOk(gen, journal) && Sound(journal) && IndexOk(cells, seen, gen.rows)
    requires StaleBy(cells, gen.rows, cells', rows', gen.rows, changes)
    ensures EstimatesCurrent(cells', rows') <==> EstimatesCurrent(cells, gen.rows) && LeakFree(gen.rows, changes)
  {
    hide GenOk, Sound, BytesOk, StaleBy, EstimatesCurrent, LeakFree;
    LedgerHasNoNegatives(gen, journal);
    StaleDecides(cells, gen.rows, cells', rows', changes);
  }

  class Store {
    var table: Table
    var classes: ClassMap
    var rows: seq<AccountedRow>
    var published: nat
    var raw: Bytes
    var accounted: Bytes
    const index: Index

    function Abs(): Generation
      reads this
    {
      Generation(table, classes, rows, published, raw, accounted)
    }

    /** The generation accounts for the journal up to its boundary, and the hourly index is in step
        with its rows. */
    ghost predicate Valid(journal: seq<Event>)
      reads this, index
    {
      GenOk(Abs(), journal) && Sound(journal) && IndexOk(index.cells, index.seen, rows)
    }

    /** The tables of an activated generation and the index seeded beside it. */
    constructor (gen: Generation, index: Index, ghost journal: seq<Event>)
      requires GenOk(gen, journal) && Sound(journal) && IndexOk(index.cells, index.seen, gen.rows)
      ensures Valid(journal) && Abs() == gen && this.index == index
    {
      table, classes, rows, published := gen.table, gen.classes, gen.rows, gen.published;
      raw, accounted := gen.raw, gen.accounted;
      this.index := index;
    }

    /** The writer transaction. The preparation may be stale; the boundary recheck decides. */
    method CommitChunk(ghost journal: seq<Event>, from: nat, to: nat, chunk: Chunk, changes: seq<ClassChange>,
                       plan: AccountedPlan, ghost cutoff: Time)
      returns (outcome: Outcome)
      requires Valid(journal) && from <= to <= |journal|
      requires published == from ==>
                 && chunk == Prepare(journal, from, to, Abs(), Abs(), cutoff)
                 && ListsChanges(changes, chunk.changes, Abs(), Abs(), chunk.updates, cutoff)
                 && plan.rows == chunk.planned && PlanOk(plan)
      modifies this, index
      ensures Valid(journal)
      ensures old(published) == from ==> outcome == Committed(to) && Abs() == Commit(old(Abs()), chunk, to)
      ensures old(published) == from ==>
                (EstimatesCurrent(index.cells, rows) <==>
                   old(EstimatesCurrent(index.cells, rows)) && LeakFree(old(rows), chunk.changes))
      ensures old(published) == from ==>
                IndexFollows(old(Abs()), chunk, to, old(index.cells), index.cells, index.seen)
      ensures old(published) != from ==>
                outcome == SkippedRace(old(published)) && Abs() == old(Abs())
                && index.cells == old(index.cells) && index.seen == old(index.seen)
    {
      hide GenOk, Prepare, Commit, Sound, IndexOk, EstimatesCurrent, LeakFree, StaleBy, StaleAt, ListsChanges, PlanOk,
           ApplyUpdates;
      if published != from {
        return SkippedRace(published);
      }
      ghost var gen := Abs();
      CommitFacts(gen, journal, to, chunk, changes, cutoff);
      CommitKeepsGenOk(gen, journal, to, cutoff);
      var inserted;
      table, inserted := ApplyConnStateUpdates(table, classes, chunk.updates);
      classes := ApplyClassChanges(inserted, changes);
      StoredClassesAre(gen, chunk.updates, chunk.changes, inserted);
      var correction;
      rows, correction := ApplyClassCorrections(index, rows, changes);
      ghost var cells := index.cells;
      ApplyAccountedPlan(index, rows, plan);
      InsertingKeepsStale(old(index.cells), cells, index.cells, gen.rows, rows, rows + plan.rows, chunk.changes);
      CommitDecidesStale(gen, journal, old(index.cells), old(index.seen), index.cells, rows + plan.rows, chunk.changes);
      rows := rows + plan.rows;
      PublishGenerationBoundary(to, correction, plan.rows);
      CommitIs(gen, chunk, to);
      outcome := Committed(to);
    }

    /** publishGenerationBoundary: the boundary moves together with the totals it covers. */
    method PublishGenerationBoundary(to: nat, correction: Bytes, inserted: seq<AccountedRow>)
      modifies this
      ensures published == to
      ensures raw == Bytes(old(raw).up + RawTotal(inserted).up, old(raw).down + RawTotal(inserted).down)
      ensures accounted == Bytes(old(accounted).up + AccountedTotal(inserted).up + correction.up,
                                 old(accounted).down + AccountedTotal(inserted).down + correction.down)
      ensures table == old(table) && classes == old(classes) && rows == old(rows)
    {
      published := to;
      raw := Bytes(raw.up + RawTotal(inserted).up, raw.down + RawTotal(inserted).down);
      accounted := Bytes(accounted.up + AccountedTotal(inserted).up + correction.up,
                         accounted.down + AccountedTotal(inserted).down + correction.down);
    }
  }

  lemma CommitIs(gen: Generation, chunk: Chunk, to: nat)
    ensures Commit(gen, chunk, to)
            == Generation(ApplyUpdates(gen.table, chunk.updates), StoredClasses(gen, chunk.updates, chunk.changes),
                          CorrectRows(gen.rows, chunk.changes) + chunk.planned, to,
                          Bytes(gen.raw.up + RawTotal(chunk.planned).up, gen.raw.down + RawTotal(chunk.planned).down),
                          Bytes(gen.accounted.up + AccountedTotal(chunk.planned).up
                                + CorrectionDelta(gen.rows, chunk.changes).up,
                                gen.accounted.down + AccountedTotal(chunk.planned).down
                                    + CorrectionDelta(gen.rows, chunk.changes).down))
  {
  }

  lemma CommitFacts(gen: Generation, journal: seq<Event>, to: nat, chunk: Chunk, changes: seq<ClassChange>,
                    cutoff: Time)
    requires GenOk(gen, journal) && Sound(journal) && gen.published <= to <= |journal|
    requires chunk == Prepare(journal, gen.published, to, gen, gen, cutoff)
    requires ListsChanges(changes, chunk.changes, gen, gen, chunk.updates, cutoff)
    ensures gen.classes.Keys == gen.table.Keys
    ensures MapOf(changes) == chunk.changes && DistinctChanges(changes)
    ensures chunk.changes.Keys <= gen.table.Keys + chunk.updates.Keys
    ensures forall ch :: ch in changes ==> ch.key in gen.classes.Keys + chunk.updates.Keys
    ensures forall ch :: ch in changes ==> Consistent(gen.rows, ch)
  {
    hide Prepare, Ledger, TableOf, Items, PriorClass, Sound, RawTotal, AccountedTotal;
    ChangesAreStored(gen, journal, to, cutoff);
    ListedChangesAreMap(changes, chunk.changes, gen, gen, chunk.updates, cutoff);
    LedgerMakesConsistent(gen, journal, chunk.updates, cutoff, chunk.changes, changes);
  }
}
