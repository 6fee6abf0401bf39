/** Seeding a generation (accounting_v2.go): connection state and derived rows in chunks of any size,
    one classification in between, then activation. One caller at a time. */
module Seeding {
  import opened Types
  import opened Classify
  import opened Evidence
  import opened Closure
  import opened Derived
  import opened Accounting
  import opened HourlyIndex
  import opened Plan
  import opened Preparation
  import opened GenerationStore

  datatype Status = Summarising | Materialising | Active | Failed

  datatype SeedError = NegativeAccounted | AccountedExceedsRaw

  lemma EmptyTable(journal: seq<Event>)
    ensures TableOf(journal[..0]) == map[] && Items(journal, 0) == []
  {
    assert journal[..0] == [];
  }

  lemma SeedChunkExtends(journal: seq<Event>, from: nat, to: nat)
    requires Sound(journal) && from <= to <= |journal|
    ensures ApplyUpdates(TableOf(journal[..from]), UpdatesOf(journal[from..to])) == TableOf(journal[..to])
  {
    SoundPrefix(journal, to);
    SplitJournal(journal, from, to);
    ApplyUpdatesExtendsTable(journal[..from], journal[from..to]);
  }

  lemma RowChunkExtends(journal: seq<Event>, from: nat, to: nat, rows: seq<AccountedRow>, classes: ClassMap)
    requires from <= to <= |journal| && Ledger(rows, Items(journal, from), classes)
    ensures Ledger(rows + PlanRows(TrafficItems(journal[from..to], from), classes), Items(journal, to), classes)
  {
    ItemsExtend(journal, from, to);
    PlanIsLedger(TrafficItems(journal[from..to], from), classes, classes);
    LedgerConcat(rows, PlanRows(TrafficItems(journal[from..to], from), classes), Items(journal, from),
                 Nonzero(TrafficItems(journal[from..to], from)), classes);
  }

  lemma BoundaryInfosAreKeyed(table: Table, journal: seq<Event>)
    ensures Keyed(InfosOf(table, journal)) && GraphOf(InfosOf(table, journal)).roles.Keys == table.Keys
  {
  }

  class Seed {
    const boundary: nat
    const index: Index
    var status: Status
    var table: Table
    var classes: ClassMap
    var rows: seq<AccountedRow>
    var seedLast: nat
    var materializeLast: nat

    ghost predicate Valid(journal: seq<Event>)
      reads this, index
    {
      && seedLast <= boundary <= |journal| && materializeLast <= boundary && Sound(journal)
      && IndexOk(index.cells, index.seen, rows) && EstimatesCurrent(index.cells, rows)
      && table == TableOf(journal[..seedLast])
      && (status.Summarising? ==> materializeLast == 0 && rows == [])
      && (!status.Summarising? ==>
            seedLast == boundary && classes == FullClasses(journal[..boundary])
            && classes.Keys == table.Keys && Ledger(rows, Items(journal, materializeLast), classes))
    }

    constructor (boundary: nat, ghost journal: seq<Event>)
      requires boundary <= |journal| && Sound(journal)
      ensures Valid(journal) && status == Summarising && this.boundary == boundary && fresh(index)
    {
      this.boundary := boundary;
      status, table, classes, rows, seedLast, materializeLast := Summarising, map[], map[], [], 0, 0;
      index := new Index();
      new;
      EmptyTable(journal);
    }

    /** seedConnStateChunk over one frame-aligned range. */
    method SeedConnStateChunk(journal: seq<Event>, to: nat) returns (done: bool)
      requires Valid(journal) && status == Summarising && seedLast <= to <= boundary
      modifies this
      ensures Valid(journal) && status == Summarising && seedLast == to && index.cells == old(index.cells)
      ensures done <==> to == boundary
    {
      hide TableOf, UpdatesOf, Sound, IndexOk, EstimatesCurrent, FullClasses, Ledger, Items;
      if to > seedLast {
        SeedChunkExtends(journal, seedLast, to);
        var updates, _ := StreamJournalRange(journal, seedLast, to);
        var stored, _ := ApplyConnStateUpdates(table, classes, updates);
        table := stored;
        seedLast := to;
      }
      done := to >= boundary;
    }

    /** classifySeedGeneration: the shared reconciliation over the complete state. */
    method ClassifySeedGeneration(journal: seq<Event>)
      requires Valid(journal) && status == Summarising && seedLast == boundary
      modifies this
      ensures Valid(journal) && status == Materialising && materializeLast == 0
      ensures classes == FullClasses(journal[..boundary]) && table == old(table)
    {
      hide TableOf, Sound, IndexOk, EstimatesCurrent;
      EmptyTable(journal);
      BoundaryInfosAreKeyed(table, journal[..boundary]);
      classes := ClassifyByGroup(InfosOf(table, journal[..boundary]));
      status := Materialising;
    }

    /** seedMaterializeChunk: rows and hourly aggregates of one range under the frozen classes. */
    method SeedMaterializeChunk(journal: seq<Event>, to: nat) returns (done: bool)
      requires Valid(journal) && status == Materialising && materializeLast <= to <= boundary
      modifies this, index
      ensures Valid(journal) && status == Materialising && materializeLast == to
      ensures done <==> to == boundary
    {
      hide TableOf, Sound, IndexOk, EstimatesCurrent, PlanOk, FullClasses, Ledger, Items;
      if to > materializeLast {
        RowChunkExtends(journal, materializeLast, to, rows, classes);
        var _, traffic := StreamJournalRange(journal, materializeLast, to);
        var plan := BuildAccountedPlan(traffic, classes);
        ApplyAccountedPlan(index, rows, plan);
        rows := rows + plan.rows;
        materializeLast := to;
      }
      done := to >= boundary;
    }

    /** activateSeedGeneration: whatever the chunking was, the invariant checks pass and the published
        generation accounts for exactly the journal up to the seed boundary, with the full rebuild's classes. */
    method ActivateSeedGeneration(ghost journal: seq<Event>) returns (r: Result<Generation, SeedError>)
      requires Valid(journal) && status == Materialising && materializeLast == boundary
      modifies this
      ensures r.Ok? && GenOk(r.value, journal) && r.value.published == boundary
      ensures r.value.classes == FullClasses(journal[..boundary])
      ensures IndexOk(index.cells, index.seen, r.value.rows) && EstimatesCurrent(index.cells, r.value.rows)
      ensures status == Active
    {
      hide TableOf, Sound, IndexOk, EstimatesCurrent, FullClasses, Ledger, Items, RawTotal, AccountedTotal;
      var raw, accounted := RawTotal(rows), AccountedTotal(rows);
      var gen := Generation(table, classes, rows, boundary, raw, accounted);
      LedgerHasNoNegatives(gen, journal);
      LedgerInvariant(gen, journal);
      r := if !NoNegatives(rows) then Err(NegativeAccounted)
           else if !accounted.AtMost(raw) then Err(AccountedExceedsRaw)
           else Ok(gen);
      status := if r.Ok? then Active else Failed;
    }

    /** The activated seed becomes the active generation: its tables and its index carry over. */
    method OpenStore(ghost journal: seq<Event>) returns (r: Result<Store, SeedError>)
      requires Valid(journal) && status == Materialising && materializeLast == boundary
      modifies this
      ensures r.Ok? && fresh(r.value) && r.value.Valid(journal) && r.value.index == index
      ensures r.value.published == boundary && r.value.classes == FullClasses(journal[..boundary])
      ensures EstimatesCurrent(index.cells, r.value.rows) && status == Active
    {
      hide TableOf, IndexOk, EstimatesCurrent, FullClasses, GenOk, Sound;
      var gen := ActivateSeedGeneration(journal);
      var store := new Store(gen.value, index, journal);
      r := Ok(store);
    }
  }
}
