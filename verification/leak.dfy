/** A commit after which the hourly index overcounts: two literal journals, the generation that accounts
    for the first, and the chunk that accounts for the second. */
module Leak {
  import opened Types
  import opened Matching
  import opened Classify
  import opened ConnState
  import opened Evidence
  import opened Closure
  import opened Derived
  import opened Accounting
  import opened Allocator
  import opened Hourly
  import opened HourlyIndex
  import opened Plan
  import opened Correction
  import opened GenerationStore
  import opened Windows

  const LEAK_DIM := Dim(TotalDim, "total")

  const LATER := HOUR + 20

  /** A relay candidate opens and, after a monitoring gap, reports the whole gap's traffic as one Delta. */
  function RelayOpens(): Event {
    ExampleEvent(1, 1, ConnectionNew, 10, 1, RELAY_META, RelayCandidate, NO_BYTES)
  }

  function RelayAfterGap(): Event {
    var ev := ExampleEvent(2, 1, ConnectionDelta, HOUR, 1, RELAY_META, RelayCandidate, Bytes(9000, 9000));
    ev.(body := ev.body.(interval := Some(Interval(10, HOUR)), precision := IntervalOnly))
  }

  /** Then the application connection it relays for is seen with the same bytes. */
  function AppOpens(): Event {
    ExampleEvent(3, 1, ConnectionNew, LATER, 2, APP_META, KnownApplication, Bytes(9000, 9000))
  }

  function LeakBefore(): seq<Event> {
    [RelayOpens(), RelayAfterGap()]
  }

  function LeakJournal(): seq<Event> {
    [RelayOpens(), RelayAfterGap(), AppOpens()]
  }

  function RelayRow(): AccountedRow {
    BuildRecord(TrafficItem(2, ExampleKey(1), RelayAfterGap().body), MissingAttribution)
  }

  function AppRow(): AccountedRow {
    BuildRecord(TrafficItem(3, ExampleKey(2), AppOpens().body), Unique)
  }

  function RelayTable(): Table {
    map[ExampleKey(1) := Summary(10, HOUR, None, RELAY_FACTS, Bytes(9000, 9000))]
  }

  /** The generation seeded from the first journal. */
  function LeakGen(): Generation {
    Generation(RelayTable(), map[ExampleKey(1) := MissingAttribution], [RelayRow()], 2, Bytes(9000, 9000),
               Bytes(9000, 9000))
  }

  // ---------------------------------------------------------------------------------------------
  // The generation accounts for the first journal
  // ---------------------------------------------------------------------------------------------

  lemma LeakPrefixes()
    ensures LeakJournal()[..2] == LeakBefore() && LeakBefore()[..1] == [RelayOpens()] && LeakBefore()[..1][..0] == []
    ensures LeakJournal()[2..3] == [AppOpens()] && [AppOpens()][..0] == []
    ensures LeakJournal()[..3] == LeakJournal() && LeakBefore() + [AppOpens()] == LeakJournal()
  {
  }

  lemma LeakFrames()
    ensures Sound(LeakJournal())
    ensures FrameTime(LeakBefore(), 1, 1) == HOUR && FrameTime(LeakJournal(), 1, 1) == LATER
  {
    LeakPrefixes();
    assert FrameTime([], 1, 1) == 0;
    assert FrameTime(LeakBefore()[..1], 1, 1) == 10;
    assert FrameOrdered(LeakBefore()[..1]);
    assert FrameOrdered(LeakBefore());
  }

  lemma LeakEventsOf(k: ConnKey)
    ensures EventsOf(LeakBefore(), k) == if k == ExampleKey(1) then [RelayOpens().body, RelayAfterGap().body] else []
    ensures EventsOf([AppOpens()], k) == if k == ExampleKey(2) then [AppOpens().body] else []
  {
    LeakPrefixes();
    assert EventsOf([], k) == [];
    assert EventsOf(LeakBefore()[..1], k) == if k == ExampleKey(1) then [RelayOpens().body] else [];
  }

  function AppUpdates(): Updates {
    map[ExampleKey(2) := Update(true, LATER, LATER, None, LifecycleActive, APP_FACTS, Bytes(9000, 9000))]
  }

  lemma LeakSummaries()
    ensures Legacy([RelayOpens().body, RelayAfterGap().body]) == RelayTable()[ExampleKey(1)]
    ensures Aggregate([AppOpens().body]) == AppUpdates()[ExampleKey(2)]
  {
    var opens, moves := RelayOpens().body, RelayAfterGap().body;
    assert [opens, moves][..1] == [opens];
    assert Legacy([opens]) == Summary(10, 10, None, RELAY_FACTS, NO_BYTES);
    assert [AppOpens().body][..0] == [];
  }

  lemma LeakTables()
    ensures TableOf(LeakBefore()) == RelayTable() && UpdatesOf([AppOpens()]) == AppUpdates()
  {
    hide Legacy, Aggregate, KeysIn, EventsOf, LeakBefore, RelayOpens, RelayAfterGap, AppOpens;
    forall k
      ensures k in TableOf(LeakBefore()) <==> k in RelayTable()
      ensures k in UpdatesOf([AppOpens()]) <==> k in AppUpdates()
    {
      LeakEventsOf(k);
      KeysHaveEvents(LeakBefore(), k);
      KeysHaveEvents([AppOpens()], k);
    }
    LeakSummaries();
    LeakEventsOf(ExampleKey(1));
    LeakEventsOf(ExampleKey(2));
  }

  lemma LeakTraffic()
    ensures TrafficItems(LeakBefore(), 0) == [TrafficItem(1, ExampleKey(1), RelayOpens().body),
                                              TrafficItem(2, ExampleKey(1), RelayAfterGap().body)]
    ensures TrafficItems([AppOpens()], 2) == [TrafficItem(3, ExampleKey(2), AppOpens().body)]
  {
    hide TrafficItems, ExampleEvent;
    assert TrafficItems([], 0) == [] && TrafficItems([], 2) == [] by { NoTraffic(); }
    LeakEventsAreTraffic();
    TrafficStep([], RelayOpens(), 0);
    TrafficStep([RelayOpens()], RelayAfterGap(), 0);
    TrafficStep([], AppOpens(), 2);
    assert [] + [RelayOpens()] == [RelayOpens()] && [] + [AppOpens()] == [AppOpens()];
    assert LeakBefore() == [RelayOpens()] + [RelayAfterGap()];
  }

  lemma NoTraffic()
    ensures TrafficItems([], 0) == [] && TrafficItems([], 2) == []
  {
  }

  lemma LeakEventsAreTraffic()
    ensures IsTraffic(RelayOpens()) && KeyOf(RelayOpens()) == ExampleKey(1)
    ensures IsTraffic(RelayAfterGap()) && KeyOf(RelayAfterGap()) == ExampleKey(1)
    ensures IsTraffic(AppOpens()) && KeyOf(AppOpens()) == ExampleKey(2)
  {
  }

  lemma LeakItems()
    ensures Items(LeakJournal(), 2) == [TrafficItem(2, ExampleKey(1), RelayAfterGap().body)]
    ensures TrafficItems(LeakJournal()[2..3], 2) == [TrafficItem(3, ExampleKey(2), AppOpens().body)]
  {
    hide TrafficItems;
    LeakPrefixes();
    LeakTraffic();
    var opens, moves := TrafficItem(1, ExampleKey(1), RelayOpens().body),
        TrafficItem(2, ExampleKey(1), RelayAfterGap().body);
    assert [opens, moves][..1] == [opens] && [opens][..0] == [];
    assert Nonzero([opens]) == [];
  }

  lemma RecordKeeps(it: TrafficItem, c: AccountingClass)
    ensures BuildRecord(it, c).decided == c && BuildRecord(it, c).raw == it.body.delta
    ensures BuildRecord(it, c).accounted == AccountedBytes(c, it.body.delta)
  {
  }

  lemma LeakLedger()
    ensures Ledger([RelayRow()], [TrafficItem(2, ExampleKey(1), RelayAfterGap().body)], LeakGen().classes)
  {
    hide BuildRecord, RelayAfterGap;
    RecordKeeps(TrafficItem(2, ExampleKey(1), RelayAfterGap().body), MissingAttribution);
  }

  lemma LeakTotals()
    ensures RawTotal([RelayRow()]) == Bytes(9000, 9000) && AccountedTotal([RelayRow()]) == Bytes(9000, 9000)
  {
    hide BuildRecord;
    RecordKeeps(TrafficItem(2, ExampleKey(1), RelayAfterGap().body), MissingAttribution);
    assert [RelayRow()][..0] == [];
  }

  lemma LeakGenOk()
    ensures GenOk(LeakGen(), LeakJournal())
  {
    hide TableOf, Items, Ledger, RawTotal, AccountedTotal, RelayRow, RelayAfterGap;
    LeakPrefixes();
    LeakTables();
    LeakItems();
    LeakLedger();
    LeakTotals();
  }

  // ---------------------------------------------------------------------------------------------
  // What the chunk decides
  // ---------------------------------------------------------------------------------------------

  function BoundaryInfos(): Group {
    map[ExampleKey(1) := ExampleRelay(1, 10, LATER), ExampleKey(2) := ExampleApp(LATER, LATER)]
  }

  lemma LeakInfos()
    ensures InfosOf(TableOf(LeakJournal()[..3]), LeakJournal()[..3]) == BoundaryInfos()
  {
    hide FrameTime, FrameOrdered, TableOf, UpdatesOf;
    LeakFrames();
    LeakTables();
    LeakPrefixes();
    ApplyUpdatesExtendsTable(LeakBefore(), [AppOpens()]);
  }

  lemma LeakClosure()
    ensures IsCutoff(RelayTable(), AppUpdates(), LATER)
    ensures ClosureKeys(RelayTable(), AppUpdates(), LATER) == {ExampleKey(1), ExampleKey(2)}
    ensures Affected(AppUpdates(), ExampleKey(1))
  {
    assert FirstObsOf(RelayTable(), AppUpdates(), ExampleKey(2)) == LATER;
    assert Affected(AppUpdates(), ExampleKey(1));
  }

  ghost function LeakChunk(): Chunk {
    Prepare(LeakJournal(), 2, 3, LeakGen(), LeakGen(), LATER)
  }

  lemma BoundaryGraph()
    ensures StarGraph(GraphOf(BoundaryInfos()), {ExampleKey(1)})
  {
    hide ExampleRelay, ExampleApp, RoleOf, Edge, GraphOf, StarGraph;
    ExampleMatches(1, 10, LATER, LATER, LATER);
    ExampleRoles(1, 10, LATER, LATER, LATER);
    StarOf(BoundaryInfos(), {ExampleKey(1)});
  }

  lemma WholeRestriction(g: Graph<ConnKey>)
    requires g.Valid() && g.roles.Keys == {ExampleKey(1), ExampleKey(2)}
    ensures Restrict(g, {ExampleKey(1), ExampleKey(2)}) == g
  {
  }

  /** The relay is confirmed as a duplicate of the application connection, which is unique. */
  lemma LeakClasses()
    ensures LeakChunk().classes == map[ExampleKey(1) := ConfirmedDuplicate, ExampleKey(2) := Unique]
  {
    hide GenOk, Sound, InfosOf, TableOf, UpdatesOf, ClosureKeys, IsCutoff, GraphOf, StarGraph, Prepare, BoundaryInfos;
    var one, two := ExampleKey(1), ExampleKey(2);
    LeakGenOk();
    LeakFrames();
    LeakTables();
    LeakInfos();
    LeakClosure();
    LeakPrefixes();
    ClosureClasses(LeakGen(), LeakJournal(), 3, LATER);
    BoundaryGraph();
    var g := GraphOf(BoundaryInfos());
    StarKeys(g, {one});
    StarClasses(g, {one}, one);
    StarApp(g, {one});
    WholeRestriction(g);
  }

  lemma StarApp(g: Graph<ConnKey>, relays: set<ConnKey>)
    requires StarGraph(g, relays)
    ensures g.Valid() && ExampleKey(2) in g.roles && g.ClassOf(ExampleKey(2)) == Unique
  {
  }

  lemma LeakChanges()
    ensures ExampleKey(1) in LeakChunk().changes && LeakChunk().changes[ExampleKey(1)] == ConfirmedDuplicate
    ensures LeakChunk().planned == [AppRow()]
  {
    LeakClasses();
    LeakTables();
    LeakPrefixes();
    LeakPrior();
    LeakPlanned();
  }

  lemma LeakPrior()
    ensures PriorClass(LeakGen(), LeakGen(), UpdatesOf(LeakJournal()[2..3]), LATER, ExampleKey(1))
            == Some(MissingAttribution)
  {
    hide TableOf, UpdatesOf;
    LeakTables();
    LeakPrefixes();
    LeakClosure();
  }

  lemma LeakPlanned()
    ensures LeakChunk().planned == [AppRow()]
  {
    LeakClasses();
    LeakItems();
    hide Prepare, TrafficItems;
    PlannedIs(LeakGen(), LeakJournal(), 2, 3, LATER);
    assert [TrafficItem(3, ExampleKey(2), AppOpens().body)][..0] == [];
  }

  lemma PlannedIs(gen: Generation, journal: seq<Event>, from: nat, to: nat, cutoff: Time)
    requires from <= to <= |journal|
    ensures var chunk := Prepare(journal, from, to, gen, gen, cutoff);
            chunk.planned == PlanRows(TrafficItems(journal[from..to], from), chunk.classes)
            && (forall k :: k in chunk.changes <==>
                              k in chunk.classes
                              && PriorClass(gen, gen, UpdatesOf(journal[from..to]), cutoff, k)
                                 != Some(chunk.classes[k]))
            && (forall k :: k in chunk.changes ==> chunk.changes[k] == chunk.classes[k])
  {
    hide InfoOf, TrafficItems, UpdatesOf, PriorClass;
  }

  // ---------------------------------------------------------------------------------------------
  // The hour after the commit
  // ---------------------------------------------------------------------------------------------

  /** The row after its connection became a confirmed duplicate. */
  function DuplicateRow(): AccountedRow {
    RelayRow().(accounted := NO_BYTES, decided := ConfirmedDuplicate)
  }

  lemma LeakRows()
    ensures CorrectRow(RelayRow(), LeakChunk().changes) == DuplicateRow() && TakesBack(RelayRow(), DuplicateRow())
    ensures Commit(LeakGen(), LeakChunk(), 3).rows == [DuplicateRow(), AppRow()]
  {
    hide LeakChunk;
    LeakChanges();
  }

  /** The gap's bytes all lie in the first hour. */
  lemma RelayShare(key: AggKey)
    requires key.route == Proxy && key.dim == LEAK_DIM
    ensures RowShare(RelayRow(), Bytes(9000, 9000), key, false)
            == if key.bucket == 0 then Bytes(9000, 9000) else NO_BYTES
  {
    var iv, b := Interval(10, HOUR), Bytes(9000, 9000);
    RowShareIsAllocSum(RelayRow(), b, key, false);
    assert BucketEnd(10, HOUR) == HOUR && Bucket(10) == 0;
    assert SharesFrom(iv, b, HOUR) == [];
    assert ShareAt(iv, b, 10) == Allocation(0, b, false);
    assert AllocationsFor(RelayRow(), b) == [ShareAt(iv, b, 10)];
    assert [ShareAt(iv, b, 10)][..0] == [];
  }

  lemma RelayProjects()
    ensures ProjectsTo(DuplicateRow(), AggKey(0, LEAK_DIM, Proxy))
  {
    var iv := Interval(10, HOUR);
    assert Bucket(10) == 0;
    assert ShareAt(iv, NO_BYTES, 10) in SharesFrom(iv, NO_BYTES, 10);
  }

  lemma HourScan()
    ensures DirectTotal([DuplicateRow(), AppRow()], LEAK_DIM, Proxy, 0, HOUR) == NO_BYTES
    ensures UnscannedTotal([DuplicateRow(), AppRow()], LEAK_DIM, Proxy, 0, HOUR) == NO_BYTES
  {
    var rows := [DuplicateRow(), AppRow()];
    assert rows[..1] == [DuplicateRow()] && rows[..1][..0] == [];
    assert DirectRow(DuplicateRow(), LEAK_DIM, Proxy, 0, HOUR) == NO_BYTES;
    assert DirectRow(AppRow(), LEAK_DIM, Proxy, 0, HOUR) == NO_BYTES;
    assert UnscannedRow(DuplicateRow(), LEAK_DIM, Proxy, 0, HOUR) == NO_BYTES;
    assert UnscannedRow(AppRow(), LEAK_DIM, Proxy, 0, HOUR) == NO_BYTES;
    assert DirectTotal(rows[..1], LEAK_DIM, Proxy, 0, HOUR) == NO_BYTES;
    assert UnscannedTotal(rows[..1], LEAK_DIM, Proxy, 0, HOUR) == NO_BYTES;
  }

  lemma HourTaken(key: AggKey)
    requires key.route == Proxy && key.dim == LEAK_DIM
    ensures TakenBack([RelayRow()], LeakChunk().changes, key) == if key.bucket == 0 then Bytes(9000, 9000) else NO_BYTES
  {
    hide RowShare, LeakChunk, CorrectRow;
    LeakRows();
    RelayShare(key);
    assert [RelayRow()][..0] == [];
  }

  /** The stale bytes of the hour after the commit, whatever exact index stood beside the generation. */
  lemma HourStale(cells: Cells, cells': Cells, seen': Seen, key: AggKey)
    requires EstimatesCurrent(cells, [RelayRow()])
    requires IndexFollows(LeakGen(), LeakChunk(), 3, cells, cells', seen')
    requires key.route == Proxy && key.dim == LEAK_DIM
    ensures StaleAt(cells', [DuplicateRow(), AppRow()], key) == if key.bucket == 0 then Bytes(9000, 9000) else NO_BYTES
  {
    hide IndexOk, EstimatesCurrent, StaleAt, TakenBack, LeakChunk, Commit, RelayRow, DuplicateRow, AppRow;
    LeakRows();
    HourTaken(key);
    CurrentIsNotStale(cells, [RelayRow()]);
    assert StaleGrows(cells, [RelayRow()], cells', [DuplicateRow(), AppRow()], key,
                      TakenBack([RelayRow()], LeakChunk().changes, key));
  }

  /** The generation accounts for the first journal with the full rebuild's class, its chunk confirms the relay
      as a duplicate, and every exact index that follows the commit reports 9000 bytes for an hour in which
      the direct scan then finds none. */
  lemma LeakOvercounts(cells: Cells, seen: Seen, cells': Cells, seen': Seen)
    requires IndexOk(cells, seen, LeakGen().rows) && EstimatesCurrent(cells, LeakGen().rows)
    requires IndexFollows(LeakGen(), LeakChunk(), 3, cells, cells', seen')
    ensures GenOk(LeakGen(), LeakJournal()) && Sound(LeakJournal())
    ensures CutoffOk(LeakGen().table, UpdatesOf(LeakJournal()[2..3]), LATER)
    ensures DirectTotal(Commit(LeakGen(), LeakChunk(), 3).rows, LEAK_DIM, Proxy, 0, HOUR) == NO_BYTES
    ensures HourlyTotal(cells', LEAK_DIM, Proxy, 0, HOUR, true) == 9000
  {
    hide GenOk, Sound, EstimatesCurrent, IndexFollows, LeakChunk, Commit, DuplicateRow, AppRow, HourlyTotal,
         DirectTotal, UpdatesOf, IsCutoff, IndexOk;
    LeakGenOk();
    LeakFrames();
    LeakTables();
    LeakPrefixes();
    LeakClosure();
    LeakRows();
    HourScan();
    HourCounts(cells, cells', seen');
  }

  lemma HourSum(cells: Cells, rows: seq<AccountedRow>)
    requires HourCells(cells) && AggKey(0, LEAK_DIM, Proxy) in cells
    requires forall key: AggKey :: key.route == Proxy && key.dim == LEAK_DIM ==>
                             StaleAt(cells, rows, key) == if key.bucket == 0 then Bytes(9000, 9000) else NO_BYTES
    ensures Sum(StaleWeight(cells, rows, true), WindowKeys(cells, LEAK_DIM, Proxy, 0, HOUR)) == 9000
  {
    hide StaleAt, HourCells, StaleWeight;
    var keys, p := WindowKeys(cells, LEAK_DIM, Proxy, 0, HOUR), AggKey(0, LEAK_DIM, Proxy);
    forall key | key in keys ensures StaleWeight(cells, rows, true)(key) == if key == p then 9000 else 0 {
      StaleWeightIs(cells, rows, key);
      HourHasOneCell(cells, key);
    }
    SumPoint(StaleWeight(cells, rows, true), keys, p);
  }

  lemma HourCounts(cells: Cells, cells': Cells, seen': Seen)
    requires EstimatesCurrent(cells, LeakGen().rows) && IndexFollows(LeakGen(), LeakChunk(), 3, cells, cells', seen')
    ensures HourlyTotal(cells', LEAK_DIM, Proxy, 0, HOUR, true) == 9000
  {
    hide EstimatesCurrent, StaleAt, StaleBy, LeakChunk, Commit, RelayRow, DuplicateRow, AppRow, BytesOk, ProjectsTo,
         HourlyTotal, DirectTotal, UnscannedTotal, CountsOk, SeenOk, HourCells, StaleWeight, WindowKeys;
    LeakRows();
    HourScan();
    RelayProjects();
    RowsStayNonNegative();
    var rows := [DuplicateRow(), AppRow()];
    assert DuplicateRow() in rows;
    HourlyIsScanPlus(cells', rows, LEAK_DIM, Proxy, 0, HOUR, true);
    forall key: AggKey | key.route == Proxy && key.dim == LEAK_DIM
      ensures StaleAt(cells', rows, key) == if key.bucket == 0 then Bytes(9000, 9000) else NO_BYTES
    {
      HourStale(cells, cells', seen', key);
    }
    HourSum(cells', rows);
  }

  lemma StaleWeightIs(cells: Cells, rows: seq<AccountedRow>, key: AggKey)
    ensures StaleWeight(cells, rows, true)(key) == StaleAt(cells, rows, key).up
  {
    hide RowsShare;
  }

  lemma HourHasOneCell(cells: Cells, key: AggKey)
    requires HourCells(cells) && key in WindowKeys(cells, LEAK_DIM, Proxy, 0, HOUR)
    ensures key == AggKey(0, LEAK_DIM, Proxy)
  {
  }

  lemma RowsStayNonNegative()
    ensures forall r :: r in [DuplicateRow(), AppRow()] ==> NonNegative(r.accounted)
  {
  }
}
