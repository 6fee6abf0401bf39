/** One incremental accounting chunk (accounting_v2.go): the read-only preparation and the commit,
    with the invariant every published generation satisfies. */
module Accounting {
  import opened Types
  import opened Matching
  import opened Classify
  import opened ConnState
  import opened Evidence
  import opened Closure
  import opened Derived

  /** The derived state of one generation, as one transaction sees it. */
  datatype Generation = Generation(table: Table, classes: ClassMap, rows: seq<AccountedRow>, published: nat,
                                   raw: Bytes, accounted: Bytes)

  /** What preparation hands to the writer transaction. */
  datatype Chunk = Chunk(updates: Updates, infos: Group, classes: ClassMap, changes: ClassMap,
                         planned: seq<AccountedRow>)

  // ---------------------------------------------------------------------------------------------
  // Preparation
  // ---------------------------------------------------------------------------------------------

  /** The second read returns the retained rows of the affected groups. */
  predicate PartnerRow(partners: Generation, updates: Updates, cutoff: Time, k: ConnKey) {
    k in partners.table && Affected(updates, k) && Retained(partners.table[k], cutoff)
  }

  /** The prior class of a closure connection: dirty rows come from the first read, partners from the second. */
  function PriorClass(dirty: Generation, partners: Generation, updates: Updates, cutoff: Time, k: ConnKey)
    : Option<AccountingClass>
  {
    if k in updates && k in dirty.table then Some(ClassFor(dirty.classes, k))
    else if PartnerRow(partners, updates, cutoff, k) then Some(ClassFor(partners.classes, k))
    else None
  }

  /** The keys to classify: every dirty connection, and the retained partners of affected groups. */
  function InputKeys(dirty: Generation, partners: Generation, updates: Updates, cutoff: Time): set<ConnKey> {
    updates.Keys + set k | k in partners.table && PartnerRow(partners, updates, cutoff, k)
  }

  /** The classification input of one connection: only a dirty row found by the first read is merged
      with the chunk's update. */
  function InputSummary(dirty: Generation, partners: Generation, updates: Updates, cutoff: Time, k: ConnKey): Summary
    requires k in InputKeys(dirty, partners, updates, cutoff)
  {
    if k in updates && k in dirty.table then ApplyTo(dirty.table[k], updates[k])
    else if PartnerRow(partners, updates, cutoff, k) then partners.table[k]
    else Insert(updates[k])
  }

  function InputOf(journal: seq<Event>, to: nat, dirty: Generation, partners: Generation, updates: Updates,
                   cutoff: Time): Group
    requires to <= |journal|
  {
    map k | k in InputKeys(dirty, partners, updates, cutoff) ::
      InfoOf(k, InputSummary(dirty, partners, updates, cutoff, k), FrameTime(journal[..to], k.session, k.epoch))
  }

  /** prepareIncrementalChunk. The two generation values are what its two table reads returned. */
  ghost function Prepare(journal: seq<Event>, from: nat, to: nat, dirty: Generation, partners: Generation,
                         cutoff: Time): Chunk
    requires from <= to <= |journal|
  {
    var updates := UpdatesOf(journal[from..to]);
    var infos := InputOf(journal, to, dirty, partners, updates, cutoff);
    var classes := GraphOf(infos).Classes();
    Chunk(updates, infos, classes,
          map k | k in classes && PriorClass(dirty, partners, updates, cutoff, k) != Some(classes[k]) :: classes[k],
          PlanRows(TrafficItems(journal[from..to], from), classes))
  }

  // ---------------------------------------------------------------------------------------------
  // Commit
  // ---------------------------------------------------------------------------------------------

  /** New connection rows start as unique until the chunk's class changes are stored. */
  function StoredClasses(gen: Generation, updates: Updates, changes: ClassMap): ClassMap {
    map k | k in gen.table.Keys + updates.Keys :: if k in changes then changes[k] else ClassFor(gen.classes, k)
  }

  function CorrectionDelta(rows: seq<AccountedRow>, changes: ClassMap): Bytes {
    Bytes(AccountedTotal(CorrectRows(rows, changes)).up - AccountedTotal(rows).up,
          AccountedTotal(CorrectRows(rows, changes)).down - AccountedTotal(rows).down)
  }

  /** The writer transaction, once the boundary recheck has passed. */
  function Commit(gen: Generation, chunk: Chunk, to: nat): Generation {
    var added, corrected := AccountedTotal(chunk.planned), CorrectionDelta(gen.rows, chunk.changes);
    Generation(ApplyUpdates(gen.table, chunk.updates),
               StoredClasses(gen, chunk.updates, chunk.changes),
               CorrectRows(gen.rows, chunk.changes) + chunk.planned,
               to,
               Bytes(gen.raw.up + RawTotal(chunk.planned).up, gen.raw.down + RawTotal(chunk.planned).down),
               Bytes(gen.accounted.up + added.up + corrected.up, gen.accounted.down + added.down + corrected.down))
  }

  /** The two errors the transaction can raise: a class change of an unknown connection, and accounted
      totals above raw totals after publishing. */
  predicate CommitSucceeds(gen: Generation, chunk: Chunk, to: nat) {
    && chunk.changes.Keys <= gen.table.Keys + chunk.updates.Keys
    && Commit(gen, chunk, to).accounted.AtMost(Commit(gen, chunk, to).raw)
  }

  // ---------------------------------------------------------------------------------------------
  // The generation invariant
  // ---------------------------------------------------------------------------------------------

  /** What accounting relies on: group frames observed in order, and no negative traffic delta. */
  ghost predicate Sound(journal: seq<Event>) {
    FrameOrdered(journal) && forall ev :: ev in journal && IsTraffic(ev) ==>
        ev.body.delta.up >= 0 && ev.body.delta.down >= 0
  }

  function Items(journal: seq<Event>, boundary: nat): seq<TrafficItem>
    requires boundary <= |journal|
  {
    Nonzero(TrafficItems(journal[..boundary], 0))
  }

  /** A generation accounts for exactly the journal up to its published boundary. */
  ghost predicate GenOk(gen: Generation, journal: seq<Event>) {
    && gen.published <= |journal|
    && gen.table == TableOf(journal[..gen.published])
    && gen.classes.Keys == gen.table.Keys
    && Ledger(gen.rows, Items(journal, gen.published), gen.classes)
    && gen.raw == RawTotal(gen.rows)
    && gen.accounted == AccountedTotal(gen.rows)
  }

  lemma SoundPrefix(journal: seq<Event>, boundary: nat)
    requires Sound(journal) && boundary <= |journal|
    ensures Sound(journal[..boundary])
  {
    assert journal == journal[..boundary] + journal[boundary..];
    FrameTimeGrows(journal[..boundary], journal[boundary..], 0, 0);
  }

  /** Appending to the journal leaves a published generation correct. */
  lemma GenOkAfterAppend(gen: Generation, journal: seq<Event>, more: seq<Event>)
    requires GenOk(gen, journal)
    ensures GenOk(gen, journal + more)
  {
    assert (journal + more)[..gen.published] == journal[..gen.published];
  }

  /** The row's source: a nonzero New or Delta event at or below the boundary (sequences are one-based). */
  predicate BooksEvent(r: AccountedRow, journal: seq<Event>, boundary: nat) {
    && 0 < r.seqno <= boundary <= |journal|
    && IsTraffic(journal[r.seqno - 1])
    && r.key == KeyOf(journal[r.seqno - 1])
    && r.raw == journal[r.seqno - 1].body.delta
    && (r.raw.up != 0 || r.raw.down != 0)
  }

  lemma RowBooksEvent(gen: Generation, journal: seq<Event>, i: nat)
    requires GenOk(gen, journal) && i < |gen.rows|
    ensures gen.rows[i].seqno == Items(journal, gen.published)[i].seqno
    ensures BooksEvent(gen.rows[i], journal, gen.published)
  {
    hide TableOf, TrafficItems, Nonzero, RawTotal, AccountedTotal;
    TrafficItemsCover(journal[..gen.published], 0);
    NonzeroMembers(TrafficItems(journal[..gen.published], 0));
    assert Items(journal, gen.published)[i] in Items(journal, gen.published);
  }

  lemma EventHasRow(gen: Generation, journal: seq<Event>, n: nat)
    requires GenOk(gen, journal) && n < gen.published && IsTraffic(journal[n]) && journal[n].body.delta != NO_BYTES
    ensures exists r :: r in gen.rows && r.seqno == n + 1
  {
    hide TableOf, TrafficItems, Nonzero, RawTotal, AccountedTotal;
    TrafficItemsCover(journal[..gen.published], 0);
    NonzeroMembers(TrafficItems(journal[..gen.published], 0));
    var it := TrafficItem(n + 1, KeyOf(journal[n]), journal[n].body);
    assert it in Items(journal, gen.published);
    var i :| 0 <= i < |gen.rows| && Items(journal, gen.published)[i] == it;
    assert gen.rows[i] in gen.rows && gen.rows[i].seqno == n + 1;
  }

  /** Exactly-once, spelled out: the rows are in one-to-one correspondence, in journal order, with the
      nonzero New and Delta events at or below the boundary. */
  lemma RowsAreExactlyTheTraffic(gen: Generation, journal: seq<Event>)
    requires GenOk(gen, journal)
    ensures forall i, j :: 0 <= i < j < |gen.rows| ==> gen.rows[i].seqno < gen.rows[j].seqno
    ensures forall r :: r in gen.rows ==> BooksEvent(r, journal, gen.published)
    ensures forall n :: 0 <= n < gen.published && IsTraffic(journal[n]) && journal[n].body.delta != NO_BYTES
                        ==> exists r :: r in gen.rows && r.seqno == n + 1
  {
    hide TableOf, TrafficItems, Nonzero, RawTotal, AccountedTotal, BooksEvent, Books;
    TrafficItemsCover(journal[..gen.published], 0);
    NonzeroOrdered(TrafficItems(journal[..gen.published], 0));
    forall i | 0 <= i < |gen.rows|
      ensures gen.rows[i].seqno == Items(journal, gen.published)[i].seqno
              && BooksEvent(gen.rows[i], journal, gen.published)
    {
      RowBooksEvent(gen, journal, i);
    }
    forall n | 0 <= n < gen.published && IsTraffic(journal[n]) && journal[n].body.delta != NO_BYTES
      ensures exists r :: r in gen.rows && r.seqno == n + 1
    {
      EventHasRow(gen, journal, n);
    }
  }

  lemma {:induction false} NonzeroOrdered(items: seq<TrafficItem>)
    requires forall i, j :: 0 <= i < j < |items| ==> items[i].seqno < items[j].seqno
    ensures forall i, j :: 0 <= i < j < |Nonzero(items)| ==> Nonzero(items)[i].seqno < Nonzero(items)[j].seqno
  {
    if items != [] {
      var front := items[..|items| - 1];
      NonzeroOrdered(front);
      NonzeroMembers(front);
      forall it | it in Nonzero(front) ensures it.seqno < items[|items| - 1].seqno {
        assert it in front;
      }
    }
  }

  /** The ledger invariant in bytes: every row accounts 0 exactly when its connection's stored class is
      confirmed duplicate and its raw bytes otherwise, and the published totals are the sums over the
      rows, so accounted never exceeds raw. */
  lemma LedgerInvariant(gen: Generation, journal: seq<Event>)
    requires GenOk(gen, journal) && Sound(journal)
    ensures forall r :: r in gen.rows ==>
                          (r.accounted == NO_BYTES <==> ClassFor(gen.classes, r.key) == ConfirmedDuplicate)
                          && (r.accounted != NO_BYTES ==> r.accounted == r.raw)
    ensures gen.accounted.AtMost(gen.raw) && gen.accounted.up >= 0 && gen.accounted.down >= 0
  {
    RowsAreExactlyTheTraffic(gen, journal);
    LedgerAccounts(gen.rows, Items(journal, gen.published), gen.classes);
    forall r | r in gen.rows ensures r.raw.up >= 0 && r.raw.down >= 0 {
      assert journal[r.seqno - 1] in journal;
    }
    AccountedWithinRaw(gen.rows);
  }

  /** No derived row carries negative accounted bytes. */
  predicate NoNegatives(rows: seq<AccountedRow>) {
    forall i :: 0 <= i < |rows| ==> rows[i].accounted.up >= 0 && rows[i].accounted.down >= 0
  }

  lemma LedgerHasNoNegatives(gen: Generation, journal: seq<Event>)
    requires GenOk(gen, journal) && Sound(journal)
    ensures NoNegatives(gen.rows)
  {
    hide Ledger, TableOf, Items, FrameOrdered, RawTotal, AccountedTotal;
    LedgerInvariant(gen, journal);
    RowsAreExactlyTheTraffic(gen, journal);
    forall i | 0 <= i < |gen.rows| ensures gen.rows[i].accounted.up >= 0 && gen.rows[i].accounted.down >= 0 {
      assert gen.rows[i] in gen.rows;
      assert journal[gen.rows[i].seqno - 1] in journal;
    }
  }

  // ---------------------------------------------------------------------------------------------
  // A chunk prepared from the generation it is committed to
  // ---------------------------------------------------------------------------------------------

  lemma SplitJournal(journal: seq<Event>, from: nat, to: nat)
    requires from <= to <= |journal|
    ensures journal[..from] + journal[from..to] == journal[..to]
  {
  }

  lemma CommitExtendsTable(gen: Generation, journal: seq<Event>, to: nat)
    requires GenOk(gen, journal) && Sound(journal) && gen.published <= to <= |journal|
    ensures ApplyUpdates(gen.table, UpdatesOf(journal[gen.published..to])) == TableOf(journal[..to])
    ensures TableOf(journal[..to]).Keys == gen.table.Keys + UpdatesOf(journal[gen.published..to]).Keys
  {
    SoundPrefix(journal, to);
    SplitJournal(journal, gen.published, to);
    ApplyUpdatesExtendsTable(journal[..gen.published], journal[gen.published..to]);
  }

  /** A chunk without torn reads decides, for every input connection, the class it stores. */
  lemma PlannedClassIsStored(gen: Generation, journal: seq<Event>, to: nat, cutoff: Time, k: ConnKey)
    requires GenOk(gen, journal) && gen.published <= to <= |journal|
    ensures var chunk := Prepare(journal, gen.published, to, gen, gen, cutoff);
            k in chunk.classes ==> ClassFor(StoredClasses(gen, chunk.updates, chunk.changes), k) == chunk.classes[k]
  {
    hide InfoOf, TableOf, UpdatesOf, Retained;
  }

  lemma ItemsHaveUpdates(journal: seq<Event>, from: nat, to: nat)
    requires from <= to <= |journal|
    ensures forall it :: it in TrafficItems(journal[from..to], from) ==> it.key in UpdatesOf(journal[from..to])
  {
    TrafficItemsCover(journal[from..to], from);
    forall it | it in TrafficItems(journal[from..to], from) ensures it.key in UpdatesOf(journal[from..to]) {
      assert journal[from..to][it.seqno - from - 1] in journal[from..to];
    }
  }

  lemma ItemsExtend(journal: seq<Event>, from: nat, to: nat)
    requires from <= to <= |journal|
    ensures Items(journal, to) == Items(journal, from) + Nonzero(TrafficItems(journal[from..to], from))
  {
    SplitJournal(journal, from, to);
    TrafficItemsConcat(journal[..from], journal[from..to], 0);
    NonzeroConcat(TrafficItems(journal[..from], 0), TrafficItems(journal[from..to], from));
  }

  lemma StoredIsOverlay(gen: Generation, updates: Updates, changes: ClassMap, k: ConnKey)
    requires gen.classes.Keys == gen.table.Keys && changes.Keys <= gen.table.Keys + updates.Keys
    ensures ClassFor(StoredClasses(gen, updates, changes), k) == ClassFor(gen.classes + changes, k)
  {
  }

  lemma LedgerDependsOnClassesOnly(rows: seq<AccountedRow>, items: seq<TrafficItem>, a: ClassMap, b: ClassMap)
    requires Ledger(rows, items, a) && forall it :: it in items ==> ClassFor(a, it.key) == ClassFor(b, it.key)
    ensures Ledger(rows, items, b)
  {
    forall i | 0 <= i < |rows| ensures Books(rows[i], items[i], b) {
      assert items[i] in items;
    }
  }

  lemma ChangesAreStored(gen: Generation, journal: seq<Event>, to: nat, cutoff: Time)
    requires gen.published <= to <= |journal|
    ensures var chunk := Prepare(journal, gen.published, to, gen, gen, cutoff);
            && chunk.updates == UpdatesOf(journal[gen.published..to])
            && chunk.changes.Keys <= gen.table.Keys + chunk.updates.Keys
            && chunk.changes.Keys <= chunk.classes.Keys
            && chunk.classes.Keys == InputKeys(gen, gen, chunk.updates, cutoff)
            && chunk.planned == PlanRows(TrafficItems(journal[gen.published..to], gen.published), chunk.classes)
  {
    hide InfoOf, TableOf, UpdatesOf, Retained;
  }

  lemma CommitKeepsLedger(gen: Generation, journal: seq<Event>, to: nat, chunk: Chunk, cutoff: Time)
    requires GenOk(gen, journal) && gen.published <= to <= |journal|
    requires chunk == Prepare(journal, gen.published, to, gen, gen, cutoff)
    ensures Ledger(Commit(gen, chunk, to).rows, Items(journal, to), Commit(gen, chunk, to).classes)
  {
    hide Prepare, Books, TableOf, UpdatesOf, CorrectionDelta, Retained;
    var stored := StoredClasses(gen, chunk.updates, chunk.changes);
    var before, items := Items(journal, gen.published), TrafficItems(journal[gen.published..to], gen.published);
    ChangesAreStored(gen, journal, to, cutoff);
    NonzeroMembers(TrafficItems(journal[..gen.published], 0));
    CorrectionKeepsLedger(gen.rows, before, gen.classes, chunk.changes);
    forall it | it in before ensures ClassFor(gen.classes + chunk.changes, it.key) == ClassFor(stored, it.key) {
      StoredIsOverlay(gen, chunk.updates, chunk.changes, it.key);
    }
    LedgerDependsOnClassesOnly(CorrectRows(gen.rows, chunk.changes), before, gen.classes + chunk.changes, stored);
    ItemsHaveUpdates(journal, gen.published, to);
    forall it | it in items ensures ClassFor(chunk.classes, it.key) == ClassFor(stored, it.key) {
      PlannedClassIsStored(gen, journal, to, cutoff, it.key);
    }
    PlanIsLedger(items, chunk.classes, stored);
    ItemsExtend(journal, gen.published, to);
    LedgerConcat(CorrectRows(gen.rows, chunk.changes), chunk.planned, before, Nonzero(items), stored);
  }

  /** Committing a chunk that was prepared from this generation publishes the longer journal. */
  lemma CommitKeepsGenOk(gen: Generation, journal: seq<Event>, to: nat, cutoff: Time)
    requires GenOk(gen, journal) && Sound(journal) && gen.published <= to <= |journal|
    ensures var chunk := Prepare(journal, gen.published, to, gen, gen, cutoff);
            GenOk(Commit(gen, chunk, to), journal) && CommitSucceeds(gen, chunk, to)
  {
    hide Prepare, Ledger, TableOf, UpdatesOf, Items, Retained, FrameOrdered;
    var chunk := Prepare(journal, gen.published, to, gen, gen, cutoff);
    ChangesAreStored(gen, journal, to, cutoff);
    CommitExtendsTable(gen, journal, to);
    CommitKeepsLedger(gen, journal, to, chunk, cutoff);
    TotalsConcat(CorrectRows(gen.rows, chunk.changes), chunk.planned);
    CorrectionKeepsRaw(gen.rows, chunk.changes);
    LedgerInvariant(Commit(gen, chunk, to), journal);
  }

  // ---------------------------------------------------------------------------------------------
  // The classes a commit stores
  // ---------------------------------------------------------------------------------------------

  lemma GraphOfPart(g: Group, h: Group, part: set<ConnKey>)
    requires h.Keys == g.Keys * part && forall k :: k in h ==> h[k] == g[k]
    ensures GraphOf(h) == Restrict(GraphOf(g), part)
  {
    hide Edge, RoleOf;
    var a, b := GraphOf(h), Restrict(GraphOf(g), part);
    forall e: (ConnKey, ConnKey) ensures e in a.edges <==> e in b.edges {
      EdgeMember(h, e.0, e.1);
      EdgeMember(g, e.0, e.1);
    }
    assert a.edges == b.edges;
    assert a.roles == b.roles;
  }

  lemma InputIsBoundaryRow(gen: Generation, journal: seq<Event>, to: nat, cutoff: Time, k: ConnKey)
    requires GenOk(gen, journal) && Sound(journal) && gen.published <= to <= |journal|
    requires k in InputKeys(gen, gen, UpdatesOf(journal[gen.published..to]), cutoff)
    ensures k in TableOf(journal[..to])
    ensures InputSummary(gen, gen, UpdatesOf(journal[gen.published..to]), cutoff, k) == TableOf(journal[..to])[k]
  {
    var before, range := journal[..gen.published], journal[gen.published..to];
    CommitExtendsTable(gen, journal, to);
    if k in UpdatesOf(range) && k in gen.table {
      SoundPrefix(journal, to);
      SplitJournal(journal, gen.published, to);
      MergeIsUpsert(before, range, k);
    }
  }

  lemma MergeIsUpsert(before: seq<Event>, range: seq<Event>, k: ConnKey)
    requires FrameOrdered(before + range) && k in TableOf(before) && k in UpdatesOf(range)
    ensures ApplyTo(TableOf(before)[k], UpdatesOf(range)[k]) == Upsert(TableOf(before)[k], UpdatesOf(range)[k])
  {
    hide ApplyTo, Upsert, Legacy, Aggregate, TimeOrdered;
    KeysHaveEvents(range, k);
    EventsOfConcat(before, range, k);
    EventsAreTimeOrdered(before + range, k);
    ApplyToPredictsUpsert(EventsOf(before, k), EventsOf(range, k));
  }

  /** The classification input of an untorn chunk is the boundary table, restricted to the closure. */
  lemma InputIsClosureOfBoundary(gen: Generation, journal: seq<Event>, to: nat, cutoff: Time)
    requires GenOk(gen, journal) && Sound(journal) && gen.published <= to <= |journal|
    ensures var updates := UpdatesOf(journal[gen.published..to]);
            var closure := ClosureKeys(gen.table, updates, cutoff);
            var boundary := InfosOf(TableOf(journal[..to]), journal[..to]);
            && closure <= boundary.Keys
            && GraphOf(InputOf(journal, to, gen, gen, updates, cutoff)) == Restrict(GraphOf(boundary), closure)
  {
    hide GenOk, Sound, InfoOf, TableOf, UpdatesOf, Retained, Affected, InputSummary, FrameTime;
    var updates := UpdatesOf(journal[gen.published..to]);
    var closure := ClosureKeys(gen.table, updates, cutoff);
    var boundary := InfosOf(TableOf(journal[..to]), journal[..to]);
    var infos := InputOf(journal, to, gen, gen, updates, cutoff);
    assert infos.Keys == closure;
    forall k | k in closure ensures k in boundary && infos[k] == boundary[k] {
      InputIsBoundaryRow(gen, journal, to, cutoff, k);
    }
    GraphOfPart(boundary, infos, closure);
  }

  lemma StoredOutsideInput(gen: Generation, journal: seq<Event>, to: nat, cutoff: Time, k: ConnKey)
    requires gen.published <= to <= |journal| && k in gen.table && k in gen.classes
    requires k !in ClosureKeys(gen.table, UpdatesOf(journal[gen.published..to]), cutoff)
    ensures var chunk := Prepare(journal, gen.published, to, gen, gen, cutoff);
            k in StoredClasses(gen, chunk.updates, chunk.changes)
            && StoredClasses(gen, chunk.updates, chunk.changes)[k] == gen.classes[k]
  {
    hide InfoOf, TableOf, UpdatesOf, Retained;
  }

  lemma ClosureClasses(gen: Generation, journal: seq<Event>, to: nat, cutoff: Time)
    requires GenOk(gen, journal) && Sound(journal) && gen.published <= to <= |journal|
    ensures var updates := UpdatesOf(journal[gen.published..to]);
            var boundary := InfosOf(TableOf(journal[..to]), journal[..to]);
            && ClosureKeys(gen.table, updates, cutoff) <= boundary.Keys
            && Prepare(journal, gen.published, to, gen, gen, cutoff).classes
               == Restrict(GraphOf(boundary), ClosureKeys(gen.table, updates, cutoff)).Classes()
  {
    hide GenOk, Sound, InfoOf, TableOf, UpdatesOf, Retained, Affected, InputOf, GraphOf;
    InputIsClosureOfBoundary(gen, journal, to, cutoff);
  }

  lemma CommitStores(gen: Generation, chunk: Chunk, to: nat)
    ensures Commit(gen, chunk, to).classes == StoredClasses(gen, chunk.updates, chunk.changes)
    ensures StoredClasses(gen, chunk.updates, chunk.changes).Keys == gen.table.Keys + chunk.updates.Keys
  {
  }

  lemma DecidedInsideKeptOutside(stored: ClassMap, before: ClassMap, g: Graph<ConnKey>, closure: set<ConnKey>)
    requires g.roles.Keys <= before.Keys + closure && stored.Keys == g.roles.Keys
    requires forall k :: k in g.roles ==>
               stored[k] == if k in closure then Restrict(g, closure).ClassOf(k) else before[k]
    ensures stored == StoredAfter(before, g, closure)
  {
  }

  /** A commit stores the classes decided inside the dirty closure and keeps the others. */
  lemma CommitStoresClosureClasses(gen: Generation, journal: seq<Event>, to: nat, cutoff: Time)
    requires GenOk(gen, journal) && Sound(journal) && gen.published <= to <= |journal|
    ensures var updates := UpdatesOf(journal[gen.published..to]);
            var boundary := InfosOf(TableOf(journal[..to]), journal[..to]);
            var chunk := Prepare(journal, gen.published, to, gen, gen, cutoff);
            && GraphOf(boundary).roles.Keys <= gen.classes.Keys + ClosureKeys(gen.table, updates, cutoff)
            && Commit(gen, chunk, to).classes
               == StoredAfter(gen.classes, GraphOf(boundary), ClosureKeys(gen.table, updates, cutoff))
  {
    hide GenOk, Sound, InfoOf, TableOf, UpdatesOf, Retained, Affected, InputOf, GraphOf, Prepare, Commit, StoredClasses,
         StoredAfter;
    var updates := UpdatesOf(journal[gen.published..to]);
    var closure := ClosureKeys(gen.table, updates, cutoff);
    var boundary := InfosOf(TableOf(journal[..to]), journal[..to]);
    var chunk := Prepare(journal, gen.published, to, gen, gen, cutoff);
    ClassesCoverTable(gen, journal, to);
    ChangesAreStored(gen, journal, to, cutoff);
    ClosureClasses(gen, journal, to, cutoff);
    RolesAreKeys(boundary);
    CommitStores(gen, chunk, to);
    var stored := StoredClasses(gen, updates, chunk.changes);
    forall k | k in boundary
      ensures stored[k] == if k in closure then Restrict(GraphOf(boundary), closure).ClassOf(k) else gen.classes[k]
    {
      if k in closure {
        PlannedClassIsStored(gen, journal, to, cutoff, k);
      } else {
        StoredOutsideInput(gen, journal, to, cutoff, k);
      }
    }
    DecidedInsideKeptOutside(stored, gen.classes, GraphOf(boundary), closure);
  }

  lemma ClassesCoverTable(gen: Generation, journal: seq<Event>, to: nat)
    requires GenOk(gen, journal) && Sound(journal) && gen.published <= to <= |journal|
    ensures gen.classes.Keys == gen.table.Keys
    ensures TableOf(journal[..to]).Keys == gen.table.Keys + UpdatesOf(journal[gen.published..to]).Keys
  {
    CommitExtendsTable(gen, journal, to);
  }

  lemma RolesAreKeys(g: Group)
    ensures GraphOf(g).roles.Keys == g.Keys
  {
  }

  /** The exact border condition of one chunk. */
  ghost predicate HarmlessChunk(gen: Generation, journal: seq<Event>, to: nat, cutoff: Time)
    requires gen.published <= to <= |journal|
  {
    var updates := UpdatesOf(journal[gen.published..to]);
    updates == map[]
    || ChunkHarmless(GraphOf(InfosOf(TableOf(journal[..gen.published]), journal[..gen.published])),
                     GraphOf(InfosOf(TableOf(journal[..to]), journal[..to])), ClosureKeys(gen.table, updates, cutoff))
  }

  /** A sufficient one: no match edge crosses the border. */
  ghost predicate BorderClear(gen: Generation, journal: seq<Event>, to: nat, cutoff: Time)
    requires gen.published <= to <= |journal|
  {
    var updates := UpdatesOf(journal[gen.published..to]);
    updates == map[]
    || NoBorderEdge(GraphOf(InfosOf(TableOf(journal[..to]), journal[..to])), ClosureKeys(gen.table, updates, cutoff))
  }

  /** If the stored classes were the full rebuild's, they still are after the chunk exactly when the
      chunk is harmless. */
  lemma CommitKeepsFullClassesIff(gen: Generation, journal: seq<Event>, to: nat, cutoff: Time)
    requires GenOk(gen, journal) && Sound(journal) && gen.published <= to <= |journal|
    requires gen.classes == FullClasses(journal[..gen.published])
    requires CutoffOk(gen.table, UpdatesOf(journal[gen.published..to]), cutoff)
    ensures Commit(gen, Prepare(journal, gen.published, to, gen, gen, cutoff), to).classes == FullClasses(journal[..to])
            <==> HarmlessChunk(gen, journal, to, cutoff)
  {
    hide InfoOf, TableOf, UpdatesOf, Retained, Affected, InputOf, FrameTime, GraphOf, CorrectionDelta, Prepare, Commit;
    hide IsCutoff, Ledger, ChunkHarmless;
    var before, range := journal[..gen.published], journal[gen.published..to];
    SoundPrefix(journal, to);
    SplitJournal(journal, gen.published, to);
    CommitStoresClosureClasses(gen, journal, to, cutoff);
    if UpdatesOf(range) == map[] {
      QuietRangeKeepsClasses(before, range);
      NoUpdatesNoClosure(gen.table, UpdatesOf(range), cutoff);
      RolesAreKeys(InfosOf(TableOf(journal[..to]), journal[..to]));
      RolesAreKeys(InfosOf(TableOf(before), before));
      ClassesCoverTable(gen, journal, to);
      assert Commit(gen, Prepare(journal, gen.published, to, gen, gen, cutoff), to).classes == gen.classes;
    } else {
      IncrementalEqualsFullIff(before, range, cutoff);
    }
  }

  /** A clear border does no harm. */
  lemma ClearBorderIsHarmless(gen: Generation, journal: seq<Event>, to: nat, cutoff: Time)
    requires GenOk(gen, journal) && Sound(journal) && gen.published <= to <= |journal|
    requires CutoffOk(gen.table, UpdatesOf(journal[gen.published..to]), cutoff) && BorderClear(gen, journal, to, cutoff)
    ensures HarmlessChunk(gen, journal, to, cutoff)
  {
    hide InfoOf, TableOf, UpdatesOf, Retained, Affected, FrameTime, GraphOf, IsCutoff, Ledger, ChunkHarmless;
    var before, range := journal[..gen.published], journal[gen.published..to];
    SoundPrefix(journal, to);
    SplitJournal(journal, gen.published, to);
    if UpdatesOf(range) != map[] {
      IncrementalEqualsFull(before, range, cutoff);
      IncrementalEqualsFullIff(before, range, cutoff);
    }
  }

  lemma NoUpdatesNoClosure(table: Table, updates: Updates, cutoff: Time)
    requires updates == map[]
    ensures ClosureKeys(table, updates, cutoff) == {}
  {
    assert forall k :: !Affected(updates, k);
  }
}
