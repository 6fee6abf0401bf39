/** What the usage queries answer, stated on the journal: the bytes of the traffic events themselves, by the names
    and routes they carry, except those of confirmed duplicates. */
module Statement {
  import opened Types
  import opened Matching
  import opened Evidence
  import opened Derived
  import opened Accounting
  import opened Allocator
  import opened Hourly
  import opened HourlyIndex
  import opened Windows

  /** The name an event carries for a dimension. Direct traffic has one proxy and no group. */
  function NameIn(d: Draft, kind: DimKind): string {
    match kind
    case TotalDim => "total"
    case ProcessDim => d.meta.process
    case HostDim => d.meta.host
    case DestIPDim => d.meta.destIP
    case RuleDim => d.meta.rule
    case RulePayloadDim => d.meta.rulePayload
    case NetworkDim => d.meta.network
    case FinalProxyDim => if d.route == Direct then "DIRECT" else if d.meta.chains == [] then "" else d.meta.chains[0]
    case TopGroupDim =>
      if d.route == Direct || d.meta.chains == [] then "" else d.meta.chains[|d.meta.chains| - 1]
  }

  /** A usage query: one dimension entry and route over a window. */
  datatype Query = Query(dim: Dim, route: Route, from: Time, to: Time)

  predicate Belongs(d: Draft, dim: Dim, route: Route) {
    && dim.name != "" && dim.name == NameIn(d, dim.kind)
    && route == if d.route == NoRoute then Unknown else d.route
  }

  /** What one traffic event of a connection brings to a window. */
  function EventShare(d: Draft, k: ConnKey, classes: ClassMap, q: Query): Bytes {
    if (k in classes && classes[k] == ConfirmedDuplicate) || !Belongs(d, q.dim, q.route) then NO_BYTES
    else DirectShare(d.at, d.interval, d.precision == ExactSnapshot, d.delta, q.from, q.to)
  }

  function JournalTotal(evs: seq<Event>, classes: ClassMap, q: Query): Bytes {
    if evs == [] then NO_BYTES
    else
      var front, ev := JournalTotal(evs[..|evs| - 1], classes, q), evs[|evs| - 1];
      if ev.body.conn.Some? && (ev.body.typ == ConnectionNew || ev.body.typ == ConnectionDelta) then
        var share := EventShare(ev.body, KeyOf(ev), classes, q);
        Bytes(front.up + share.up, front.down + share.down)
      else front
  }

  function ItemsTotal(items: seq<TrafficItem>, classes: ClassMap, q: Query): Bytes {
    if items == [] then NO_BYTES
    else
      var front, it := ItemsTotal(items[..|items| - 1], classes, q), items[|items| - 1];
      var share := EventShare(it.body, it.key, classes, q);
      Bytes(front.up + share.up, front.down + share.down)
  }

  lemma ItemsStep(items: seq<TrafficItem>, it: TrafficItem, classes: ClassMap, q: Query)
    ensures var front, share := ItemsTotal(items, classes, q), EventShare(it.body, it.key, classes, q);
            ItemsTotal(items + [it], classes, q) == Bytes(front.up + share.up, front.down + share.down)
  {
    hide EventShare;
    assert (items + [it])[..|items|] == items;
  }

  lemma JournalStep(front: seq<Event>, ev: Event, classes: ClassMap, q: Query)
    ensures var before := JournalTotal(front, classes, q);
            JournalTotal(front + [ev], classes, q)
            == if !IsTraffic(ev) then before
               else var share := EventShare(ev.body, KeyOf(ev), classes, q);
                    Bytes(before.up + share.up, before.down + share.down)
    ensures TrafficItems(front + [ev], 0)
            == TrafficItems(front, 0) + if IsTraffic(ev) then [TrafficItem(|front| + 1, KeyOf(ev), ev.body)] else []
  {
    hide EventShare;
    assert (front + [ev])[..|front + [ev]| - 1] == front;
  }

  lemma {:induction false} JournalIsItems(evs: seq<Event>, classes: ClassMap, q: Query)
    ensures JournalTotal(evs, classes, q)
            == ItemsTotal(TrafficItems(evs, 0), classes, q)
  {
    hide EventShare, JournalTotal, ItemsTotal, TrafficItems;
    if evs == [] {
      NoEvents(classes, q);
    } else {
      var front, ev := evs[..|evs| - 1], evs[|evs| - 1];
      assert evs == front + [ev];
      JournalIsItems(front, classes, q);
      JournalStep(front, ev, classes, q);
      if IsTraffic(ev) {
        ItemsStep(TrafficItems(front, 0), TrafficItem(|front| + 1, KeyOf(ev), ev.body), classes, q);
      } else {
        assert TrafficItems(evs, 0) == TrafficItems(front, 0);
      }
    }
  }

  lemma NoEvents(classes: ClassMap, q: Query)
    ensures JournalTotal([], classes, q) == NO_BYTES && ItemsTotal(TrafficItems([], 0), classes, q) == NO_BYTES
  {
  }

  lemma NothingSharesNothing(d: Draft, k: ConnKey, classes: ClassMap, q: Query)
    requires d.delta == NO_BYTES
    ensures EventShare(d, k, classes, q) == NO_BYTES
  {
    hide NameIn;
    if d.interval.Some? {
      var a := IntervalAllocator(d.interval.value.start, d.interval.value.end, 0);
      NegativeTotalAllocatesNothing(a, Max(a.start, q.from), Min(a.end, q.to));
    }
  }

  lemma {:induction false} NonzeroIsAll(items: seq<TrafficItem>, classes: ClassMap, q: Query)
    ensures ItemsTotal(Nonzero(items), classes, q)
            == ItemsTotal(items, classes, q)
  {
    hide EventShare, ItemsTotal;
    if items != [] {
      var front, it := items[..|items| - 1], items[|items| - 1];
      assert items == front + [it];
      NonzeroIsAll(front, classes, q);
      ItemsStep(front, it, classes, q);
      if HasBytes(it) {
        ItemsStep(Nonzero(front), it, classes, q);
      } else {
        NothingSharesNothing(it.body, it.key, classes, q);
        assert Nonzero(items) == Nonzero(front);
      }
    }
  }

  /** A booked row answers for its event. */
  lemma RowAnswers(r: AccountedRow, it: TrafficItem, classes: ClassMap, q: Query)
    requires Books(r, it, classes)
    ensures DirectRow(r, q.dim, q.route, q.from, q.to) == EventShare(it.body, it.key, classes, q)
  {
    hide DirectShare;
    RowBelongs(r, it, q.dim, q.route);
    if r.decided == ConfirmedDuplicate {
      RowOfNothing(r, q);
    }
  }

  lemma RowBelongs(r: AccountedRow, it: TrafficItem, dim: Dim, route: Route)
    requires r == BuildRecord(it, r.decided)
    ensures r.route == route && Carries(r.names, dim) <==> Belongs(it.body, dim, route)
  {
  }

  lemma RowOfNothing(r: AccountedRow, q: Query)
    requires r.accounted == NO_BYTES
    ensures DirectRow(r, q.dim, q.route, q.from, q.to) == NO_BYTES
  {
    hide Carries;
    if r.interval.Some? {
      var a := IntervalAllocator(r.interval.value.start, r.interval.value.end, 0);
      NegativeTotalAllocatesNothing(a, Max(a.start, q.from), Min(a.end, q.to));
    }
  }

  lemma {:induction false} RowsAnswer(rows: seq<AccountedRow>, items: seq<TrafficItem>, classes: ClassMap, q: Query)
    requires Ledger(rows, items, classes)
    ensures DirectTotal(rows, q.dim, q.route, q.from, q.to) == ItemsTotal(items, classes, q)
  {
    hide Books, EventShare, DirectRow;
    if rows != [] {
      RowsAnswer(rows[..|rows| - 1], items[..|items| - 1], classes, q);
      RowAnswers(rows[|rows| - 1], items[|items| - 1], classes, q);
    }
  }

  /** The direct scan of every published generation answers, for every window, dimension and route, with the sum
      over the journal's own traffic events up to the boundary, confirmed duplicates left out. */
  lemma ScanStatesJournal(gen: Generation, journal: seq<Event>, q: Query)
    requires GenOk(gen, journal)
    ensures DirectTotal(gen.rows, q.dim, q.route, q.from, q.to)
            == JournalTotal(journal[..gen.published], gen.classes, q)
  {
    hide Ledger;
    var items := TrafficItems(journal[..gen.published], 0);
    RowsAnswer(gen.rows, Nonzero(items), gen.classes, q);
    NonzeroIsAll(items, gen.classes, q);
    JournalIsItems(journal[..gen.published], gen.classes, q);
  }

  /** So does the hourly index for aligned windows, exactly where it answers for the scan. */
  lemma IndexStatesJournal(gen: Generation, journal: seq<Event>, cells: Cells, q: Query, up: bool)
    requires GenOk(gen, journal) && AnswersForScan(cells, gen.rows) && HourAligned(q.from) && HourAligned(q.to)
    ensures HourlyTotal(cells, q.dim, q.route, q.from, q.to, up)
            == Amount(JournalTotal(journal[..gen.published], gen.classes, q), up)
  {
    hide GenOk, HourlyTotal, JournalTotal, DirectTotal;
    ScanStatesJournal(gen, journal, q);
  }

  /** Over a window that contains it, a traffic event counts in full: nothing is lost or counted twice. */
  lemma WholeEventCounts(d: Draft, k: ConnKey, classes: ClassMap, q: Query)
    requires d.delta.up >= 0 && d.delta.down >= 0 && q.from <= d.at < q.to && Belongs(d, q.dim, q.route)
    requires d.interval.Some? ==> q.from <= d.interval.value.start < d.interval.value.end <= q.to
    ensures EventShare(d, k, classes, q)
            == if k in classes && classes[k] == ConfirmedDuplicate then NO_BYTES else d.delta
  {
    if d.interval.Some? {
      var iv := d.interval.value;
      AllocateIgnoresOutside(IntervalAllocator(iv.start, iv.end, d.delta.up), q.from, q.to);
      AllocateIgnoresOutside(IntervalAllocator(iv.start, iv.end, d.delta.down), q.from, q.to);
    }
  }

  // ---------------------------------------------------------------------------------------------
  // Connection counts
  // ---------------------------------------------------------------------------------------------

  /** The row meets the hour: it was observed in it or, if spread, its interval overlaps it. */
  predicate MeetsHour(r: AccountedRow, bucket: Time) {
    if !r.exact && r.interval.Some? && r.interval.value.start < r.interval.value.end
    then Max(bucket, r.interval.value.start) < Min(bucket + HOUR, r.interval.value.end)
    else bucket <= r.at < bucket + HOUR
  }

  lemma ProjectsIff(r: AccountedRow, key: AggKey)
    requires HourAligned(key.bucket)
    ensures ProjectsTo(r, key) <==> r.route == key.route && Carries(r.names, key.dim) && MeetsHour(r, key.bucket)
  {
    hide Carries;
    var allocs := AllocationsFor(r, NO_BYTES);
    if Spread(r) {
      var iv := r.interval.value;
      SpreadIsProportional(r.at, iv, NO_BYTES);
      assert MeetsHour(r, key.bucket) <==> Overlap(key.bucket, iv) > 0;
    } else {
      assert allocs == [allocs[0]] && allocs[0].bucket == Bucket(r.at);
      BucketBounds(r.at);
      if key.bucket <= r.at < key.bucket + HOUR {
        SameHour(key.bucket, r.at);
      }
    }
  }

  /** The connections that carried accounted bytes in an hour under a name and route. */
  ghost function ConnectionsOf(rows: seq<AccountedRow>, key: AggKey): set<ConnKey> {
    set r | r in rows && r.accounted != NO_BYTES && r.route == key.route && Carries(r.names, key.dim)
            && MeetsHour(r, key.bucket) :: r.key
  }

  /** Every cell of an index in step with the rows counts exactly those connections. */
  lemma CellsCountConnections(cells: Cells, seen: Seen, rows: seq<AccountedRow>, key: AggKey)
    requires IndexOk(cells, seen, rows) && HourAligned(key.bucket)
    ensures CellAt(cells, key).count == |ConnectionsOf(rows, key)|
  {
    hide BytesOk, Carries, MeetsHour, ProjectsTo, Seers;
    forall r | r in rows
      ensures ProjectsTo(r, key) <==> r.route == key.route && Carries(r.names, key.dim) && MeetsHour(r, key.bucket)
    {
      ProjectsIff(r, key);
    }
    assert Seers(seen, key) == ConnectionsOf(rows, key) by { SeersAreConnections(seen, rows, key); }
  }

  lemma SeersAreConnections(seen: Seen, rows: seq<AccountedRow>, key: AggKey)
    requires SeenOk(seen, rows)
    requires forall r :: r in rows ==>
               (ProjectsTo(r, key) <==> r.route == key.route && Carries(r.names, key.dim) && MeetsHour(r, key.bucket))
    ensures Seers(seen, key) == ConnectionsOf(rows, key)
  {
    hide Carries, MeetsHour, ProjectsTo;
    forall c ensures c in Seers(seen, key) <==> c in ConnectionsOf(rows, key) {
      if c in Seers(seen, key) {
        var p :| p in seen && p.0 == key && p.1 == c;
        assert (key, c) in seen;
        var r :| r in rows && Contributes(r, c, key);
      }
      if c in ConnectionsOf(rows, key) {
        var r :| r in rows && r.accounted != NO_BYTES && ProjectsTo(r, key) && r.key == c;
        assert Contributes(r, c, key);
        assert (key, c) in seen;
      }
    }
  }
}
