/** What a journal says about connections: the events of each connection, the summary table they
    build, and the authoritative frame time of each (session, epoch) group. */
module Evidence {
  import opened Types
  import opened ConnState

  type Table = map<ConnKey, Summary>

  function KeyOf(ev: Event): ConnKey
    requires ev.body.conn.Some?
  {
    ConnKey(ev.pos.session, ev.pos.epoch, ev.body.conn.value)
  }

  predicate Concerns(ev: Event, k: ConnKey) {
    ev.body.conn.Some? && KeyOf(ev) == k
  }

  function EventsOf(evs: seq<Event>, k: ConnKey): seq<Draft> {
    if evs == [] then []
    else
      var front, ev := evs[..|evs| - 1], evs[|evs| - 1];
      if Concerns(ev, k) then EventsOf(front, k) + [ev.body] else EventsOf(front, k)
  }

  function KeysIn(evs: seq<Event>): set<ConnKey> {
    set ev | ev in evs && ev.body.conn.Some? :: KeyOf(ev)
  }

  lemma {:induction false} EventsOfConcat(a: seq<Event>, b: seq<Event>, k: ConnKey)
    ensures EventsOf(a + b, k) == EventsOf(a, k) + EventsOf(b, k)
  {
    if b == [] {
      assert a + b == a;
    } else {
      EventsOfConcat(a, b[..|b| - 1], k);
      assert (a + b)[..|a + b| - 1] == a + b[..|b| - 1];
    }
  }

  lemma {:induction false} KeysHaveEvents(evs: seq<Event>, k: ConnKey)
    ensures k in KeysIn(evs) <==> EventsOf(evs, k) != []
  {
    if evs != [] {
      KeysHaveEvents(evs[..|evs| - 1], k);
      assert evs == evs[..|evs| - 1] + [evs[|evs| - 1]];
    }
  }

  /** The legacy pass over a whole journal prefix: one summary per connection it mentions. */
  function TableOf(evs: seq<Event>): Table {
    map k | k in KeysIn(evs) && EventsOf(evs, k) != [] :: Legacy(EventsOf(evs, k))
  }

  /** `v` is what the latest event of the connection that fills the column says; empty if none does. */
  ghost predicate LatestSays<T(!new)>(journal: seq<Event>, k: ConnKey, column: Draft -> T, empty: T, v: T) {
    || (v == empty && forall ev :: ev in journal && Concerns(ev, k) ==> column(ev.body) == empty)
    || (v != empty && exists i :: SaysLast(journal, k, column, empty, i) && column(journal[i].body) == v)
  }

  ghost predicate SaysLast<T(!new)>(journal: seq<Event>, k: ConnKey, column: Draft -> T, empty: T, i: int) {
    && 0 <= i < |journal| && Concerns(journal[i], k) && column(journal[i].body) != empty
    && forall j :: i < j < |journal| && Concerns(journal[j], k) ==> column(journal[j].body) == empty
  }

  lemma {:induction false} LastFilledSays<T(!new)>(journal: seq<Event>, k: ConnKey, column: Draft -> T, empty: T)
    ensures LatestSays(journal, k, column, empty, LastFilled(EventsOf(journal, k), column, empty))
  {
    if journal != [] {
      var front, ev := journal[..|journal| - 1], journal[|journal| - 1];
      assert journal == front + [ev];
      var v := LastFilled(EventsOf(front, k), column, empty);
      LastFilledSays(front, k, column, empty);
      if Concerns(ev, k) && column(ev.body) != empty {
        assert SaysLast(journal, k, column, empty, |journal| - 1);
      } else if v != empty {
        var i :| SaysLast(front, k, column, empty, i) && column(front[i].body) == v;
        assert SaysLast(journal, k, column, empty, i);
      }
    }
  }

  /** Every fact of a connection's stored row is that of the latest event of the journal that states one. */
  lemma TableFactsAreLatest(journal: seq<Event>, k: ConnKey)
    requires k in TableOf(journal)
    ensures var facts := TableOf(journal)[k].facts;
            && LatestSays(journal, k, StatedRoute, NoRoute, facts.route)
            && LatestSays(journal, k, StatedAttr, NoAttr, facts.attr)
            && LatestSays(journal, k, StatedProcess, "", facts.process)
            && LatestSays(journal, k, StatedHost, "", facts.host)
            && LatestSays(journal, k, StatedDestIP, "", facts.destIP)
            && LatestSays(journal, k, StatedRule, "", facts.rule)
            && LatestSays(journal, k, StatedPayload, "", facts.rulePayload)
            && LatestSays(journal, k, StatedChains, [], facts.chains)
  {
    hide LastFilled, LatestSays, Legacy;
    FactsAreLatest(EventsOf(journal, k));
    LastFilledSays(journal, k, StatedRoute, NoRoute);
    LastFilledSays(journal, k, StatedAttr, NoAttr);
    LastFilledSays(journal, k, StatedProcess, "");
    LastFilledSays(journal, k, StatedHost, "");
    LastFilledSays(journal, k, StatedDestIP, "");
    LastFilledSays(journal, k, StatedRule, "");
    LastFilledSays(journal, k, StatedPayload, "");
    LastFilledSays(journal, k, StatedChains, []);
  }

  // ---------------------------------------------------------------------------------------------
  // Frame times
  // ---------------------------------------------------------------------------------------------

  predicate IsFrameEvidence(ev: Event) {
    ev.body.conn.Some? || ev.body.typ.SamplingResidual?
  }

  /** boundaryFrameTimeForGroup: the latest frame-derived evidence of the group, or the zero instant. */
  function FrameTime(evs: seq<Event>, session: SessionId, epoch: nat): Time {
    if evs == [] then ZERO_TIME
    else
      var ev := evs[|evs| - 1];
      if ev.pos.session == session && ev.pos.epoch == epoch && IsFrameEvidence(ev) then ev.body.at
      else FrameTime(evs[..|evs| - 1], session, epoch)
  }

  /** Frames of a group are observed in order. */
  predicate FrameOrdered(evs: seq<Event>) {
    evs == []
    || var front, ev := evs[..|evs| - 1], evs[|evs| - 1];
       && FrameOrdered(front)
       && (IsFrameEvidence(ev) ==> FrameTime(front, ev.pos.session, ev.pos.epoch) <= ev.body.at)
  }

  lemma {:induction false} FrameTimeNonNegative(evs: seq<Event>, session: SessionId, epoch: nat)
    requires FrameOrdered(evs)
    ensures FrameTime(evs, session, epoch) >= ZERO_TIME
  {
    if evs != [] {
      FrameTimeNonNegative(evs[..|evs| - 1], session, epoch);
    }
  }

  lemma {:induction false} EventsAreTimeOrdered(evs: seq<Event>, k: ConnKey)
    requires FrameOrdered(evs)
    ensures TimeOrdered(EventsOf(evs, k))
    ensures forall d :: d in EventsOf(evs, k) ==> d.at <= FrameTime(evs, k.session, k.epoch)
  {
    if evs != [] {
      var front, ev := evs[..|evs| - 1], evs[|evs| - 1];
      EventsAreTimeOrdered(front, k);
      FrameTimeNonNegative(front, k.session, k.epoch);
    }
  }

  lemma {:induction false} FrameTimeGrows(a: seq<Event>, b: seq<Event>, session: SessionId, epoch: nat)
    requires FrameOrdered(a + b)
    ensures FrameOrdered(a)
    ensures FrameTime(a, session, epoch) <= FrameTime(a + b, session, epoch)
  {
    if b == [] {
      assert a + b == a;
    } else {
      assert (a + b)[..|a + b| - 1] == a + b[..|b| - 1];
      FrameTimeGrows(a, b[..|b| - 1], session, epoch);
    }
  }

  /** Every stored summary lies within its group's observed time. */
  lemma SummaryWithinFrameTime(evs: seq<Event>, k: ConnKey)
    requires FrameOrdered(evs) && k in TableOf(evs)
    ensures var s := TableOf(evs)[k];
            && ZERO_TIME <= s.firstObs <= s.lastEvent <= FrameTime(evs, k.session, k.epoch)
            && (s.disappearedAt.Some? ==> s.firstObs <= s.disappearedAt.value <= s.lastEvent)
  {
    var mine := EventsOf(evs, k);
    EventsAreTimeOrdered(evs, k);
    LegacyBounds(mine);
    assert mine[|mine| - 1] in mine;
    if |mine| > 1 {
      assert mine[0].at <= mine[|mine| - 1].at;
    }
  }

  // ---------------------------------------------------------------------------------------------
  // Streaming a journal range
  // ---------------------------------------------------------------------------------------------

  type Updates = map<ConnKey, Update>

  function UpdatesOf(evs: seq<Event>): Updates {
    map k | k in KeysIn(evs) :: Aggregate(EventsOf(evs, k))
  }

  predicate IsTraffic(ev: Event) {
    ev.body.conn.Some? && (ev.body.typ.ConnectionNew? || ev.body.typ.ConnectionDelta?)
  }

  /** One raw traffic event of a range, with its journal sequence (one-based). */
  datatype TrafficItem = TrafficItem(seqno: nat, key: ConnKey, body: Draft)

  function TrafficItems(evs: seq<Event>, base: nat): seq<TrafficItem> {
    if evs == [] then []
    else
      var ev := evs[|evs| - 1];
      TrafficItems(evs[..|evs| - 1], base)
      + if IsTraffic(ev) then [TrafficItem(base + |evs|, KeyOf(ev), ev.body)] else []
  }

  lemma {:induction false} TrafficItemsConcat(a: seq<Event>, b: seq<Event>, base: nat)
    ensures TrafficItems(a + b, base) == TrafficItems(a, base) + TrafficItems(b, base + |a|)
  {
    if b == [] {
      assert a + b == a;
    } else {
      TrafficItemsConcat(a, b[..|b| - 1], base);
      assert (a + b)[..|a + b| - 1] == a + b[..|b| - 1];
    }
  }

  /** Traffic items come in journal order, lie in the range, and are the range's New and Delta events. */
  lemma {:induction false} TrafficItemsCover(evs: seq<Event>, base: nat)
    ensures forall i, j :: 0 <= i < j < |TrafficItems(evs, base)| ==>
                             TrafficItems(evs, base)[i].seqno < TrafficItems(evs, base)[j].seqno
    ensures forall it :: it in TrafficItems(evs, base) <==>
                           && base < it.seqno <= base + |evs|
                           && IsTraffic(evs[it.seqno - base - 1])
                           && it.key == KeyOf(evs[it.seqno - base - 1]) && it.body == evs[it.seqno - base - 1].body
  {
    if evs != [] {
      TrafficItemsCover(evs[..|evs| - 1], base);
    }
  }

  lemma AggregateStep(front: seq<Event>, ev: Event, k: ConnKey)
    ensures Aggregate(EventsOf(front + [ev], k))
            == if Concerns(ev, k) then MergeEvent(Aggregate(EventsOf(front, k)), ev.body)
               else Aggregate(EventsOf(front, k))
  {
    assert (front + [ev])[..|front + [ev]| - 1] == front;
    var mine := EventsOf(front, k);
    assert (mine + [ev.body])[..|mine + [ev.body]| - 1] == mine;
  }

  lemma KeysStep(front: seq<Event>, ev: Event)
    ensures KeysIn(front + [ev]) == KeysIn(front) + if ev.body.conn.Some? then {KeyOf(ev)} else {}
  {
  }

  /** `updates` aggregates exactly these events. */
  ghost predicate Aggregates(updates: Updates, evs: seq<Event>) {
    updates.Keys == KeysIn(evs) && forall k :: k in updates ==> updates[k] == Aggregate(EventsOf(evs, k))
  }

  function Merged(updates: Updates, ev: Event): Updates {
    if ev.body.conn.None? then updates
    else
      var k := KeyOf(ev);
      updates[k := MergeEvent(if k in updates then updates[k] else NO_UPDATE, ev.body)]
  }

  lemma AggregatesStep(updates: Updates, front: seq<Event>, ev: Event)
    requires Aggregates(updates, front)
    ensures Aggregates(Merged(updates, ev), front + [ev])
  {
    KeysStep(front, ev);
    forall k | k in Merged(updates, ev)
      ensures Merged(updates, ev)[k] == Aggregate(EventsOf(front + [ev], k))
    {
      AggregateStep(front, ev, k);
      KeysHaveEvents(front, k);
    }
  }

  lemma NothingAggregated()
    ensures Aggregates(map[], [])
  {
  }

  lemma AggregatesAll(updates: Updates, evs: seq<Event>)
    requires Aggregates(updates, evs)
    ensures updates == UpdatesOf(evs)
  {
  }

  lemma TrafficStep(front: seq<Event>, ev: Event, base: nat)
    ensures TrafficItems(front + [ev], base)
            == TrafficItems(front, base) + if IsTraffic(ev) then [TrafficItem(base + |front| + 1, KeyOf(ev), ev.body)]
                else []
  {
    assert (front + [ev])[..|front + [ev]| - 1] == front;
  }

  /** Stream the immutable range (from, to]: per-connection updates and the raw traffic items. */
  method StreamJournalRange(journal: seq<Event>, from: nat, to: nat)
    returns (updates: Updates, traffic: seq<TrafficItem>)
    requires from <= to <= |journal|
    ensures updates == UpdatesOf(journal[from..to])
    ensures traffic == TrafficItems(journal[from..to], from)
  {
    hide Merged, Aggregates;
    updates, traffic := map[], [];
    assert journal[from..from] == [];
    NothingAggregated();
    for i := from to to
      invariant Aggregates(updates, journal[from..i])
      invariant traffic == TrafficItems(journal[from..i], from)
    {
      var ev := journal[i];
      ghost var front := journal[from..i];
      assert journal[from..i + 1] == front + [ev];
      AggregatesStep(updates, front, ev);
      TrafficStep(front, ev, from);
      updates := Merged(updates, ev);
      if IsTraffic(ev) {
        traffic := traffic + [TrafficItem(i + 1, KeyOf(ev), ev.body)];
      }
    }
    AggregatesAll(updates, journal[from..to]);
  }

  /** Storing the updates of a range in the table of the journal before it. */
  function ApplyUpdates(table: Table, updates: Updates): Table {
    map k | k in table.Keys + updates.Keys ::
      if k !in updates then table[k]
      else if k in table then Upsert(table[k], updates[k])
      else Insert(updates[k])
  }

  /** Incremental storage of a range reproduces the legacy single pass over the longer journal. */
  lemma ApplyUpdatesExtendsTable(before: seq<Event>, range: seq<Event>)
    requires FrameOrdered(before + range)
    ensures ApplyUpdates(TableOf(before), UpdatesOf(range)) == TableOf(before + range)
  {
    hide Legacy, Aggregate, Upsert, Insert, FrameOrdered, EventsOf, KeysIn;
    var after := before + range;
    forall k ensures k in TableOf(after) <==> k in TableOf(before) || k in UpdatesOf(range) {
      KeysHaveEvents(before, k);
      KeysHaveEvents(range, k);
      KeysHaveEvents(after, k);
      EventsOfConcat(before, range, k);
    }
    forall k | k in TableOf(after) ensures ApplyUpdates(TableOf(before), UpdatesOf(range))[k] == TableOf(after)[k] {
      ApplyUpdateExtendsRow(before, range, k);
    }
  }

  lemma ApplyUpdateExtendsRow(before: seq<Event>, range: seq<Event>, k: ConnKey)
    requires FrameOrdered(before + range) && k in TableOf(before + range)
    ensures k in ApplyUpdates(TableOf(before), UpdatesOf(range))
    ensures ApplyUpdates(TableOf(before), UpdatesOf(range))[k] == TableOf(before + range)[k]
  {
    hide FrameTime, FrameOrdered, Legacy, Aggregate, Upsert, Insert, TimeOrdered;
    var earlier, chunk := EventsOf(before, k), EventsOf(range, k);
    KeysHaveEvents(before, k);
    KeysHaveEvents(range, k);
    EventsOfConcat(before, range, k);
    EventsAreTimeOrdered(before + range, k);
    if chunk == [] {
      assert earlier + chunk == earlier;
    } else if earlier == [] {
      assert earlier + chunk == chunk;
      InsertIsLegacy(chunk);
    } else {
      UpsertExtendsLegacy(earlier, chunk);
    }
  }
}
