/** Per-connection summary state (accounting_v2.go, mergeEvent / applyTo / the upsert) and the
    legacy single pass it must reproduce (accounting.go, reconcileBoundedRelayRelations). */
module ConnState {
  import opened Types

  /** Last-writer facts; empty values never overwrite. */
  datatype Facts = Facts(route: Route, attr: Attr, process: string, host: string, destIP: string,
                         rule: string, rulePayload: string, chains: seq<string>)

  const NO_FACTS := Facts(NoRoute, NoAttr, "", "", "", "", "", [])

  function FactsOf(d: Draft): Facts {
    Facts(d.route, d.attr, d.meta.process, d.meta.host, d.meta.destIP, d.meta.rule, d.meta.rulePayload, d.meta.chains)
  }

  function Overlay(newer: Facts, older: Facts): Facts {
    Facts(if newer.route != NoRoute then newer.route else older.route,
          if newer.attr != NoAttr then newer.attr else older.attr,
          if newer.process != "" then newer.process else older.process,
          if newer.host != "" then newer.host else older.host,
          if newer.destIP != "" then newer.destIP else older.destIP,
          if newer.rule != "" then newer.rule else older.rule,
          if newer.rulePayload != "" then newer.rulePayload else older.rulePayload,
          if newer.chains != [] then newer.chains else older.chains)
  }

  /** The accounting_conn_state_v2 row, without its class column. */
  datatype Summary = Summary(firstObs: Time, lastEvent: Time, disappearedAt: Option<Time>, facts: Facts,
                             monitored: Bytes)

  function Traffic(d: Draft): Bytes {
    if d.delta.up > 0 || d.delta.down > 0 then d.delta else NO_BYTES
  }

  predicate Reopens(d: Draft) {
    d.typ.ConnectionNew? || d.typ.ConnectionBootstrap?
  }

  // ---------------------------------------------------------------------------------------------
  // The legacy single pass: the specification
  // ---------------------------------------------------------------------------------------------

  function LegacyFirst(d: Draft): Summary {
    Summary(d.at, d.at, None, NO_FACTS, NO_BYTES)
  }

  function LegacyStep(c: Summary, d: Draft): Summary {
    Summary(Min(d.at, c.firstObs),
            Max(c.lastEvent, d.at),
            if d.typ.ConnectionDisappeared? then Some(d.at) else if Reopens(d) then None else c.disappearedAt,
            Overlay(FactsOf(d), c.facts),
            Bytes(c.monitored.up + Traffic(d).up, c.monitored.down + Traffic(d).down))
  }

  function Legacy(evs: seq<Draft>): Summary
    requires evs != []
  {
    var d := evs[|evs| - 1];
    LegacyStep(if |evs| == 1 then LegacyFirst(d) else Legacy(evs[..|evs| - 1]), d)
  }

  // ---------------------------------------------------------------------------------------------
  // What the single pass says
  // ---------------------------------------------------------------------------------------------

  /** The last value of a column that is not empty. */
  function LastFilled<T(==)>(evs: seq<Draft>, column: Draft -> T, empty: T): T {
    if evs == [] then empty
    else if column(evs[|evs| - 1]) != empty then column(evs[|evs| - 1])
    else LastFilled(evs[..|evs| - 1], column, empty)
  }

  // The columns of an event.
  function StatedRoute(d: Draft): Route { d.route }

  function StatedAttr(d: Draft): Attr { d.attr }

  function StatedProcess(d: Draft): string { d.meta.process }

  function StatedHost(d: Draft): string { d.meta.host }

  function StatedDestIP(d: Draft): string { d.meta.destIP }

  function StatedRule(d: Draft): string { d.meta.rule }

  function StatedPayload(d: Draft): string { d.meta.rulePayload }

  function StatedChains(d: Draft): seq<string> { d.meta.chains }

  /** Every fact is that of the latest event that states one; an event that states none erases none. */
  lemma {:induction false} FactsAreLatest(evs: seq<Draft>)
    requires evs != []
    ensures var facts := Legacy(evs).facts;
            && facts.route == LastFilled(evs, StatedRoute, NoRoute)
            && facts.attr == LastFilled(evs, StatedAttr, NoAttr)
            && facts.process == LastFilled(evs, StatedProcess, "")
            && facts.host == LastFilled(evs, StatedHost, "")
            && facts.destIP == LastFilled(evs, StatedDestIP, "")
            && facts.rule == LastFilled(evs, StatedRule, "")
            && facts.rulePayload == LastFilled(evs, StatedPayload, "")
            && facts.chains == LastFilled(evs, StatedChains, [])
  {
    if |evs| > 1 {
      FactsAreLatest(evs[..|evs| - 1]);
    }
  }

  predicate Turns(d: Draft) {
    d.typ.ConnectionDisappeared? || d.typ.ConnectionNew? || d.typ.ConnectionBootstrap?
  }

  /** The latest of the events that open or end an observation. */
  predicate LastTurn(evs: seq<Draft>, i: int) {
    0 <= i < |evs| && Turns(evs[i]) && forall j :: i < j < |evs| ==> !Turns(evs[j])
  }

  /** A connection has disappeared exactly when the latest event that opened or ended an observation of it
      is a disappearance, and then at its time. */
  lemma {:induction false} DisappearanceIsLatest(evs: seq<Draft>)
    requires evs != []
    ensures forall t :: Legacy(evs).disappearedAt == Some(t)
                        <==> exists i :: LastTurn(evs, i) && evs[i].typ.ConnectionDisappeared? && evs[i].at == t
  {
    var front, d := evs[..|evs| - 1], evs[|evs| - 1];
    assert Turns(d) ==> LastTurn(evs, |evs| - 1);
    assert forall i :: LastTurn(evs, i) && Turns(d) ==> i == |evs| - 1;
    if |evs| > 1 {
      DisappearanceIsLatest(front);
      assert !Turns(d) ==> forall i :: LastTurn(evs, i) <==> LastTurn(front, i);
    }
  }

  function DeltaSum(evs: seq<Draft>): Bytes {
    if evs == [] then NO_BYTES
    else
      var front, d := DeltaSum(evs[..|evs| - 1]), evs[|evs| - 1].delta;
      Bytes(front.up + d.up, front.down + d.down)
  }

  /** The monitored total is the sum of all deltas, unless some are negative. */
  lemma {:induction false} MonitoredIsDeltaSum(evs: seq<Draft>)
    requires evs != [] && forall d :: d in evs ==> d.delta.up >= 0 && d.delta.down >= 0
    ensures Legacy(evs).monitored == DeltaSum(evs)
  {
    if |evs| > 1 {
      MonitoredIsDeltaSum(evs[..|evs| - 1]);
    } else {
      assert DeltaSum(evs[..0]) == NO_BYTES;
    }
  }

  // ---------------------------------------------------------------------------------------------
  // One chunk's aggregation and its merge into the durable row
  // ---------------------------------------------------------------------------------------------

  datatype Lifecycle = LifecycleNone | LifecycleActive | LifecycleTerminal

  datatype Update = Update(hasUpdate: bool, firstObs: Time, lastEvent: Time, disappearedAt: Option<Time>,
                           lifecycle: Lifecycle, facts: Facts, monitored: Bytes)

  const NO_UPDATE := Update(false, ZERO_TIME, ZERO_TIME, None, LifecycleNone, NO_FACTS, NO_BYTES)

  function MergeEvent(u: Update, d: Draft): Update {
    Update(true,
           if u.hasUpdate then u.firstObs else d.at,
           Max(u.lastEvent, d.at),
           if d.typ.ConnectionDisappeared? then Some(d.at) else if Reopens(d) then None else u.disappearedAt,
           if d.typ.ConnectionDisappeared? then LifecycleTerminal
           else if Reopens(d) then LifecycleActive
           else u.lifecycle,
           Overlay(FactsOf(d), u.facts),
           Bytes(u.monitored.up + Traffic(d).up, u.monitored.down + Traffic(d).down))
  }

  function Aggregate(chunk: seq<Draft>): Update {
    if chunk == [] then NO_UPDATE
    else MergeEvent(Aggregate(chunk[..|chunk| - 1]), chunk[|chunk| - 1])
  }

  /** The SQL upsert inserts a new key... */
  function Insert(u: Update): Summary {
    Summary(u.firstObs, u.lastEvent, u.disappearedAt, u.facts, u.monitored)
  }

  function MergedDisappearance(row: Summary, u: Update): Option<Time> {
    match u.lifecycle
    case LifecycleActive => None
    case LifecycleTerminal => u.disappearedAt
    case LifecycleNone => row.disappearedAt
  }

  /** ... and merges into the stored row of a known one. */
  function Upsert(row: Summary, u: Update): Summary {
    Summary(row.firstObs, u.lastEvent, MergedDisappearance(row, u), Overlay(u.facts, row.facts),
            Bytes(row.monitored.up + u.monitored.up, row.monitored.down + u.monitored.down))
  }

  /** The in-memory merge that builds the classification input of a known connection. */
  function ApplyTo(row: Summary, u: Update): Summary {
    Summary(row.firstObs, Max(row.lastEvent, u.lastEvent), MergedDisappearance(row, u), Overlay(u.facts, row.facts),
            Bytes(row.monitored.up + u.monitored.up, row.monitored.down + u.monitored.down))
  }

  // ---------------------------------------------------------------------------------------------
  // Chunking does not matter
  // ---------------------------------------------------------------------------------------------

  ghost predicate TimeOrdered(evs: seq<Draft>) {
    && (forall i :: 0 <= i < |evs| ==> evs[i].at >= ZERO_TIME)
    && (forall i, j :: 0 <= i < j < |evs| ==> evs[i].at <= evs[j].at)
  }

  lemma {:induction false} LegacyBounds(evs: seq<Draft>)
    requires evs != [] && TimeOrdered(evs)
    ensures var s := Legacy(evs);
            && s.firstObs == evs[0].at && s.lastEvent == evs[|evs| - 1].at
            && (s.disappearedAt.Some? ==> s.firstObs <= s.disappearedAt.value <= s.lastEvent)
  {
    if |evs| > 1 {
      LegacyBounds(evs[..|evs| - 1]);
    }
  }

  lemma {:induction false} AggregateBounds(chunk: seq<Draft>)
    requires chunk != [] && TimeOrdered(chunk)
    ensures var u := Aggregate(chunk);
            && u.hasUpdate && u.firstObs == chunk[0].at && u.lastEvent == chunk[|chunk| - 1].at
            && (u.disappearedAt.Some? <==> u.lifecycle == LifecycleTerminal)
            && (u.disappearedAt.Some? ==> u.firstObs <= u.disappearedAt.value <= u.lastEvent)
  {
    var front, d := chunk[..|chunk| - 1], chunk[|chunk| - 1];
    if front != [] {
      AggregateBounds(front);
      assert front[|front| - 1].at <= d.at;
    }
  }

  lemma OverlayAssociative(a: Facts, b: Facts, c: Facts)
    ensures Overlay(a, Overlay(b, c)) == Overlay(Overlay(a, b), c)
    ensures Overlay(a, NO_FACTS) == a
  {
  }

  /** Folding one more event into a chunk and then storing it is storing the chunk and then stepping. */
  lemma InsertThenStep(u: Update, d: Draft)
    requires u.hasUpdate && (u.disappearedAt.Some? <==> u.lifecycle == LifecycleTerminal)
    requires u.firstObs <= d.at && u.lastEvent <= d.at
    ensures Insert(MergeEvent(u, d)) == LegacyStep(Insert(u), d)
  {
  }

  lemma UpsertThenStep(row: Summary, u: Update, d: Draft)
    requires u.hasUpdate && u.lastEvent <= d.at && row.firstObs <= d.at
    ensures Upsert(row, MergeEvent(u, d)) == LegacyStep(Upsert(row, u), d)
  {
    OverlayAssociative(FactsOf(d), u.facts, row.facts);
  }

  lemma InsertFirst(d: Draft)
    requires d.at >= ZERO_TIME
    ensures Insert(MergeEvent(NO_UPDATE, d)) == LegacyStep(LegacyFirst(d), d)
  {
  }

  lemma UpsertFirst(row: Summary, d: Draft)
    requires d.at >= ZERO_TIME && row.firstObs <= d.at && row.lastEvent <= d.at
    ensures Upsert(row, MergeEvent(NO_UPDATE, d)) == LegacyStep(row, d)
  {
    OverlayAssociative(FactsOf(d), NO_FACTS, row.facts);
  }

  lemma TimeOrderedParts(a: seq<Draft>, b: seq<Draft>)
    requires TimeOrdered(a + b)
    ensures TimeOrdered(a) && TimeOrdered(b)
    ensures forall i, j :: 0 <= i < |a| && 0 <= j < |b| ==> a[i].at <= b[j].at
  {
    assert forall i :: 0 <= i < |a| ==> (a + b)[i] == a[i];
    assert forall i :: 0 <= i < |b| ==> (a + b)[|a| + i] == b[i];
  }

  /** The first aggregated chunk of a connection stores the single-pass row of that chunk. */
  lemma {:induction false} InsertIsLegacy(chunk: seq<Draft>)
    requires chunk != [] && TimeOrdered(chunk)
    ensures Insert(Aggregate(chunk)) == Legacy(chunk)
  {
    var front, d := chunk[..|chunk| - 1], chunk[|chunk| - 1];
    assert front + [d] == chunk;
    if front == [] {
      InsertFirst(d);
    } else {
      TimeOrderedParts(front, [d]);
      InsertIsLegacy(front);
      AggregateBounds(front);
      assert front[0].at <= [d][0].at && front[|front| - 1].at <= [d][0].at;
      InsertThenStep(Aggregate(front), d);
    }
  }

  /** What comes before the last event is no later than it. */
  lemma LastIsLatest(before: seq<Draft>, chunk: seq<Draft>)
    requires chunk != [] && TimeOrdered(before + chunk)
    ensures var d := chunk[|chunk| - 1];
            && d.at >= ZERO_TIME
            && (forall x :: x in before ==> x.at <= d.at)
            && (forall x :: x in chunk ==> x.at <= d.at)
  {
    TimeOrderedParts(before, chunk);
  }

  lemma ExtendByOne(earlier: seq<Draft>, d: Draft)
    requires earlier != [] && TimeOrdered(earlier + [d])
    ensures Upsert(Legacy(earlier), Aggregate([d])) == Legacy(earlier + [d])
  {
    hide Overlay, MergeEvent, LegacyStep, Upsert;
    assert (earlier + [d])[..|earlier|] == earlier;
    assert [d][..0] == [];
    TimeOrderedParts(earlier, [d]);
    LegacyBounds(earlier);
    LastIsLatest(earlier, [d]);
    UpsertFirst(Legacy(earlier), d);
  }

  lemma ExtendFurther(earlier: seq<Draft>, front: seq<Draft>, d: Draft)
    requires earlier != [] && front != [] && TimeOrdered(earlier + front + [d])
    requires Upsert(Legacy(earlier), Aggregate(front)) == Legacy(earlier + front)
    ensures Upsert(Legacy(earlier), Aggregate(front + [d])) == Legacy(earlier + front + [d])
  {
    hide Overlay, MergeEvent, LegacyStep, Upsert, TimeOrdered;
    assert (earlier + front + [d])[..|earlier + front|] == earlier + front;
    assert (front + [d])[..|front|] == front;
    TimeOrderedParts(earlier + front, [d]);
    TimeOrderedParts(earlier, front);
    LegacyBounds(earlier);
    AggregateBounds(front);
    LastIsLatest(earlier + front, [d]);
    assert earlier[0] in earlier + front && front[|front| - 1] in earlier + front;
    UpsertThenStep(Legacy(earlier), Aggregate(front), d);
  }

  /** Merging one aggregated chunk into the row left by the earlier events gives the single-pass row. */
  lemma {:induction false} UpsertExtendsLegacy(earlier: seq<Draft>, chunk: seq<Draft>)
    requires earlier != [] && chunk != [] && TimeOrdered(earlier + chunk)
    ensures Upsert(Legacy(earlier), Aggregate(chunk)) == Legacy(earlier + chunk)
  {
    hide Upsert, Legacy, Aggregate, TimeOrdered;
    var front, d := chunk[..|chunk| - 1], chunk[|chunk| - 1];
    assert front + [d] == chunk;
    if front == [] {
      assert chunk == [d];
      ExtendByOne(earlier, d);
    } else {
      assert earlier + chunk == earlier + front + [d];
      TimeOrderedParts(earlier + front, [d]);
      UpsertExtendsLegacy(earlier, front);
      ExtendFurther(earlier, front, d);
    }
  }

  /** The preparation phase's in-memory merge predicts exactly what the SQL upsert will store. */
  lemma ApplyToPredictsUpsert(earlier: seq<Draft>, chunk: seq<Draft>)
    requires earlier != [] && chunk != [] && TimeOrdered(earlier + chunk)
    ensures ApplyTo(Legacy(earlier), Aggregate(chunk)) == Upsert(Legacy(earlier), Aggregate(chunk))
  {
    TimeOrderedParts(earlier, chunk);
    LegacyBounds(earlier);
    AggregateBounds(chunk);
    assert earlier[|earlier| - 1].at <= chunk[|chunk| - 1].at;
  }

  /** Processed(chunks) is the stored row after processing the chunks one by one; a chunk without
      events of the connection produces no update. */
  function Processed(chunks: seq<seq<Draft>>): Option<Summary> {
    if chunks == [] then None
    else
      var before, last := Processed(chunks[..|chunks| - 1]), chunks[|chunks| - 1];
      if last == [] then before
      else match before
           case None => Some(Insert(Aggregate(last)))
           case Some(row) => Some(Upsert(row, Aggregate(last)))
  }

  function Flatten(chunks: seq<seq<Draft>>): seq<Draft> {
    if chunks == [] then [] else Flatten(chunks[..|chunks| - 1]) + chunks[|chunks| - 1]
  }

  lemma {:induction false} ChunkingDoesNotMatter(chunks: seq<seq<Draft>>)
    requires TimeOrdered(Flatten(chunks))
    ensures Processed(chunks) == if Flatten(chunks) == [] then None else Some(Legacy(Flatten(chunks)))
  {
    if chunks != [] {
      var front, last := chunks[..|chunks| - 1], chunks[|chunks| - 1];
      TimeOrderedParts(Flatten(front), last);
      ChunkingDoesNotMatter(front);
      if last == [] {
        assert Flatten(front) + last == Flatten(front);
      } else if Flatten(front) == [] {
        assert Flatten(front) + last == last;
        InsertIsLegacy(last);
      } else {
        UpsertExtendsLegacy(Flatten(front), last);
      }
    }
  }
}
