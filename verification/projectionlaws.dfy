/** What the projected tables mean, stated on the event list alone: append tables list their events,
    and a connection row carries the facts of its latest relevant events. */
module ProjectionLaws {
  import opened Types
  import opened Projector
  import EventLog

  predicate CarriesTraffic(ev: Event) {
    ev.body.typ.ConnectionNew? || ev.body.typ.ConnectionDelta?
  }

  /** The New and Delta events, in order. */
  function TrafficEvents(evs: seq<Event>): seq<Event> {
    if evs == [] then []
    else TrafficEvents(evs[..|evs| - 1]) + if CarriesTraffic(evs[|evs| - 1]) then [evs[|evs| - 1]] else []
  }

  /** The row's monitored total: what its latest New or Delta carried, zero before any. */
  function LatestMonitored(evs: seq<Event>, k: RowKey): Bytes {
    if evs == [] then NO_BYTES
    else if KeyFor(evs[|evs| - 1]) == k && CarriesTraffic(evs[|evs| - 1]) then evs[|evs| - 1].body.monitored
    else LatestMonitored(evs[..|evs| - 1], k)
  }

  predicate IntroducesRow(ev: Event, k: RowKey) {
    KeyFor(ev) == k && EventLog.Introduces(ev.body)
  }

  /** The instant of the first event that introduced the key. */
  function FirstSeen(evs: seq<Event>, k: RowKey): Option<Time> {
    if evs == [] then None
    else
      var earlier := FirstSeen(evs[..|evs| - 1], k);
      if earlier.Some? then earlier
      else if IntroducesRow(evs[|evs| - 1], k) then Some(evs[|evs| - 1].body.at)
      else None
  }

  predicate EndsObservation(ev: Event, k: RowKey) {
    (ev.body.typ.ConnectionDisappeared? && KeyFor(ev) == k) || (ev.body.typ.CounterEpochBreak? && ev.pos.epoch == k.0)
  }

  /** The key is under observation: introduced, and not ended since. Only a New reopens; a Bootstrap
      counts only when it is the first introduction. */
  function UnderObservation(evs: seq<Event>, k: RowKey): bool {
    if evs == [] then false
    else
      var front, ev := evs[..|evs| - 1], evs[|evs| - 1];
      if EndsObservation(ev, k) then false
      else if KeyFor(ev) == k && ev.body.typ.ConnectionNew? then true
      else if IntroducesRow(ev, k) && FirstSeen(front, k).None? then true
      else UnderObservation(front, k)
  }

  /** When the key was last present: its latest sighting, or the last presence its disappearance reports. */
  function LastPresence(evs: seq<Event>, k: RowKey): Time {
    if evs == [] then ZERO_TIME
    else
      var ev := evs[|evs| - 1];
      var d := ev.body;
      if KeyFor(ev) != k then LastPresence(evs[..|evs| - 1], k)
      else if d.typ.ConnectionNew? || d.typ.ConnectionBootstrap? || d.typ.ConnectionDelta?
          || d.typ.PresenceCheckpoint? then d.at
      else if d.typ.ConnectionDisappeared? && d.details.LastSeen? then d.details.at
      else LastPresence(evs[..|evs| - 1], k)
  }

  /** The counters that go with it; a Bootstrap of a known key does not refresh them. */
  function LastCounters(evs: seq<Event>, k: RowKey): Bytes {
    if evs == [] then NO_BYTES
    else
      var front, ev := evs[..|evs| - 1], evs[|evs| - 1];
      var d := ev.body;
      if KeyFor(ev) != k then LastCounters(front, k)
      else if CarriesTraffic(ev) || d.typ.PresenceCheckpoint?
          || (d.typ.ConnectionBootstrap? && FirstSeen(front, k).None?) then d.observed
      else if d.typ.ConnectionDisappeared? && d.details.LastSeen? then d.details.counters
      else LastCounters(front, k)
  }

  /** The latest attribution: from the introduction, a reopening, or a reclassification. */
  function LatestClass(evs: seq<Event>, k: RowKey): Attr {
    if evs == [] then NoAttr
    else
      var front, ev := evs[..|evs| - 1], evs[|evs| - 1];
      var d := ev.body;
      if KeyFor(ev) == k && (d.typ.ConnectionNew? || d.typ.RelayClassificationChanged?
                             || (d.typ.ConnectionBootstrap? && FirstSeen(front, k).None?)) then d.attr
      else LatestClass(front, k)
  }

  /** The laws of one key's evidence columns. */
  ghost predicate EvidenceLaws(t: Tables, evs: seq<Event>, k: RowKey) {
    k in t.rows ==>
      && t.rows[k].lastAt == LastPresence(evs, k)
      && t.rows[k].observed == LastCounters(evs, k)
      && t.rows[k].attr == LatestClass(evs, k)
  }

  /** The laws of one key. */
  ghost predicate RowLaws(t: Tables, evs: seq<Event>, k: RowKey) {
    && (k in t.rows <==> FirstSeen(evs, k).Some?)
    && (k in t.rows ==>
          && FirstSeen(evs, k) == Some(t.rows[k].firstAt)
          && t.rows[k].monitored == LatestMonitored(evs, k)
          && (t.rows[k].ended.None? <==> UnderObservation(evs, k)))
  }

  /** What one event does to the row of one key. */
  ghost predicate RowStep(rows: map<RowKey, Row>, rows': map<RowKey, Row>, ev: Event, k: RowKey) {
    && (k in rows' <==> k in rows || IntroducesRow(ev, k))
    && (k in rows' ==>
          && rows'[k].firstAt == (if k in rows then rows[k].firstAt else ev.body.at)
          && rows'[k].monitored == (if KeyFor(ev) == k && CarriesTraffic(ev) then ev.body.monitored
                                    else if k in rows then rows[k].monitored else NO_BYTES)
          && (rows'[k].ended.None? <==> if EndsObservation(ev, k) then false
                                        else if k in rows && !(KeyFor(ev) == k && ev.body.typ.ConnectionNew?)
                                            then rows[k].ended.None?
                                        else true))
  }

  lemma OwnRowIntroduced(t: Tables, ev: Event)
    requires IntroducesRow(ev, KeyFor(ev))
    ensures RowStep(t.rows, Project(t, ev).value.rows, ev, KeyFor(ev))
  {
    hide TrafficOf;
  }

  lemma OwnRowUpdated(t: Tables, ev: Event)
    requires Project(t, ev).Ok? && !IntroducesRow(ev, KeyFor(ev)) && !ev.body.typ.CounterEpochBreak?
    ensures RowStep(t.rows, Project(t, ev).value.rows, ev, KeyFor(ev))
  {
    hide TrafficOf, OpenedGap, ClosedGap, LatestOpen, ResidualOf, BootstrapRow, NewRow;
  }

  lemma BreakStep(t: Tables, ev: Event, k: RowKey)
    requires ev.body.typ.CounterEpochBreak?
    ensures RowStep(t.rows, Project(t, ev).value.rows, ev, k)
  {
  }

  lemma RowAfterEvent(t: Tables, ev: Event, k: RowKey)
    requires Project(t, ev).Ok?
    ensures RowStep(t.rows, Project(t, ev).value.rows, ev, k)
  {
    hide Project;
    if ev.body.typ.CounterEpochBreak? {
      BreakStep(t, ev, k);
    } else if k != KeyFor(ev) {
      OtherRowsStay(t, ev, k);
    } else if IntroducesRow(ev, k) {
      OwnRowIntroduced(t, ev);
    } else {
      OwnRowUpdated(t, ev);
    }
  }

  lemma OtherRowsStay(t: Tables, ev: Event, k: RowKey)
    requires Project(t, ev).Ok? && k != KeyFor(ev) && !ev.body.typ.CounterEpochBreak?
    ensures k in Project(t, ev).value.rows <==> k in t.rows
    ensures k in t.rows ==> Project(t, ev).value.rows[k] == t.rows[k]
  {
    hide TrafficOf, OpenedGap, ClosedGap, LatestOpen, ResidualOf, BootstrapRow, NewRow, AfterDelta, AfterPresence,
         AfterMetadata, AfterClass, AfterDisappeared;
  }

  lemma FoldsAfterEvent(evs: seq<Event>, ev: Event, k: RowKey)
    ensures FirstSeen(evs + [ev], k)
            == if FirstSeen(evs, k).Some? then FirstSeen(evs, k) else if IntroducesRow(ev, k) then Some(ev.body.at)
                else None
    ensures LatestMonitored(evs + [ev], k)
            == if KeyFor(ev) == k && CarriesTraffic(ev) then ev.body.monitored else LatestMonitored(evs, k)
    ensures UnderObservation(evs + [ev], k)
            == if EndsObservation(ev, k) then false
               else if KeyFor(ev) == k && ev.body.typ.ConnectionNew? then true
               else if IntroducesRow(ev, k) && FirstSeen(evs, k).None? then true
               else UnderObservation(evs, k)
  {
    assert (evs + [ev])[..|evs + [ev]| - 1] == evs;
  }

  lemma OneEventKeepsRowLaws(t: Tables, evs: seq<Event>, ev: Event, k: RowKey)
    requires RowLaws(t, evs, k) && Project(t, ev).Ok?
    requires k !in t.rows ==> LatestMonitored(evs, k) == NO_BYTES && !UnderObservation(evs, k)
    ensures RowLaws(Project(t, ev).value, evs + [ev], k)
  {
    hide Project, FirstSeen, LatestMonitored, UnderObservation;
    RowAfterEvent(t, ev, k);
    FoldsAfterEvent(evs, ev, k);
  }

  /** A key that was never introduced has no total and is not under observation. */
  lemma {:induction false} UnknownKeys(evs: seq<Event>, k: RowKey)
    requires ProjectAll(evs).Ok? && FirstSeen(evs, k).None?
    ensures LatestMonitored(evs, k) == NO_BYTES && !UnderObservation(evs, k)
    decreases |evs|, 0
  {
    hide Project;
    if evs != [] {
      var front, ev := evs[..|evs| - 1], evs[|evs| - 1];
      UnknownKeys(front, k);
      if KeyFor(ev) == k && ev.body.typ.ConnectionDelta? {
        AllRowLaws(front, k);
        DeltaNeedsRow(ProjectAll(front).value, ev);
      }
    }
  }

  lemma DeltaNeedsRow(t: Tables, ev: Event)
    requires ev.body.typ.ConnectionDelta? && Project(t, ev).Ok?
    ensures KeyFor(ev) in t.rows
  {
  }

  /** In the tables of any event list, a row exists exactly for introduced keys, keeps the first
      sighting, carries the monitored total of its latest New or Delta, and is open exactly while the key
      is under observation: after a disappearance only a New reopens it, a recovery Bootstrap does not. */
  lemma {:induction false} AllRowLaws(evs: seq<Event>, k: RowKey)
    requires ProjectAll(evs).Ok?
    ensures RowLaws(ProjectAll(evs).value, evs, k)
    decreases |evs|, 1
  {
    hide Project, RowLaws;
    if evs == [] {
      EmptyRowLaws(k);
    } else {
      var front, ev := evs[..|evs| - 1], evs[|evs| - 1];
      assert evs == front + [ev];
      AllRowLaws(front, k);
      RowLawsKeys(ProjectAll(front).value, front, k);
      if FirstSeen(front, k).None? {
        UnknownKeys(front, k);
      }
      OneEventKeepsRowLaws(ProjectAll(front).value, front, ev, k);
    }
  }

  lemma EmptyRowLaws(k: RowKey)
    ensures RowLaws(EMPTY_TABLES, [], k)
  {
  }

  lemma RowLawsKeys(t: Tables, evs: seq<Event>, k: RowKey)
    requires RowLaws(t, evs, k)
    ensures k in t.rows <==> FirstSeen(evs, k).Some?
  {
  }

  // ---------------------------------------------------------------------------------------------
  // Evidence columns
  // ---------------------------------------------------------------------------------------------

  /** What one event does to the evidence columns of one key. */
  ghost predicate EvidenceStep(rows: map<RowKey, Row>, rows': map<RowKey, Row>, ev: Event, k: RowKey) {
    var d := ev.body;
    k in rows' ==>
      if KeyFor(ev) != k then k in rows && rows'[k].lastAt == rows[k].lastAt && rows'[k].observed == rows[k].observed
          && rows'[k].attr == rows[k].attr
      else
        && (k !in rows ==> IntroducesRow(ev, k))
        && rows'[k].lastAt == (if IntroducesRow(ev, k) || d.typ.ConnectionDelta? || d.typ.PresenceCheckpoint? then d.at
                               else if d.typ.ConnectionDisappeared? && d.details.LastSeen? then d.details.at
                               else rows[k].lastAt)
        && rows'[k].observed == (if CarriesTraffic(ev) || d.typ.PresenceCheckpoint? || k !in rows then d.observed
                                 else if d.typ.ConnectionDisappeared? && d.details.LastSeen?
                                 then d.details.counters else rows[k].observed)
        && rows'[k].attr == (if d.typ.ConnectionNew? || d.typ.RelayClassificationChanged? || k !in rows then d.attr
                             else rows[k].attr)
  }

  lemma IntroducedEvidence(t: Tables, ev: Event)
    requires IntroducesRow(ev, KeyFor(ev))
    ensures EvidenceStep(t.rows, Project(t, ev).value.rows, ev, KeyFor(ev))
  {
    hide TrafficOf;
  }

  lemma UpdatedEvidence(t: Tables, ev: Event)
    requires Project(t, ev).Ok? && !IntroducesRow(ev, KeyFor(ev)) && !ev.body.typ.CounterEpochBreak?
    ensures EvidenceStep(t.rows, Project(t, ev).value.rows, ev, KeyFor(ev))
  {
    hide TrafficOf, OpenedGap, ClosedGap, LatestOpen, ResidualOf, BootstrapRow, NewRow;
  }

  lemma BreakEvidence(t: Tables, ev: Event, k: RowKey)
    requires ev.body.typ.CounterEpochBreak?
    ensures EvidenceStep(t.rows, Project(t, ev).value.rows, ev, k)
  {
  }

  lemma EvidenceAfterEvent(t: Tables, ev: Event, k: RowKey)
    requires Project(t, ev).Ok?
    ensures EvidenceStep(t.rows, Project(t, ev).value.rows, ev, k)
  {
    hide Project;
    if ev.body.typ.CounterEpochBreak? {
      BreakEvidence(t, ev, k);
    } else if k != KeyFor(ev) {
      OtherRowsStay(t, ev, k);
    } else if IntroducesRow(ev, k) {
      IntroducedEvidence(t, ev);
    } else {
      UpdatedEvidence(t, ev);
    }
  }

  /** A row's last sighting, last counters and attribution are those of the key's latest evidence; the
      last presence a disappearance reports takes the place of its own time. */
  lemma {:induction false} AllEvidenceLaws(evs: seq<Event>, k: RowKey)
    requires ProjectAll(evs).Ok?
    ensures EvidenceLaws(ProjectAll(evs).value, evs, k)
  {
    hide Project, FirstSeen;
    if evs != [] {
      var front, ev := evs[..|evs| - 1], evs[|evs| - 1];
      var t := ProjectAll(front).value;
      AllEvidenceLaws(front, k);
      AllRowLaws(front, k);
      RowLawsKeys(t, front, k);
      EvidenceAfterEvent(t, ev, k);
    }
  }

  // ---------------------------------------------------------------------------------------------
  // Descriptive columns
  // ---------------------------------------------------------------------------------------------

  /** The event begins an observation: a New always, a Bootstrap when it introduces the key. */
  predicate Begins(front: seq<Event>, ev: Event, k: RowKey) {
    KeyFor(ev) == k && (ev.body.typ.ConnectionNew? || (ev.body.typ.ConnectionBootstrap? && FirstSeen(front, k).None?))
  }

  datatype Origin = Origin(start: string, baseline: Bytes)

  /** Controller start and baseline: from the latest event that began an observation. */
  function LatestOrigin(evs: seq<Event>, k: RowKey): Origin {
    if evs == [] then Origin("", NO_BYTES)
    else
      var front, ev := evs[..|evs| - 1], evs[|evs| - 1];
      if Begins(front, ev, k) then Origin(ev.body.start, ev.body.baseline) else LatestOrigin(front, k)
  }

  datatype Description = Description(meta: Meta, route: Route)

  /** Metadata and route: from the latest event that began an observation or updated the metadata. */
  function LatestDescription(evs: seq<Event>, k: RowKey): Description {
    if evs == [] then Description(NO_META, NoRoute)
    else
      var front, ev := evs[..|evs| - 1], evs[|evs| - 1];
      if Begins(front, ev, k) || (KeyFor(ev) == k && ev.body.typ.MetadataUpdated?)
      then Description(ev.body.meta, ev.body.route)
      else LatestDescription(front, k)
  }

  /** Whether the key was there before the collector: said once, by a Bootstrap that introduces it. */
  function IntroducedAsPreexisting(evs: seq<Event>, k: RowKey): bool {
    if evs == [] then false
    else
      var front, ev := evs[..|evs| - 1], evs[|evs| - 1];
      if FirstSeen(front, k).None? && IntroducesRow(ev, k)
      then ev.body.typ.ConnectionBootstrap? && ev.body.preexisting
      else IntroducedAsPreexisting(front, k)
  }

  /** The disappearance the key has not come back from with a New. */
  function Missing(evs: seq<Event>, k: RowKey): Option<Time> {
    if evs == [] then None
    else
      var front, ev := evs[..|evs| - 1], evs[|evs| - 1];
      if KeyFor(ev) == k && ev.body.typ.ConnectionDisappeared? then Some(ev.body.at)
      else if KeyFor(ev) == k && ev.body.typ.ConnectionNew? then None
      else Missing(front, k)
  }

  /** How the observation ended: by the latest disappearance, else by the first epoch break since it began. */
  function EndedBy(evs: seq<Event>, k: RowKey): Option<Ending> {
    if evs == [] then None
    else
      var front, ev := evs[..|evs| - 1], evs[|evs| - 1];
      if KeyFor(ev) == k && ev.body.typ.ConnectionDisappeared? then
        Some(Ending(ev.body.at, DisappearedFromSnapshot, Some(ev.Id())))
      else if KeyFor(ev) == k && ev.body.typ.ConnectionNew? then None
      else if EndedBy(front, k).None? && ev.body.typ.CounterEpochBreak? && ev.pos.epoch == k.0
          && FirstSeen(front, k).Some?
        then Some(Ending(ev.body.at, EpochBoundary, Some(ev.Id())))
      else EndedBy(front, k)
  }

  /** The laws of one key's descriptive columns. */
  ghost predicate ColumnLaws(t: Tables, evs: seq<Event>, k: RowKey) {
    k in t.rows ==>
      var r := t.rows[k];
      && Origin(r.start, r.baseline) == LatestOrigin(evs, k)
      && Description(r.meta, r.route) == LatestDescription(evs, k)
      && r.preexisting == IntroducedAsPreexisting(evs, k)
      && r.disappearedAt == Missing(evs, k)
      && r.tail == Missing(evs, k).Some?
      && (r.state == if Missing(evs, k).Some? then RowDisappeared else RowActive)
      && r.ended == EndedBy(evs, k)
  }

  /** A key that has no row has had no event that a column could come from. */
  ghost predicate Untouched(evs: seq<Event>, k: RowKey) {
    FirstSeen(evs, k).None? ==> Missing(evs, k).None? && EndedBy(evs, k).None?
  }

  /** One more event about the key itself. */
  lemma ColumnFolds(evs: seq<Event>, ev: Event)
    ensures var k, d := KeyFor(ev), ev.body;
            && LatestOrigin(evs + [ev], k)
               == (if Begins(evs, ev, k) then Origin(d.start, d.baseline) else LatestOrigin(evs, k))
            && LatestDescription(evs + [ev], k)
               == (if Begins(evs, ev, k) || d.typ.MetadataUpdated? then Description(d.meta, d.route)
                   else LatestDescription(evs, k))
            && IntroducedAsPreexisting(evs + [ev], k)
               == (if FirstSeen(evs, k).None? && IntroducesRow(ev, k) then d.typ.ConnectionBootstrap? && d.preexisting
                   else IntroducedAsPreexisting(evs, k))
            && Missing(evs + [ev], k)
               == (if d.typ.ConnectionDisappeared? then Some(d.at)
                   else if d.typ.ConnectionNew? then None else Missing(evs, k))
    ensures var k, d := KeyFor(ev), ev.body;
            !d.typ.CounterEpochBreak? ==>
              EndedBy(evs + [ev], k)
              == (if d.typ.ConnectionDisappeared? then Some(Ending(d.at, DisappearedFromSnapshot, Some(ev.Id())))
                  else if d.typ.ConnectionNew? then None else EndedBy(evs, k))
  {
    hide FirstSeen;
    assert (evs + [ev])[..|evs + [ev]| - 1] == evs;
  }

  lemma ColumnsAfterIntroduction(t: Tables, evs: seq<Event>, ev: Event)
    requires var k := KeyFor(ev); RowLaws(t, evs, k) && ColumnLaws(t, evs, k) && Untouched(evs, k)
    requires Project(t, ev).Ok? && IntroducesRow(ev, KeyFor(ev))
    ensures ColumnLaws(Project(t, ev).value, evs + [ev], KeyFor(ev)) && Untouched(evs + [ev], KeyFor(ev))
  {
    hide FirstSeen, TrafficOf, LatestMonitored, UnderObservation, LatestOrigin, LatestDescription,
         IntroducedAsPreexisting, Missing, EndedBy;
    FoldsAfterEvent(evs, ev, KeyFor(ev));
    ColumnFolds(evs, ev);
  }

  lemma ColumnsAfterUpdate(t: Tables, evs: seq<Event>, ev: Event)
    requires var k := KeyFor(ev); RowLaws(t, evs, k) && ColumnLaws(t, evs, k) && Untouched(evs, k)
    requires Project(t, ev).Ok? && !IntroducesRow(ev, KeyFor(ev)) && !ev.body.typ.CounterEpochBreak?
    ensures ColumnLaws(Project(t, ev).value, evs + [ev], KeyFor(ev)) && Untouched(evs + [ev], KeyFor(ev))
  {
    hide FirstSeen, TrafficOf, OpenedGap, ClosedGap, LatestOpen, ResidualOf, LatestMonitored, UnderObservation,
         BootstrapRow, NewRow, LatestOrigin, LatestDescription, IntroducedAsPreexisting, Missing, EndedBy;
    FoldsAfterEvent(evs, ev, KeyFor(ev));
    ColumnFolds(evs, ev);
  }

  lemma ColumnsAfterOther(t: Tables, evs: seq<Event>, ev: Event, k: RowKey)
    requires ColumnLaws(t, evs, k) && Untouched(evs, k) && RowLaws(t, evs, k)
    requires Project(t, ev).Ok? && !ev.body.typ.CounterEpochBreak? && k != KeyFor(ev)
    ensures ColumnLaws(Project(t, ev).value, evs + [ev], k) && Untouched(evs + [ev], k)
  {
    hide FirstSeen, Project, LatestMonitored, UnderObservation;
    OtherRowsStay(t, ev, k);
    FoldsAfterEvent(evs, ev, k);
    assert (evs + [ev])[..|evs + [ev]| - 1] == evs;
  }

  lemma ColumnsAfterBreak(t: Tables, evs: seq<Event>, ev: Event, k: RowKey)
    requires ColumnLaws(t, evs, k) && Untouched(evs, k) && RowLaws(t, evs, k)
    requires Project(t, ev).Ok? && ev.body.typ.CounterEpochBreak?
    ensures ColumnLaws(Project(t, ev).value, evs + [ev], k) && Untouched(evs + [ev], k)
  {
    hide FirstSeen, LatestMonitored, UnderObservation;
    FoldsAfterEvent(evs, ev, k);
    assert (evs + [ev])[..|evs + [ev]| - 1] == evs;
  }

  lemma NothingYet(k: RowKey)
    ensures ColumnLaws(EMPTY_TABLES, [], k) && Untouched([], k)
  {
  }

  /** In the tables of any event list every descriptive column of a row is that of the event it should come
      from: start and baseline from the latest beginning, metadata and route from the latest beginning or
      update, the preexisting mark from the introduction, and state and ending from the latest end. */
  lemma {:induction false} AllColumnLaws(evs: seq<Event>, k: RowKey)
    requires ProjectAll(evs).Ok?
    ensures ColumnLaws(ProjectAll(evs).value, evs, k) && Untouched(evs, k)
  {
    hide Project, ColumnLaws, RowLaws, Untouched;
    if evs == [] {
      NothingYet(k);
    } else {
      var front, ev := evs[..|evs| - 1], evs[|evs| - 1];
      var t := ProjectAll(front).value;
      assert evs == front + [ev];
      AllColumnLaws(front, k);
      AllRowLaws(front, k);
      if ev.body.typ.CounterEpochBreak? {
        ColumnsAfterBreak(t, front, ev, k);
      } else if k != KeyFor(ev) {
        ColumnsAfterOther(t, front, ev, k);
      } else if IntroducesRow(ev, k) {
        ColumnsAfterIntroduction(t, front, ev);
      } else {
        ColumnsAfterUpdate(t, front, ev);
      }
    }
  }
}
