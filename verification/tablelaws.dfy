/** What the append-only tables mean, stated on the event list alone: each lists the events of its kind. */
module TableLaws {
  import opened Types
  import opened Projector
  import opened ProjectionLaws
  import opened EventLog
  import Engine

  /** The events of one type, in order. */
  function OfType(evs: seq<Event>, typ: EventType): seq<Event> {
    if evs == [] then []
    else OfType(evs[..|evs| - 1], typ) + if evs[|evs| - 1].body.typ == typ then [evs[|evs| - 1]] else []
  }

  // ---------------------------------------------------------------------------------------------
  // Traffic, residuals and health
  // ---------------------------------------------------------------------------------------------

  predicate ShowsTraffic(r: TrafficRow, ev: Event) {
    && r.id == ev.Id() && r.at == ev.body.at && r.interval == ev.body.interval && r.precision == ev.body.precision
    && r.delta == ev.body.delta && r.observed == ev.body.observed && r.monitored == ev.body.monitored
  }

  /** A residual row repeats the amounts its event reports, zero if it reports none. */
  predicate ShowsResidual(r: ResidualRow, ev: Event) {
    && r.id == ev.Id() && r.at == ev.body.at
    && (ev.body.details.Residual? ==>
          && r.global == ev.body.details.global && r.unique == ev.body.details.unique
          && r.residual == ev.body.details.residual)
    && (!ev.body.details.Residual? ==> r.global == NO_BYTES && r.unique == NO_BYTES && r.residual == NO_BYTES)
  }

  predicate ShowsHealth(r: HealthRow, ev: Event) {
    r.id == ev.Id() && r.at == ev.body.at && r.conn == ev.body.conn && r.details == ev.body.details
  }

  lemma TrafficTableListsTrafficStep(t: Tables, ev: Event)
    requires Project(t, ev).Ok?
    ensures var rows := Project(t, ev).value.traffic;
            if CarriesTraffic(ev) then |rows| == |t.traffic| + 1 && rows[..|t.traffic|] == t.traffic
                && ShowsTraffic(rows[|t.traffic|], ev)
            else rows == t.traffic
  {
    hide BootstrapRow, NewRow, AfterDelta, AfterPresence, AfterMetadata, AfterClass, AfterDisappeared, CloseEpoch,
         LatestOpen, OpenedGap, ClosedGap, ResidualOf;
  }

  /** The traffic table lists exactly the New and Delta events, in order, with their own bytes: presence
      checkpoints and metadata never become traffic. */
  lemma {:induction false} TrafficTableListsTraffic(evs: seq<Event>)
    requires ProjectAll(evs).Ok?
    ensures |ProjectAll(evs).value.traffic| == |TrafficEvents(evs)|
    ensures forall i :: 0 <= i < |TrafficEvents(evs)| ==>
              ShowsTraffic(ProjectAll(evs).value.traffic[i], TrafficEvents(evs)[i])
  {
    hide Project, ShowsTraffic;
    if evs != [] {
      TrafficTableListsTraffic(evs[..|evs| - 1]);
      TrafficTableListsTrafficStep(ProjectAll(evs[..|evs| - 1]).value, evs[|evs| - 1]);
    }
  }

  lemma ResidualTableListsResidualsStep(t: Tables, ev: Event)
    requires Project(t, ev).Ok?
    ensures var rows := Project(t, ev).value.residuals;
            if ev.body.typ.SamplingResidual? then |rows| == |t.residuals| + 1 && rows[..|t.residuals|] == t.residuals
                && ShowsResidual(rows[|t.residuals|], ev)
            else rows == t.residuals
  {
    hide BootstrapRow, NewRow, AfterDelta, AfterPresence, AfterMetadata, AfterClass, AfterDisappeared, CloseEpoch,
         LatestOpen, OpenedGap, ClosedGap, TrafficOf;
  }

  /** The residual table lists exactly the sampling residuals, with the amounts they report. */
  lemma {:induction false} ResidualTableListsResiduals(evs: seq<Event>)
    requires ProjectAll(evs).Ok?
    ensures |ProjectAll(evs).value.residuals| == |OfType(evs, SamplingResidual)|
    ensures forall i :: 0 <= i < |OfType(evs, SamplingResidual)| ==>
              ShowsResidual(ProjectAll(evs).value.residuals[i], OfType(evs, SamplingResidual)[i])
  {
    hide Project, ShowsResidual;
    if evs != [] {
      ResidualTableListsResiduals(evs[..|evs| - 1]);
      ResidualTableListsResidualsStep(ProjectAll(evs[..|evs| - 1]).value, evs[|evs| - 1]);
    }
  }

  lemma HealthTableListsHealthStep(t: Tables, ev: Event)
    requires Project(t, ev).Ok?
    ensures var rows := Project(t, ev).value.health;
            if ev.body.typ.CollectorHealth? then |rows| == |t.health| + 1 && rows[..|t.health|] == t.health
                && ShowsHealth(rows[|t.health|], ev)
            else rows == t.health
  {
    hide BootstrapRow, NewRow, AfterDelta, AfterPresence, AfterMetadata, AfterClass, AfterDisappeared, CloseEpoch,
         LatestOpen, OpenedGap, ClosedGap, TrafficOf, ResidualOf;
  }

  /** The health table lists exactly the health events. */
  lemma {:induction false} HealthTableListsHealth(evs: seq<Event>)
    requires ProjectAll(evs).Ok?
    ensures |ProjectAll(evs).value.health| == |OfType(evs, CollectorHealth)|
    ensures forall i :: 0 <= i < |OfType(evs, CollectorHealth)| ==>
              ShowsHealth(ProjectAll(evs).value.health[i], OfType(evs, CollectorHealth)[i])
  {
    hide Project, ShowsHealth;
    if evs != [] {
      HealthTableListsHealth(evs[..|evs| - 1]);
      HealthTableListsHealthStep(ProjectAll(evs[..|evs| - 1]).value, evs[|evs| - 1]);
    }
  }

  // ---------------------------------------------------------------------------------------------
  // Gaps
  // ---------------------------------------------------------------------------------------------

  /** Gaps open and close in turn. */
  predicate InTurn(evs: seq<Event>) {
    evs == []
    || var front, ev := evs[..|evs| - 1], evs[|evs| - 1];
       && InTurn(front)
       && (ev.body.typ.MonitoringGapOpened? ==>
             |OfType(front, MonitoringGapOpened)| == |OfType(front, MonitoringGapClosed)|)
       && (ev.body.typ.MonitoringGapClosed? ==>
             |OfType(front, MonitoringGapOpened)| == |OfType(front, MonitoringGapClosed)| + 1)
  }

  /** The row begins where its opening event says the silence began, or at the event if it says nothing. */
  predicate ShowsOpening(g: GapRow, ev: Event) {
    && g.opening == ev.Id()
    && g.start == (if ev.body.interval.Some? then ev.body.interval.value.start else ev.body.at)
    && (ev.body.details.GapReason? ==> g.reason == ev.body.details.reason)
  }

  /** The row ends at its closing event and takes over the controller's growth in between, if known. */
  predicate ShowsClosing(g: GapRow, ev: Event) {
    && g.closing == Some(ev.Id()) && g.endedAt == Some(ev.body.at)
    && (ev.body.details.GapDelta? <==> g.global.Some?)
    && (ev.body.details.GapDelta? ==> g.global == Some(ev.body.details.global))
    && (g.unavailable <==> ev.body.details.GapDeltaUnavailable?)
  }

  /** The rows are the opened gaps in order; all but the last one opened have the closing that came next. */
  ghost predicate GapsShown(gaps: seq<GapRow>, begun: seq<Event>, over: seq<Event>) {
    && |over| <= |begun| <= |over| + 1 && |gaps| == |begun|
    && forall i :: 0 <= i < |gaps| ==>
         && ShowsOpening(gaps[i], begun[i])
         && (if i < |over| then ShowsClosing(gaps[i], over[i]) else IsOpenGap(gaps[i]) && gaps[i].global.None?)
  }

  lemma GapOpens(gaps: seq<GapRow>, begun: seq<Event>, over: seq<Event>, ev: Event)
    requires GapsShown(gaps, begun, over) && |begun| == |over|
    ensures GapsShown(gaps + [OpenedGap(ev)], begun + [ev], over)
  {
  }

  /** The gap a closing goes to is the open one that started last, the later one of equals. */
  lemma {:induction false} LatestOpenIsLatest(gaps: seq<GapRow>, i: nat)
    requires i < |gaps| && IsOpenGap(gaps[i])
    ensures LatestOpen(gaps).Some?
    ensures var n := LatestOpen(gaps).value; gaps[i].start < gaps[n].start || (gaps[i].start == gaps[n].start && i <= n)
  {
    var front := gaps[..|gaps| - 1];
    assert gaps[i] in gaps;
    if i < |front| {
      assert front[i] == gaps[i];
      LatestOpenIsLatest(front, i);
    } else if LatestOpen(front).Some? {
      assert front[LatestOpen(front).value] == gaps[LatestOpen(front).value];
    }
  }

  lemma LastGapIsOpen(gaps: seq<GapRow>, begun: seq<Event>, over: seq<Event>)
    requires GapsShown(gaps, begun, over) && |begun| == |over| + 1
    ensures LatestOpen(gaps) == Some(|gaps| - 1)
  {
    hide LatestOpen, ShowsOpening, ShowsClosing;
    var last := |gaps| - 1;
    assert gaps[last] in gaps && IsOpenGap(gaps[last]);
    forall i | 0 <= i < last ensures !IsOpenGap(gaps[i]) {
      ClosingEnds(gaps[i], over[i]);
    }
  }

  lemma ClosingEnds(g: GapRow, ev: Event)
    requires ShowsClosing(g, ev)
    ensures !IsOpenGap(g)
  {
  }

  lemma GapCloses(gaps: seq<GapRow>, begun: seq<Event>, over: seq<Event>, ev: Event)
    requires GapsShown(gaps, begun, over) && |begun| == |over| + 1
    ensures GapsShown(gaps[|gaps| - 1 := ClosedGap(gaps[|gaps| - 1], ev)], begun, over + [ev])
  {
  }

  lemma GapsStep(t: Tables, begun: seq<Event>, over: seq<Event>, ev: Event)
    requires GapsShown(t.gaps, begun, over) && Project(t, ev).Ok?
    requires ev.body.typ.MonitoringGapOpened? ==> |begun| == |over|
    requires ev.body.typ.MonitoringGapClosed? ==> |begun| == |over| + 1
    ensures GapsShown(Project(t, ev).value.gaps,
                      begun + if ev.body.typ.MonitoringGapOpened? then [ev] else [],
                      over + if ev.body.typ.MonitoringGapClosed? then [ev] else [])
  {
    hide GapsShown, BootstrapRow, NewRow, AfterDelta, AfterPresence, AfterMetadata, AfterClass, AfterDisappeared,
         CloseEpoch, LatestOpen, OpenedGap, ClosedGap, TrafficOf, ResidualOf;
    assert begun + [] == begun && over + [] == over;
    if ev.body.typ.MonitoringGapOpened? {
      GapOpens(t.gaps, begun, over, ev);
    } else if ev.body.typ.MonitoringGapClosed? {
      LastGapIsOpen(t.gaps, begun, over);
      GapCloses(t.gaps, begun, over, ev);
    }
  }

  lemma NoGapsYet()
    ensures GapsShown([], [], [])
  {
  }

  /** The gap table lists the gaps the events open and close, each opening with the closing that follows it. */
  lemma {:induction false} GapTableListsGaps(evs: seq<Event>)
    requires ProjectAll(evs).Ok? && InTurn(evs)
    ensures GapsShown(ProjectAll(evs).value.gaps, OfType(evs, MonitoringGapOpened), OfType(evs, MonitoringGapClosed))
  {
    hide Project, GapsShown;
    if evs == [] {
      NoGapsYet();
    } else {
      var front, ev := evs[..|evs| - 1], evs[|evs| - 1];
      GapTableListsGaps(front);
      GapsStep(ProjectAll(front).value, OfType(front, MonitoringGapOpened), OfType(front, MonitoringGapClosed), ev);
    }
  }

  /** Every engine log opens and closes gaps in turn. */
  lemma {:induction false} LegalGapsAreInTurn(log: seq<Event>)
    requires AllLegal(Engine.Bodies(log))
    ensures InTurn(log)
    ensures |OfType(log, MonitoringGapOpened)|
            == |OfType(log, MonitoringGapClosed)| + if GapAfter(false, Engine.Bodies(log)) then 1 else 0
  {
    hide TrackOf;
    if log != [] {
      var front, ds := log[..|log| - 1], Engine.Bodies(log);
      assert ds[..|ds| - 1] == Engine.Bodies(front);
      LegalGapsAreInTurn(front);
    }
  }
}
