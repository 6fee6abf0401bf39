/** From the engine to the store: no event of any engine run is refused downstream. */
module Pipeline {
  import opened Types
  import opened EventLog
  import opened Projector
  import opened Journal
  import Engine
  import EngineRuns
  import EngineLog

  // ---------------------------------------------------------------------------------------------
  // A legal log projects without violations
  // ---------------------------------------------------------------------------------------------

  /** A known connection was introduced in the log, with no epoch break since. */
  lemma {:induction false} KnownWasIntroduced(log: seq<Event>, id: ConnId) returns (i: nat)
    requires TrackOf(Engine.Bodies(log), id).known
    ensures i < |log| && Introduces(log[i].body) && log[i].body.conn == Some(id) && EngineLog.NoBreak(log, i, |log|)
  {
    var ds := Engine.Bodies(log);
    var front := log[..|log| - 1];
    assert ds[..|ds| - 1] == Engine.Bodies(front);
    if Introduces(ds[|ds| - 1]) && ds[|ds| - 1].conn == Some(id) {
      i := |log| - 1;
    } else {
      i := KnownWasIntroduced(front, id);
      assert log[i] == front[i];
      forall k | i <= k < |log| ensures !log[k].body.typ.CounterEpochBreak? {
        if k < |front| {
          assert log[k] == front[k];
        }
      }
    }
  }

  /** The tables of a log: rows of everything introduced, and an open gap exactly while the log has one. */
  ghost predicate Reflects(t: Tables, log: seq<Event>) {
    && (forall ev :: ev in log && Introduces(ev.body) ==> KeyFor(ev) in t.rows)
    && (forall i, j :: 0 <= i < |t.gaps| && 0 <= j < |t.gaps| && IsOpenGap(t.gaps[i]) && IsOpenGap(t.gaps[j]) ==>
        i == j)
    && (LatestOpen(t.gaps).Some? <==> GapAfter(false, Engine.Bodies(log)))
  }

  lemma ProjectKeepsRows(t: Tables, ev: Event)
    requires Project(t, ev).Ok?
    ensures t.rows.Keys <= Project(t, ev).value.rows.Keys
    ensures Introduces(ev.body) ==> KeyFor(ev) in Project(t, ev).value.rows
    ensures !ev.body.typ.MonitoringGapOpened? && !ev.body.typ.MonitoringGapClosed? ==>
              Project(t, ev).value.gaps == t.gaps
  {
    hide BootstrapRow, NewRow, AfterDelta, AfterPresence, AfterMetadata, AfterClass, AfterDisappeared, TrafficOf;
  }

  lemma GapStep(log: seq<Event>, ev: Event)
    ensures GapAfter(false, Engine.Bodies(log + [ev]))
            == if ev.body.typ.MonitoringGapOpened? then true else if ev.body.typ.MonitoringGapClosed? then false
               else GapAfter(false, Engine.Bodies(log))
  {
    var ds := Engine.Bodies(log + [ev]);
    assert ds[..|ds| - 1] == Engine.Bodies(log);
  }

  lemma OpeningReflects(gaps: seq<GapRow>, g: GapRow)
    requires LatestOpen(gaps).None? && IsOpenGap(g)
    ensures LatestOpen(gaps + [g]).Some?
    ensures forall i, j :: 0 <= i <= |gaps| && 0 <= j <= |gaps|
                           && IsOpenGap((gaps + [g])[i]) && IsOpenGap((gaps + [g])[j])
                           ==> i == j
  {
    assert forall i :: 0 <= i < |gaps| ==> gaps[i] in gaps;
    assert g in gaps + [g];
  }

  lemma ClosingReflects(gaps: seq<GapRow>, n: nat, g: GapRow)
    requires n < |gaps| && IsOpenGap(gaps[n]) && !IsOpenGap(g)
    requires forall i, j :: 0 <= i < |gaps| && 0 <= j < |gaps| && IsOpenGap(gaps[i]) && IsOpenGap(gaps[j]) ==> i == j
    ensures LatestOpen(gaps[n := g]).None?
  {
    forall x | x in gaps[n := g] ensures !IsOpenGap(x) {
      var i :| 0 <= i < |gaps| && gaps[n := g][i] == x;
    }
  }

  /** One legal event more. */
  lemma LegalEventProjects(t: Tables, log: seq<Event>, ev: Event)
    requires Reflects(t, log) && EngineLog.Dated(log, ev.pos.epoch)
    requires Legal(TrackOf(Engine.Bodies(log), IdOf(ev.body)), GapAfter(false, Engine.Bodies(log)), ev.body)
    ensures Project(t, ev).Ok? && Reflects(Project(t, ev).value, log + [ev])
  {
    hide TrackFrom, Step, GapAfter, Engine.Bodies;
    if NamesRow(ev.body) {
      var id := IdOf(ev.body);
      var i := KnownWasIntroduced(log, id);
      assert KeyFor(log[i]) == KeyFor(ev) && log[i] in log;
    }
    GapStep(log, ev);
    ProjectKeepsRows(t, ev);
    if ev.body.typ.MonitoringGapOpened? {
      OpeningReflects(t.gaps, OpenedGap(ev));
    } else if ev.body.typ.MonitoringGapClosed? {
      var n := LatestOpen(t.gaps).value;
      ClosingReflects(t.gaps, n, ClosedGap(t.gaps[n], ev));
    }
  }

  lemma DatedPrefix(log: seq<Event>, epoch: nat, n: nat)
    requires EngineLog.Dated(log, epoch) && n < |log|
    ensures EngineLog.Dated(log[..n], log[n].pos.epoch)
  {
    forall i, j | 0 <= i < j < n && EngineLog.NoBreak(log[..n], i, j) ensures log[i].pos.epoch == log[j].pos.epoch {
      assert forall k :: i <= k < j ==> log[..n][k] == log[k];
      assert EngineLog.NoBreak(log, i, j);
    }
    forall i | 0 <= i < n && EngineLog.NoBreak(log[..n], i, n) ensures log[i].pos.epoch == log[n].pos.epoch {
      assert forall k :: i <= k < n ==> log[..n][k] == log[k];
      assert EngineLog.NoBreak(log, i, n);
    }
  }

  lemma {:induction false} LegalLogProjects(log: seq<Event>, epoch: nat, n: nat)
    requires AllLegal(Engine.Bodies(log)) && EngineLog.Dated(log, epoch) && n <= |log|
    ensures ProjectAll(log[..n]).Ok? && Reflects(ProjectAll(log[..n]).value, log[..n])
  {
    hide AllLegal, Legal, TrackFrom, GapAfter, EngineLog.Dated, Project, Reflects;
    if n == 0 {
      NothingReflects();
      assert log[..0] == [];
    } else {
      LegalLogProjects(log, epoch, n - 1);
      var ds := Engine.Bodies(log);
      LegalAt(ds, n - 1);
      assert ds[..n - 1] == Engine.Bodies(log[..n - 1]);
      DatedPrefix(log, epoch, n - 1);
      LegalEventProjects(ProjectAll(log[..n - 1]).value, log[..n - 1], log[n - 1]);
      assert log[..n] == log[..n - 1] + [log[n - 1]];
      ProjectAllStep(log[..n - 1], log[n - 1]);
    }
  }

  /** The log of every run projects without contract violation. */
  lemma RunProjects(session: SessionId, created: Time, items: seq<Engine.Item>)
    requires EngineRuns.SaneItems(items)
    ensures ProjectAll(Engine.RunFrom(Engine.NewEngine(session, created), items).log).Ok?
  {
    hide EngineLog.Dated, Reflects, AllLegal;
    var log := Engine.RunFrom(Engine.NewEngine(session, created), items).log;
    EngineRuns.RunsAreLegal(session, created, items);
    EngineLog.RunsAreOrdered(session, created, items);
    LegalLogProjects(log, Engine.RunFrom(Engine.NewEngine(session, created), items).epoch, |log|);
    assert log[..|log|] == log;
  }

  lemma NothingReflects()
    ensures ProjectAll([]) == Ok(EMPTY_TABLES) && Reflects(EMPTY_TABLES, [])
  {
    assert Engine.Bodies([]) == [];
  }

  // ---------------------------------------------------------------------------------------------
  // The store accepts the whole run
  // ---------------------------------------------------------------------------------------------

  /** Sending a log to the store event by event, as long as it accepts. */
  function EmitEach(st: StoreState, log: seq<Event>): (StoreState, bool) {
    if log == [] then (st, true)
    else
      var (front, ok) := EmitEach(st, log[..|log| - 1]);
      var (next, outcome) := Emit(front, log[|log| - 1]);
      (next, ok && outcome == Accepted)
  }

  ghost predicate Streaming(st: StoreState, s: SessionId, sent: seq<Event>) {
    && SessionOk(st, s) && s in st.sessions && st.sessions[s].status.Running?
    && SessionEvents(st.journal, s) == sent
  }

  lemma {:induction false} MemberOfSession(evs: seq<Event>, x: Event)
    requires x in evs
    ensures x in SessionEvents(evs, x.pos.session)
  {
    var front, last := evs[..|evs| - 1], evs[|evs| - 1];
    assert evs == front + [last];
    if x in front {
      MemberOfSession(front, x);
    }
  }

  /** The next event of an ordered, legal log is accepted. */
  lemma NextIsAccepted(st: StoreState, s: SessionId, sent: seq<Event>, ev: Event, t: Tables)
    requires Streaming(st, s, sent) && ev.pos.session == s
    requires forall x :: x in sent ==> Before(x.pos, ev.pos)
    requires ProjectAll(sent).Ok? && Project(ProjectAll(sent).value, ev) == Ok(t)
    ensures Emit(st, ev).1 == Accepted && Emit(st, ev).0 == Appended(st, ev, t)
    ensures Streaming(Emit(st, ev).0, s, sent + [ev])
  {
    hide Project, ProjectAll, SessionEvents, CloseRows;
    if KnownId(st.journal, ev) {
      var x :| x in st.journal && x.Id() == ev.Id();
      MemberOfSession(st.journal, x);
    }
    if s in st.cursors {
      assert sent[|sent| - 1] in sent;
    }
    assert Ingest(st, ev) == Accepted;
    EmitKeepsSession(st, ev, s);
    SessionEventsStep(st.journal, ev, s);
  }

  lemma {:induction false} LogIsAccepted(st: StoreState, s: SessionId, log: seq<Event>, epoch: nat, n: nat)
    requires Streaming(st, s, []) && n <= |log|
    requires AllLegal(Engine.Bodies(log)) && EngineLog.Dated(log, epoch)
    requires Increasing(log) && forall ev :: ev in log ==> ev.pos.session == s
    ensures EmitEach(st, log[..n]).1 && Streaming(EmitEach(st, log[..n]).0, s, log[..n])
    ensures EmitEach(st, log[..n]).0.journal == st.journal + log[..n]
  {
    hide AllLegal, EngineLog.Dated, Project, ProjectAll, Emit, Streaming;
    if n == 0 {
      assert log[..0] == [] && st.journal + [] == st.journal;
    } else {
      var front, ev := log[..n - 1], log[n - 1];
      LogIsAccepted(st, s, log, epoch, n - 1);
      LegalLogProjects(log, epoch, n - 1);
      LegalLogProjects(log, epoch, n);
      assert log[..n] == front + [ev] && log[..n][..n - 1] == front;
      ProjectAllStep(front, ev);
      forall x | x in front ensures Before(x.pos, ev.pos) {
        var i :| 0 <= i < |front| && front[i] == x;
        assert Before(log[i].pos, log[n - 1].pos);
      }
      NextIsAccepted(EmitEach(st, front).0, s, front, ev, ProjectAll(log[..n]).value);
      assert st.journal + front + [ev] == st.journal + log[..n];
    }
  }

  /** For every engine run, a store whose session has just begun accepts every event: neither the
      ordering error nor the projection contract violation is reachable. */
  lemma NoEventIsRefused(st: StoreState, session: SessionId, created: Time, items: seq<Engine.Item>)
    requires Streaming(st, session, []) && EngineRuns.SaneItems(items)
    ensures var log := Engine.RunFrom(Engine.NewEngine(session, created), items).log;
            && EmitEach(st, log).1
            && EmitEach(st, log).0.journal == st.journal + log
            && SessionOk(EmitEach(st, log).0, session)
  {
    hide AllLegal, GapAfter, EngineLog.Sealed, EngineLog.ProperLog, SessionOk;
    var e := Engine.RunFrom(Engine.NewEngine(session, created), items);
    EngineRuns.RunsAreLegal(session, created, items);
    EngineLog.RunsAreOrdered(session, created, items);
    assert e.log[..|e.log|] == e.log;
    LogIsAccepted(st, session, e.log, e.epoch, |e.log|);
  }

  // ---------------------------------------------------------------------------------------------
  // Whole histories
  // ---------------------------------------------------------------------------------------------

  /** A session that begins for the first time has nothing in the journal yet. */
  lemma NewSessionIsStreaming(ops: seq<Op>, id: SessionId, prev: Option<SessionId>, now: Time)
    requires History(ops) && Allowed(Live(ops), BeginSession(id, prev, now)) && id !in Live(ops).sessions
    ensures History(ops + [BeginSession(id, prev, now)])
    ensures Live(ops + [BeginSession(id, prev, now)]) == Begin(Live(ops), id, prev, now)
    ensures Streaming(Begin(Live(ops), id, prev, now), id, [])
    ensures Begin(Live(ops), id, prev, now).journal == Live(ops).journal
  {
    hide ProjectAll, CloseRows, Increasing, SessionEvents;
    var begun := ops + [BeginSession(id, prev, now)];
    assert begun[..|begun| - 1] == ops;
    LiveIsOk(ops);
    assert SessionOk(Live(ops), id);
    BeginKeepsSession(Live(ops), id, prev, now, id);
  }

  function EmitOps(log: seq<Event>): seq<Op> {
    seq(|log|, i requires 0 <= i < |log| => EmitEvent(log[i]))
  }

  lemma HistoryExtends(ops: seq<Op>, op: Op)
    requires History(ops) && Allowed(Live(ops), op)
    ensures History(ops + [op]) && Live(ops + [op]) == Apply(Live(ops), op)
  {
    hide Allowed, Apply;
    assert (ops + [op])[..|ops + [op]| - 1] == ops;
  }

  /** Emitting an accepted log is a history. */
  lemma {:induction false} EmissionIsHistory(ops: seq<Op>, s: SessionId, log: seq<Event>, epoch: nat, n: nat)
    requires History(ops) && Streaming(Live(ops), s, []) && n <= |log|
    requires AllLegal(Engine.Bodies(log)) && EngineLog.Dated(log, epoch)
    requires Increasing(log) && forall ev :: ev in log ==> ev.pos.session == s
    ensures History(ops + EmitOps(log[..n])) && Live(ops + EmitOps(log[..n])) == EmitEach(Live(ops), log[..n]).0
  {
    hide AllLegal, EngineLog.Dated, Emit, SessionOk, Increasing, History, Live, SessionEvents;
    if n == 0 {
      assert ops + EmitOps(log[..0]) == ops;
    } else {
      EmissionIsHistory(ops, s, log, epoch, n - 1);
      LogIsAccepted(Live(ops), s, log, epoch, n - 1);
      var before := ops + EmitOps(log[..n - 1]);
      assert log[n - 1] in log;
      HistoryExtends(before, EmitEvent(log[n - 1]));
      assert ops + EmitOps(log[..n]) == before + [EmitEvent(log[n - 1])];
      assert log[..n][..n - 1] == log[..n - 1];
    }
  }

  /** Whatever sessions came before, clean or crashed: when a new session begins and its engine runs, every
      event of the run is accepted, the journal grows by exactly the engine's log, and the store has again
      an allowed history, so all that is proved of histories holds for it. */
  lemma EverySessionIsAccepted(ops: seq<Op>, id: SessionId, prev: Option<SessionId>, now: Time, created: Time,
                               items: seq<Engine.Item>)
    requires History(ops) && Allowed(Live(ops), BeginSession(id, prev, now)) && id !in Live(ops).sessions
    requires EngineRuns.SaneItems(items)
    ensures var log := Engine.RunFrom(Engine.NewEngine(id, created), items).log;
            var begun := ops + [BeginSession(id, prev, now)];
            && EmitEach(Live(begun), log).1
            && History(begun + EmitOps(log))
            && Live(begun + EmitOps(log)).journal == Live(ops).journal + log
            && StoreOk(Live(begun + EmitOps(log)))
  {
    hide AllLegal, GapAfter, Begin, Emit, EngineLog.Sealed, EngineLog.ProperLog, SessionOk, StoreOk, IsLatestOther;
    var e := Engine.RunFrom(Engine.NewEngine(id, created), items);
    var begun := ops + [BeginSession(id, prev, now)];
    NewSessionIsStreaming(ops, id, prev, now);
    NoEventIsRefused(Live(begun), id, created, items);
    EngineRuns.RunsAreLegal(id, created, items);
    EngineLog.RunsAreOrdered(id, created, items);
    assert e.log[..|e.log|] == e.log;
    EmissionIsHistory(begun, id, e.log, e.epoch, |e.log|);
    LiveIsOk(begun + EmitOps(e.log));
  }
}
