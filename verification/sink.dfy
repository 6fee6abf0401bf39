/** The SQLite event sink as mutable tables: journal append, projection updates row by row, session
    lifecycle and rebuild, each proved against Journal and Projector. */
module Sink {
  import opened Types
  import opened Projector
  import opened Journal
  import EventLog

  method CloseEpochRows(rows: map<RowKey, Row>, epoch: nat, ending: Ending) returns (rows': map<RowKey, Row>)
    ensures rows' == CloseEpoch(rows, epoch, ending)
  {
    rows' := rows;
    var todo := rows.Keys;
    while todo != {}
      invariant todo <= rows.Keys && rows'.Keys == rows.Keys
      invariant forall k :: k in rows ==>
                  rows'[k] == if k in todo || k.0 != epoch then rows[k] else Ended(rows[k], ending)
      decreases |todo|
    {
      var k :| k in todo;
      if k.0 == epoch && rows'[k].ended.None? {
        rows' := rows'[k := rows'[k].(ended := Some(ending))];
      }
      todo := todo - {k};
    }
  }

  method CloseSessionRows(t: Tables, ending: Ending) returns (t': Tables)
    ensures t' == CloseRows(t, ending)
  {
    var rows := t.rows;
    var todo := t.rows.Keys;
    while todo != {}
      invariant todo <= t.rows.Keys && rows.Keys == t.rows.Keys
      invariant forall k :: k in t.rows ==> rows[k] == if k in todo then t.rows[k] else Ended(t.rows[k], ending)
      decreases |todo|
    {
      var k :| k in todo;
      if rows[k].ended.None? {
        rows := rows[k := rows[k].(ended := Some(ending))];
      }
      todo := todo - {k};
    }
    t' := t.(rows := rows);
  }

  /** The row lookup of MonitoringGapClosed: ORDER BY started_at DESC LIMIT 1 over open gaps. */
  method FindLatestOpen(gaps: seq<GapRow>) returns (best: Option<nat>)
    ensures best == LatestOpen(gaps)
  {
    best := None;
    for i := 0 to |gaps|
      invariant best == LatestOpen(gaps[..i])
    {
      assert gaps[..i + 1][..i] == gaps[..i];
      if gaps[i].endedAt.None? && (best.None? || gaps[best.value].start <= gaps[i].start) {
        best := Some(i);
      }
    }
    assert gaps[..|gaps|] == gaps;
  }

  /** ApplyEventProjection on one session's tables. */
  method ApplyEventProjection(t: Tables, ev: Event) returns (t': Tables, ok: bool)
    ensures Project(t, ev) == if ok then Ok(t') else Err(ContractViolation)
    ensures !ok ==> t' == t
  {
    hide CloseEpoch, BootstrapRow, NewRow, AfterDelta, AfterPresence, AfterMetadata, AfterClass, AfterDisappeared,
         OpenedGap, ClosedGap;
    var k, d := KeyFor(ev), ev.body;
    var rows, traffic, residuals, health, gaps := t.rows, t.traffic, t.residuals, t.health, t.gaps;
    if EventLog.NamesRow(d) && k !in rows {
      return t, false;
    }
    match d.typ {
      case ConnectionBootstrap => rows := rows[k := BootstrapRow(rows, k, d)];
      case ConnectionNew =>
        rows := rows[k := NewRow(rows, k, d)];
        traffic := traffic + [TrafficOf(ev)];
      case ConnectionDelta =>
        traffic := traffic + [TrafficOf(ev)];
        rows := rows[k := AfterDelta(rows[k], d)];
      case PresenceCheckpoint => rows := rows[k := AfterPresence(rows[k], d)];
      case MetadataUpdated => rows := rows[k := AfterMetadata(rows[k], d)];
      case RelayClassificationChanged => rows := rows[k := AfterClass(rows[k], d)];
      case ConnectionDisappeared => rows := rows[k := AfterDisappeared(rows[k], ev)];
      case CounterEpochBreak =>
        rows := CloseEpochRows(rows, ev.pos.epoch, Ending(d.at, EpochBoundary, Some(ev.Id())));
      case MonitoringGapOpened => gaps := gaps + [OpenedGap(ev)];
      case MonitoringGapClosed =>
        var open := FindLatestOpen(gaps);
        if open.None? {
          return t, false;
        }
        gaps := gaps[open.value := ClosedGap(gaps[open.value], ev)];
      case SamplingResidual => residuals := residuals + [ResidualOf(ev)];
      case CollectorHealth => health := health + [HealthRow(ev.Id(), d.at, d.conn, d.details)];
    }
    return Tables(rows, traffic, residuals, health, gaps), true;
  }

  class SQLiteEventSink {
    var journal: seq<Event>
    var cursors: map<SessionId, Pos>
    var sessions: map<SessionId, Session>
    var tables: TableSet

    function Abs(): StoreState
      reads this
    {
      StoreState(journal, cursors, sessions, tables)
    }

    constructor ()
      ensures Abs() == StoreState([], map[], map[], map[])
    {
      journal, cursors, sessions, tables := [], map[], map[], map[];
    }

    /** IngestJournalRecord: the journal sequence is the position in the journal. */
    method IngestJournalRecord(ev: Event) returns (outcome: Outcome)
      modifies this
      ensures outcome == Ingest(old(Abs()), ev)
      ensures Abs() == if outcome == Accepted
                then old(Abs()).(journal := old(journal) + [ev], cursors := old(cursors)[ev.pos.session := ev.pos])
                       else old(Abs())
    {
      if KnownId(journal, ev) {
        return if ev in journal then Duplicate else Collision;
      }
      if ev.pos.session in cursors {
        var last := cursors[ev.pos.session];
        var isForward := false;
        if ev.pos.epoch > last.epoch {
          isForward := true;
        } else if ev.pos.epoch == last.epoch {
          if ev.pos.frame > last.frame {
            isForward := true;
          } else if ev.pos.frame == last.frame {
            if ev.pos.seqno > last.seqno {
              isForward := true;
            }
          }
        }
        if !isForward {
          return Disordered;
        }
      }
      journal := journal + [ev];
      cursors := cursors[ev.pos.session := ev.pos];
      return Accepted;
    }

    /** Emit: journal, projection and session progress in one transaction. */
    method EmitEvent(ev: Event) returns (outcome: Outcome)
      modifies this
      ensures (Abs(), outcome) == Emit(old(Abs()), ev)
    {
      hide Project, KnownId;
      var s := ev.pos.session;
      var j, c := journal, cursors;
      outcome := IngestJournalRecord(ev);
      if outcome != Accepted {
        return;
      }
      var t, ok := ApplyEventProjection(At(tables, s), ev);
      if !ok {
        journal, cursors := j, c;
        return Violated;
      }
      tables := tables[s := t];
      if s in sessions {
        sessions := sessions[s := sessions[s].(lastEventAt := Some(ev.body.at))];
      }
    }

    method StopSession(id: SessionId, clean: bool, now: Time)
      requires id in sessions
      modifies this
      ensures Abs() == Stop(old(Abs()), id, clean, now)
    {
      hide CloseRows;
      var s := sessions[id];
      var endTime, reason := now, SessionClosed;
      if !clean {
        reason := SessionInterrupted;
        if s.lastEventAt.Some? {
          endTime := s.lastEventAt.value;
        }
      }
      sessions := sessions[id := s.(status := if clean then ClosedClean else Interrupted, endedAt := Some(now))];
      var t := CloseSessionRows(At(tables, id), Ending(endTime, reason, None));
      tables := tables[id := t];
    }

    method BeginNewSession(id: SessionId, prev: Option<SessionId>, now: Time)
      modifies this
      ensures Abs() == Begin(old(Abs()), id, prev, now)
    {
      hide Stop;
      if prev.Some? && prev.value in sessions && sessions[prev.value].status.Running? {
        StopSession(prev.value, false, now);
      }
      if id !in sessions {
        sessions := sessions[id := Session(Running, now, None, None)];
      }
    }

    /** Replay the ordered journal into empty tables, up to the first contract violation. */
    method ReplayJournal(order: seq<Event>) returns (rebuilt: TableSet, ok: bool)
      ensures ok <==> Replay(order).Ok?
      ensures ok ==> rebuilt == Replay(order).value
    {
      hide Project;
      rebuilt := map[];
      for i := 0 to |order|
        invariant Replay(order[..i]) == Ok(rebuilt)
      {
        assert order[..i + 1][..i] == order[..i];
        var s := order[i].pos.session;
        var t, good := ApplyEventProjection(At(rebuilt, s), order[i]);
        if !good {
          ReplayStopsAt(order, i + 1);
          return rebuilt, false;
        }
        rebuilt := rebuilt[s := t];
      }
      assert order[..|order|] == order;
      ok := true;
    }

    /** Close the rows of every session that is no longer running, from its own session row. */
    method SettleSessions(rebuilt: TableSet) returns (settled: TableSet)
      ensures settled == Settle(rebuilt, sessions)
    {
      hide CloseRows, EndingOf;
      settled := rebuilt;
      var todo := rebuilt.Keys;
      while todo != {}
        invariant todo <= rebuilt.Keys && settled.Keys == rebuilt.Keys
        invariant forall s :: s in rebuilt ==>
                    settled[s] == if s in todo then rebuilt[s] else Settle(rebuilt, sessions)[s]
        decreases |todo|
      {
        var s :| s in todo;
        if s in sessions && !sessions[s].status.Running? {
          var t := CloseSessionRows(rebuilt[s], EndingOf(sessions[s]));
          settled := settled[s := t];
        }
        todo := todo - {s};
      }
    }

    /** RebuildProjections: clear, replay, then re-derive the endings of stopped sessions. */
    method RebuildProjections(order: seq<Event>) returns (ok: bool)
      modifies this
      ensures ok <==> Rebuild(old(sessions), order).Ok?
      ensures Abs() == if ok then old(Abs()).(tables := Rebuild(old(sessions), order).value) else old(Abs())
    {
      hide Replay, Settle;
      var rebuilt;
      rebuilt, ok := ReplayJournal(order);
      if ok {
        tables := SettleSessions(rebuilt);
      }
    }
  }

  lemma {:induction false} ReplayStopsAt(order: seq<Event>, n: nat)
    requires n <= |order| && Replay(order[..n]).Err?
    ensures Replay(order).Err?
    decreases |order| - n
  {
    hide Project;
    if n == |order| {
      assert order[..n] == order;
    } else {
      assert order[..n + 1][..n] == order[..n];
      ReplayStopsAt(order, n + 1);
    }
  }
}
