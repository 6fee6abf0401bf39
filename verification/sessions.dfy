/** What a store says about its sessions after any history, stated on the journal and the operations: which
    events were taken, when a session was last heard of, and how its observations ended. */
module SessionLaws {
  import opened Types
  import opened Projector
  import opened ProjectionLaws
  import opened Journal

  // ---------------------------------------------------------------------------------------------
  // Which events are taken
  // ---------------------------------------------------------------------------------------------

  /** Some event of the session stands at the position or behind it. */
  ghost predicate Overtaken(journal: seq<Event>, pos: Pos) {
    exists i :: 0 <= i < |journal| && journal[i].pos.session == pos.session && !Before(journal[i].pos, pos)
  }

  lemma CursorSays(st: StoreState, pos: Pos)
    requires SessionOk(st, pos.session)
    ensures Overtaken(st.journal, pos)
            <==> pos.session in st.cursors && !Before(st.cursors[pos.session], pos)
  {
    hide Expected;
    var evs := SessionEvents(st.journal, pos.session);
    SessionMembers(st.journal, pos.session);
    if evs != [] {
      var last := evs[|evs| - 1];
      assert last in evs && st.cursors[pos.session] == last.pos;
      if !Before(last.pos, pos) {
        var i :| 0 <= i < |st.journal| && st.journal[i] == last;
      }
      if i :| 0 <= i < |st.journal| && st.journal[i].pos.session == pos.session && !Before(st.journal[i].pos, pos) {
        assert st.journal[i] in evs;
        var j :| 0 <= j < |evs| && evs[j] == st.journal[i];
        assert j < |evs| - 1 ==> Before(evs[j].pos, last.pos);
      }
    } else if i :| 0 <= i < |st.journal| && st.journal[i].pos.session == pos.session {
      assert st.journal[i] in evs;
    }
  }

  lemma {:induction false} SessionMembers(journal: seq<Event>, s: SessionId)
    ensures forall ev :: ev in SessionEvents(journal, s) <==> ev in journal && ev.pos.session == s
  {
    if journal != [] {
      SessionMembers(journal[..|journal| - 1], s);
      assert journal == journal[..|journal| - 1] + [journal[|journal| - 1]];
    }
  }

  /** An event is a duplicate exactly when the journal holds it, a collision when it holds another one of the
      same identity, and out of order when its session is already at its position or further; only what is none
      of these and does not contradict the tables is taken, and nothing else changes the store. */
  lemma EmitSays(st: StoreState, ev: Event)
    requires SessionOk(st, ev.pos.session)
    ensures var (st', outcome) := Emit(st, ev);
            && (outcome == Duplicate <==> ev in st.journal)
            && (outcome == Collision <==> ev !in st.journal && exists x :: x in st.journal && x.Id() == ev.Id())
            && (outcome == Disordered <==> (forall x :: x in st.journal ==> x.Id() != ev.Id())
                                           && Overtaken(st.journal, ev.pos))
            && (outcome != Accepted ==> st' == st)
            && (outcome == Accepted ==> st'.journal == st.journal + [ev] && st'.sessions.Keys == st.sessions.Keys
                                        && forall s :: s != ev.pos.session ==>
                                             && At(st'.tables, s) == At(st.tables, s)
                                             && (s in st.sessions ==> st'.sessions[s] == st.sessions[s]))
  {
    hide Project, Expected, Overtaken, SessionEvents;
    CursorSays(st, ev.pos);
  }

  // ---------------------------------------------------------------------------------------------
  // When a session was last heard of
  // ---------------------------------------------------------------------------------------------

  /** The time of the session's latest event in the journal. */
  function LastHeard(journal: seq<Event>, s: SessionId): Option<Time> {
    if journal == [] then None
    else if journal[|journal| - 1].pos.session == s then Some(journal[|journal| - 1].body.at)
    else LastHeard(journal[..|journal| - 1], s)
  }

  lemma HeardStep(journal: seq<Event>, ev: Event, s: SessionId)
    ensures LastHeard(journal + [ev], s) == if ev.pos.session == s then Some(ev.body.at) else LastHeard(journal, s)
  {
    assert (journal + [ev])[..|journal + [ev]| - 1] == journal;
  }

  lemma {:induction false} NeverHeard(journal: seq<Event>, s: SessionId)
    requires SessionEvents(journal, s) == []
    ensures LastHeard(journal, s).None?
  {
    if journal != [] {
      NeverHeard(journal[..|journal| - 1], s);
    }
  }

  ghost predicate KeepsTime(st: StoreState, s: SessionId) {
    s in st.sessions ==>
      && st.sessions[s].lastEventAt == LastHeard(st.journal, s)
      && (st.sessions[s].status.Running? <==> st.sessions[s].endedAt.None?)
  }

  lemma EmitKeepsTime(st: StoreState, ev: Event, s: SessionId)
    requires KeepsTime(st, s)
    requires s in st.sessions && ev.pos.session == s ==> st.sessions[s].status.Running?
    ensures KeepsTime(Emit(st, ev).0, s)
  {
    hide Project, LastHeard, KnownId;
    HeardStep(st.journal, ev, s);
  }

  lemma StopKeepsTime(st: StoreState, id: SessionId, clean: bool, now: Time, s: SessionId)
    requires KeepsTime(st, s) && id in st.sessions
    ensures KeepsTime(Stop(st, id, clean, now), s)
  {
    hide CloseRows, LastHeard;
  }

  lemma BeginKeepsTime(st: StoreState, id: SessionId, prev: Option<SessionId>, now: Time, s: SessionId)
    requires KeepsTime(st, s) && (s !in st.sessions ==> LastHeard(st.journal, s).None?)
    ensures KeepsTime(Begin(st, id, prev, now), s)
  {
    hide Stop, LastHeard;
    if prev.Some? && prev.value in st.sessions && st.sessions[prev.value].status.Running? {
      StopKeepsTime(st, prev.value, false, now, s);
      StopKeepsOthers(st, prev.value, now);
    }
  }

  lemma StopKeepsOthers(st: StoreState, id: SessionId, now: Time)
    requires id in st.sessions
    ensures Stop(st, id, false, now).journal == st.journal
    ensures Stop(st, id, false, now).sessions.Keys == st.sessions.Keys
  {
    hide CloseRows;
  }

  /** In every history a session's last event time is that of its latest event in the journal, and one that has
      ended says when. */
  lemma {:induction false} SessionsKeepTime(ops: seq<Op>, s: SessionId)
    requires History(ops)
    ensures KeepsTime(Live(ops), s)
  {
    hide KeepsTime, SessionOk, Emit, Stop, Begin, LastHeard;
    if ops == [] {
      NoSessionsYet(s);
    } else {
      var st, op := Live(ops[..|ops| - 1]), ops[|ops| - 1];
      SessionsKeepTime(ops[..|ops| - 1], s);
      LiveIsOk(ops[..|ops| - 1]);
      assert SessionOk(st, s);
      match op
      case BeginSession(id, prev, now) =>
        if s !in st.sessions {
          NoEventsYet(st, s);
        }
        BeginKeepsTime(st, id, prev, now, s);
      case EmitEvent(ev) => EmitKeepsTime(st, ev, s);
      case EndSession(id, clean, now) => StopKeepsTime(st, id, clean, now, s);
    }
  }

  lemma NoSessionsYet(s: SessionId)
    ensures KeepsTime(StoreState([], map[], map[], map[]), s)
  {
  }

  lemma NoEventsYet(st: StoreState, s: SessionId)
    requires SessionOk(st, s) && s !in st.sessions
    ensures LastHeard(st.journal, s).None?
  {
    hide Expected, CursorOk;
    NeverHeard(st.journal, s);
  }

  // ---------------------------------------------------------------------------------------------
  // How observations ended
  // ---------------------------------------------------------------------------------------------

  /** A session that stops ends every observation still open, at the stop if it was clean and when it was last
      heard of if not; no other row, table or session is touched. */
  lemma StopSays(st: StoreState, id: SessionId, clean: bool, now: Time)
    requires id in st.sessions && st.sessions[id].lastEventAt == LastHeard(st.journal, id)
    ensures var st' := Stop(st, id, clean, now);
            var heard := LastHeard(st.journal, id);
            var ending := if clean then Ending(now, SessionClosed, None)
                          else Ending(if heard.Some? then heard.value else now, SessionInterrupted, None);
            && st'.journal == st.journal && st'.sessions.Keys == st.sessions.Keys
            && (forall s :: s in st.sessions && s != id ==> st'.sessions[s] == st.sessions[s])
            && st'.sessions[id].status == (if clean then ClosedClean else Interrupted)
            && st'.sessions[id].endedAt == Some(now) && st'.sessions[id].startedAt == st.sessions[id].startedAt
            && (forall s :: s != id ==> At(st'.tables, s) == At(st.tables, s))
            && var before, after := At(st.tables, id), At(st'.tables, id);
               && after == before.(rows := after.rows) && after.rows.Keys == before.rows.Keys
               && forall k :: k in before.rows ==>
                    after.rows[k] == if before.rows[k].ended.Some? then before.rows[k]
                                     else before.rows[k].(ended := Some(ending))
  {
  }

  /** A new session starts running and takes the place of an earlier one that is still marked as running; a
      session that is already there stays as it is. */
  lemma BeginSays(st: StoreState, id: SessionId, prev: Option<SessionId>, now: Time)
    requires IsLatestOther(st.sessions, id, prev)
    ensures var st' := Begin(st, id, prev, now);
            && st'.journal == st.journal && id in st'.sessions
            && (id !in st.sessions ==> st'.sessions[id] == Session(Running, now, None, None))
            && (id in st.sessions ==> st'.sessions[id] == st.sessions[id])
            && (prev.Some? ==> st'.sessions[prev.value].status != Running)
            && (forall s :: s in st.sessions && Some(s) != prev ==> st'.sessions[s] == st.sessions[s])
            && (forall s: SessionId :: Some(s) != prev ==> At(st'.tables, s) == At(st.tables, s))
            && (prev.Some? && st.sessions[prev.value].status == Running ==>
                  st'.tables == Stop(st, prev.value, false, now).tables)
  {
    hide CloseRows;
  }

  /** After any history every row of every session ended the way its own events say or, if they leave it open and
      the session has stopped, with the session: at its clean stop, or when it was last heard of. */
  lemma RowsEndWithTheirSession(ops: seq<Op>, s: SessionId, k: RowKey)
    requires History(ops) && s in Live(ops).sessions && k in At(Live(ops).tables, s).rows
    ensures Live(ops).sessions[s].status != Running ==> Live(ops).sessions[s].endedAt.Some?
    ensures var st := Live(ops);
            var session, own, heard := st.sessions[s], EndedBy(SessionEvents(st.journal, s), k),
                LastHeard(st.journal, s);
            At(st.tables, s).rows[k].ended
            == if own.Some? || session.status == Running then own
               else if session.status == ClosedClean then Some(Ending(session.endedAt.value, SessionClosed, None))
               else Some(Ending(if heard.Some? then heard.value else session.endedAt.value, SessionInterrupted, None))
  {
    hide Project, Live, EndedBy, LastHeard;
    var st := Live(ops);
    LiveIsOk(ops);
    assert SessionOk(st, s);
    SessionsKeepTime(ops, s);
    var evs := SessionEvents(st.journal, s);
    assert ProjectAll(evs).Ok?;
    AllColumnLaws(evs, k);
    ColumnsSayEnding(ProjectAll(evs).value, evs, k);
  }

  lemma ColumnsSayEnding(t: Tables, evs: seq<Event>, k: RowKey)
    requires ColumnLaws(t, evs, k)
    ensures k in t.rows ==> t.rows[k].ended == EndedBy(evs, k)
  {
    hide EndedBy;
  }
}
