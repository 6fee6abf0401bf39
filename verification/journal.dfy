/** The durable store (journal.go, sqlite_sink.go, recovery.go): an idempotent ordered journal, tables
    projected live under a session lifecycle, and their rebuild from the journal. */
module Journal {
  import opened Types
  import opened Projector

  datatype Status = Running | ClosedClean | Interrupted

  datatype Session = Session(status: Status, startedAt: Time, endedAt: Option<Time>, lastEventAt: Option<Time>)

  type TableSet = map<SessionId, Tables>

  datatype StoreState = StoreState(journal: seq<Event>, cursors: map<SessionId, Pos>,
                                   sessions: map<SessionId, Session>, tables: TableSet)

  function At(tables: TableSet, s: SessionId): Tables {
    if s in tables then tables[s] else EMPTY_TABLES
  }

  // ---------------------------------------------------------------------------------------------
  // Emit
  // ---------------------------------------------------------------------------------------------

  datatype Outcome = Accepted | Duplicate | Collision | Disordered | Violated

  predicate KnownId(journal: seq<Event>, ev: Event) {
    exists x :: x in journal && x.Id() == ev.Id()
  }

  /** IngestJournalRecord: an identical event is a no-op, a different one under the same ID collides,
      and the session cursor only moves forward. */
  function Ingest(st: StoreState, ev: Event): Outcome {
    if KnownId(st.journal, ev) then (if ev in st.journal then Duplicate else Collision)
    else if ev.pos.session in st.cursors && !Before(st.cursors[ev.pos.session], ev.pos) then Disordered
    else Accepted
  }

  function Appended(st: StoreState, ev: Event, t: Tables): StoreState {
    var s := ev.pos.session;
    StoreState(st.journal + [ev], st.cursors[s := ev.pos],
          if s in st.sessions then st.sessions[s := st.sessions[s].(lastEventAt := Some(ev.body.at))] else st.sessions,
          st.tables[s := t])
  }

  /** One transaction: journal, projection and session progress, or nothing. */
  function Emit(st: StoreState, ev: Event): (StoreState, Outcome) {
    match Ingest(st, ev)
    case Accepted =>
      (match Project(At(st.tables, ev.pos.session), ev)
       case Ok(t) => (Appended(st, ev, t), Accepted)
       case Err(_) => (st, Violated))
    case other => (st, other)
  }

  /** Ingestion is idempotent: sending an accepted event again changes nothing. */
  lemma EmitIsIdempotent(st: StoreState, ev: Event)
    requires Emit(st, ev).1 == Accepted
    ensures Emit(Emit(st, ev).0, ev) == (Emit(st, ev).0, Duplicate)
    ensures Emit(st, ev).0.journal == st.journal + [ev]
  {
    hide Project;
    assert ev in st.journal + [ev];
  }

  // ---------------------------------------------------------------------------------------------
  // Session lifecycle
  // ---------------------------------------------------------------------------------------------

  function InterruptedAt(s: Session, now: Time): Time {
    if s.lastEventAt.Some? then s.lastEventAt.value else now
  }

  /** Stopping a running session closes its open observations. */
  function Stop(st: StoreState, id: SessionId, clean: bool, now: Time): StoreState
    requires id in st.sessions
  {
    var s := st.sessions[id];
    var ending := if clean then Ending(now, SessionClosed, None)
        else Ending(InterruptedAt(s, now), SessionInterrupted, None);
    st.(sessions := st.sessions[id := s.(status := if clean then ClosedClean else Interrupted, endedAt := Some(now))],
        tables := st.tables[id := CloseRows(At(st.tables, id), ending)])
  }

  /** Beginning a session interrupts the latest other one if it was left running; a session row that is
      already there stays as it is. */
  function Begin(st: StoreState, id: SessionId, prev: Option<SessionId>, now: Time): StoreState {
    var settled := if prev.Some? && prev.value in st.sessions && st.sessions[prev.value].status.Running?
                   then Stop(st, prev.value, false, now) else st;
    if id in settled.sessions then settled
    else settled.(sessions := settled.sessions[id := Session(Running, now, None, None)])
  }

  /** The most recently started other session, if any; equal start times are left to the database. */
  ghost predicate IsLatestOther(sessions: map<SessionId, Session>, id: SessionId, prev: Option<SessionId>) {
    match prev
    case None => sessions.Keys <= {id}
    case Some(p) => p != id && p in sessions && forall s :: s in sessions && s != id ==>
        sessions[s].startedAt <= sessions[p].startedAt
  }

  datatype Op =
    | BeginSession(id: SessionId, prev: Option<SessionId>, now: Time)
    | EmitEvent(ev: Event)
    | EndSession(id: SessionId, clean: bool, now: Time)

  /** One live writer: only a running session emits or ends. */
  ghost predicate Allowed(st: StoreState, op: Op) {
    match op
    case BeginSession(id, prev, _) => IsLatestOther(st.sessions, id, prev)
    case EmitEvent(ev) => ev.pos.session in st.sessions && st.sessions[ev.pos.session].status.Running?
    case EndSession(id, _, _) => id in st.sessions && st.sessions[id].status.Running?
  }

  ghost function Apply(st: StoreState, op: Op): StoreState
    requires Allowed(st, op)
  {
    match op
    case BeginSession(id, prev, now) => Begin(st, id, prev, now)
    case EmitEvent(ev) => Emit(st, ev).0
    case EndSession(id, clean, now) => Stop(st, id, clean, now)
  }

  // ---------------------------------------------------------------------------------------------
  // Rebuild
  // ---------------------------------------------------------------------------------------------

  /** A replay in any order of the journal that respects ORDER BY session, epoch, frame, event. */
  ghost predicate ReplayOrder(journal: seq<Event>, order: seq<Event>) {
    && multiset(order) == multiset(journal)
    && forall i, j :: 0 <= i < j < |order| ==>
         order[i].pos.session < order[j].pos.session
         || (order[i].pos.session == order[j].pos.session && !Before(order[j].pos, order[i].pos))
  }

  function Replay(order: seq<Event>): Result<TableSet, ProjectionError> {
    if order == [] then Ok(map[])
    else
      var ev := order[|order| - 1];
      match Replay(order[..|order| - 1])
      case Err(e) => Err(e)
      case Ok(tables) =>
        match Project(At(tables, ev.pos.session), ev)
        case Err(e) => Err(e)
        case Ok(t) => Ok(tables[ev.pos.session := t])
  }

  /** How a stopped session's open observations end, from its own row alone. */
  function EndingOf(s: Session): Ending {
    if s.status.ClosedClean? then
      Ending(if s.endedAt.Some? then s.endedAt.value else if s.lastEventAt.Some? then s.lastEventAt.value
             else s.startedAt, SessionClosed, None)
    else
      Ending(if s.lastEventAt.Some? then s.lastEventAt.value else if s.endedAt.Some? then s.endedAt.value
             else s.startedAt, SessionInterrupted, None)
  }

  function Settle(tables: TableSet, sessions: map<SessionId, Session>): TableSet {
    map s | s in tables ::
      if s in sessions && !sessions[s].status.Running? then CloseRows(tables[s], EndingOf(sessions[s])) else tables[s]
  }

  /** RebuildProjections. */
  function Rebuild(sessions: map<SessionId, Session>, order: seq<Event>): Result<TableSet, ProjectionError> {
    match Replay(order)
    case Err(e) => Err(e)
    case Ok(tables) => Ok(Settle(tables, sessions))
  }

  // ---------------------------------------------------------------------------------------------
  // The store invariant
  // ---------------------------------------------------------------------------------------------

  function SessionEvents(evs: seq<Event>, s: SessionId): seq<Event> {
    if evs == [] then []
    else
      var ev := evs[|evs| - 1];
      SessionEvents(evs[..|evs| - 1], s) + if ev.pos.session == s then [ev] else []
  }

  ghost predicate Increasing(evs: seq<Event>) {
    forall i, j :: 0 <= i < j < |evs| ==> Before(evs[i].pos, evs[j].pos)
  }

  /** What the live tables of a session must be, given its events and its session row. */
  function Expected(evs: seq<Event>, sessions: map<SessionId, Session>, s: SessionId): Result<Tables, ProjectionError> {
    match ProjectAll(evs)
    case Err(e) => Err(e)
    case Ok(t) => Ok(if s in sessions && !sessions[s].status.Running? then CloseRows(t, EndingOf(sessions[s])) else t)
  }

  ghost predicate CursorOk(evs: seq<Event>, cursors: map<SessionId, Pos>, s: SessionId) {
    && Increasing(evs)
    && (evs == [] <==> s !in cursors)
    && (evs != [] ==> s in cursors && cursors[s] == evs[|evs| - 1].pos)
  }

  ghost predicate SessionOk(st: StoreState, s: SessionId) {
    var evs := SessionEvents(st.journal, s);
    && CursorOk(evs, st.cursors, s)
    && (s !in st.sessions ==> evs == [])
    && Expected(evs, st.sessions, s) == Ok(At(st.tables, s))
    && (s in st.sessions && !st.sessions[s].status.Running? ==> st.sessions[s].endedAt.Some?)
  }

  ghost predicate StoreOk(st: StoreState) {
    forall s :: SessionOk(st, s)
  }

  lemma NewStoreOk()
    ensures StoreOk(StoreState([], map[], map[], map[]))
  {
  }

  lemma SessionEventsStep(evs: seq<Event>, ev: Event, s: SessionId)
    ensures SessionEvents(evs + [ev], s) == SessionEvents(evs, s) + if ev.pos.session == s then [ev] else []
  {
    assert (evs + [ev])[..|evs + [ev]| - 1] == evs;
  }

  lemma CursorAdvances(evs: seq<Event>, cursors: map<SessionId, Pos>, ev: Event)
    requires CursorOk(evs, cursors, ev.pos.session)
    requires ev.pos.session in cursors ==> Before(cursors[ev.pos.session], ev.pos)
    ensures CursorOk(evs + [ev], cursors[ev.pos.session := ev.pos], ev.pos.session)
  {
    forall i | 0 <= i < |evs| ensures Before(evs[i].pos, ev.pos) {
      if i < |evs| - 1 {
        assert Before(evs[i].pos, evs[|evs| - 1].pos);
      }
    }
  }

  lemma ProjectAllStep(evs: seq<Event>, ev: Event)
    requires ProjectAll(evs).Ok?
    ensures ProjectAll(evs + [ev]) == Project(ProjectAll(evs).value, ev)
  {
    assert (evs + [ev])[..|evs + [ev]| - 1] == evs;
  }

  lemma AppendedOwnSession(st: StoreState, ev: Event, t: Tables)
    requires SessionOk(st, ev.pos.session) && Allowed(st, EmitEvent(ev))
    requires ev.pos.session in st.cursors ==> Before(st.cursors[ev.pos.session], ev.pos)
    requires Project(At(st.tables, ev.pos.session), ev) == Ok(t)
    ensures SessionOk(Appended(st, ev, t), ev.pos.session)
  {
    hide Project, ProjectAll, Increasing, CloseRows, SessionEvents, CursorOk;
    var evs := SessionEvents(st.journal, ev.pos.session);
    SessionEventsStep(st.journal, ev, ev.pos.session);
    CursorAdvances(evs, st.cursors, ev);
    ProjectAllStep(evs, ev);
  }

  lemma AppendedOtherSession(st: StoreState, ev: Event, t: Tables, s: SessionId)
    requires SessionOk(st, s) && s != ev.pos.session
    ensures SessionOk(Appended(st, ev, t), s)
  {
    hide ProjectAll, Increasing, CloseRows, SessionEvents;
    SessionEventsStep(st.journal, ev, s);
    assert SessionEvents(st.journal, s) + [] == SessionEvents(st.journal, s);
  }

  lemma EmitKeepsSession(st: StoreState, ev: Event, s: SessionId)
    requires SessionOk(st, s) && SessionOk(st, ev.pos.session) && Allowed(st, EmitEvent(ev))
    ensures SessionOk(Emit(st, ev).0, s)
  {
    hide Project, SessionOk, KnownId, Appended;
    if Emit(st, ev).1 == Accepted {
      var t := Project(At(st.tables, ev.pos.session), ev).value;
      if s == ev.pos.session {
        AppendedOwnSession(st, ev, t);
      } else {
        AppendedOtherSession(st, ev, t, s);
      }
    }
  }

  lemma StopKeepsSession(st: StoreState, id: SessionId, clean: bool, now: Time, s: SessionId)
    requires SessionOk(st, s) && id in st.sessions && st.sessions[id].status.Running?
    ensures SessionOk(Stop(st, id, clean, now), s)
  {
    hide Project, ProjectAll, Increasing, CloseRows;
  }

  lemma BeginKeepsSession(st: StoreState, id: SessionId, prev: Option<SessionId>, now: Time, s: SessionId)
    requires SessionOk(st, s)
    ensures SessionOk(Begin(st, id, prev, now), s)
  {
    hide Project, ProjectAll, Increasing, CloseRows;
    if prev.Some? && prev.value in st.sessions && st.sessions[prev.value].status.Running? {
      StopKeepsSession(st, prev.value, false, now, s);
    }
  }

  lemma ApplyKeepsStoreOk(st: StoreState, op: Op)
    requires StoreOk(st) && Allowed(st, op)
    ensures StoreOk(Apply(st, op))
  {
    hide SessionOk, Emit, Begin, Stop;
    forall s ensures SessionOk(Apply(st, op), s) {
      assert SessionOk(st, s);
      match op
      case BeginSession(id, prev, now) => BeginKeepsSession(st, id, prev, now, s);
      case EmitEvent(ev) =>
        assert SessionOk(st, ev.pos.session);
        EmitKeepsSession(st, ev, s);
      case EndSession(id, clean, now) => StopKeepsSession(st, id, clean, now, s);
    }
  }

  /** A history of operations, each allowed when it is applied. */
  ghost predicate History(ops: seq<Op>) {
    ops == [] || (History(ops[..|ops| - 1]) && Allowed(Live(ops[..|ops| - 1]), ops[|ops| - 1]))
  }

  /** The store after a list of operations; one that is not allowed would be ignored. */
  ghost function Live(ops: seq<Op>): StoreState {
    if ops == [] then StoreState([], map[], map[], map[])
    else
      var st, op := Live(ops[..|ops| - 1]), ops[|ops| - 1];
      if Allowed(st, op) then Apply(st, op) else st
  }

  lemma {:induction false} LiveIsOk(ops: seq<Op>)
    requires History(ops)
    ensures StoreOk(Live(ops))
  {
    hide StoreOk, Apply;
    if ops == [] {
      NewStoreOk();
    } else {
      LiveIsOk(ops[..|ops| - 1]);
      ApplyKeepsStoreOk(Live(ops[..|ops| - 1]), ops[|ops| - 1]);
    }
  }

  // ---------------------------------------------------------------------------------------------
  // Rebuild equals live
  // ---------------------------------------------------------------------------------------------

  lemma {:induction false} SessionEventsCount(evs: seq<Event>, s: SessionId, ev: Event)
    ensures multiset(SessionEvents(evs, s))[ev] == if ev.pos.session == s then multiset(evs)[ev] else 0
  {
    if evs != [] {
      var front, last := evs[..|evs| - 1], evs[|evs| - 1];
      SessionEventsCount(front, s, ev);
      assert evs == front + [last];
    }
  }

  lemma {:induction false} SessionEventsSorted(order: seq<Event>, s: SessionId)
    requires forall i, j :: 0 <= i < j < |order| && order[i].pos.session == order[j].pos.session ==>
               !Before(order[j].pos, order[i].pos)
    ensures forall i, j :: 0 <= i < j < |SessionEvents(order, s)| ==>
              !Before(SessionEvents(order, s)[j].pos, SessionEvents(order, s)[i].pos)
    ensures forall x :: x in SessionEvents(order, s) ==> x in order && x.pos.session == s
  {
    if order != [] {
      var front, last := order[..|order| - 1], order[|order| - 1];
      SessionEventsSorted(front, s);
      forall x | x in front && x.pos.session == last.pos.session ensures !Before(last.pos, x.pos) {
        var i :| 0 <= i < |front| && front[i] == x;
        assert order[i] == x;
      }
    }
  }

  lemma LastIsMaximal(a: seq<Event>, b: seq<Event>)
    requires a != [] && b != [] && Increasing(a) && multiset(a) == multiset(b)
    requires forall i, j :: 0 <= i < j < |b| ==> !Before(b[j].pos, b[i].pos)
    ensures a[|a| - 1] == b[|b| - 1]
  {
    var x, y := a[|a| - 1], b[|b| - 1];
    assert x in multiset(a) && y in multiset(b);
    assert x in b && y in a;
    var i :| 0 <= i < |b| && b[i] == x;
    var j :| 0 <= j < |a| && a[j] == y;
    if i < |b| - 1 {
      assert !Before(y.pos, x.pos);
    }
    if j < |a| - 1 {
      assert Before(y.pos, x.pos);
    }
  }

  lemma DropLast(a: seq<Event>)
    requires a != []
    ensures multiset(a[..|a| - 1]) == multiset(a) - multiset{a[|a| - 1]}
  {
    assert a == a[..|a| - 1] + [a[|a| - 1]];
  }

  /** Two sorted lists of the same events, one of them strictly sorted, are the same list. */
  lemma {:induction false} SortedListsAreEqual(a: seq<Event>, b: seq<Event>)
    requires Increasing(a) && multiset(a) == multiset(b)
    requires forall i, j :: 0 <= i < j < |b| ==> !Before(b[j].pos, b[i].pos)
    ensures a == b
  {
    hide Before;
    assert |a| == |multiset(a)| && |b| == |multiset(b)|;
    if a != [] {
      LastIsMaximal(a, b);
      DropLast(a);
      DropLast(b);
      SortedListsAreEqual(a[..|a| - 1], b[..|b| - 1]);
      assert a == a[..|a| - 1] + [a[|a| - 1]] && b == b[..|b| - 1] + [b[|b| - 1]];
    }
  }

  /** Replaying the sorted journal shows every session its events in their arrival order. */
  lemma ReplayShowsArrivalOrder(journal: seq<Event>, order: seq<Event>, s: SessionId)
    requires ReplayOrder(journal, order) && Increasing(SessionEvents(journal, s))
    ensures SessionEvents(order, s) == SessionEvents(journal, s)
  {
    SessionEventsSorted(order, s);
    forall ev ensures multiset(SessionEvents(order, s))[ev] == multiset(SessionEvents(journal, s))[ev] {
      SessionEventsCount(order, s, ev);
      SessionEventsCount(journal, s, ev);
    }
    SortedListsAreEqual(SessionEvents(journal, s), SessionEvents(order, s));
  }

  lemma EarlierProjects(front: seq<Event>, ev: Event, s: SessionId)
    requires ProjectAll(SessionEvents(front + [ev], s)).Ok?
    ensures ProjectAll(SessionEvents(front, s)).Ok?
    ensures if s == ev.pos.session
            then ProjectAll(SessionEvents(front + [ev], s)) == Project(ProjectAll(SessionEvents(front, s)).value, ev)
            else ProjectAll(SessionEvents(front + [ev], s)) == ProjectAll(SessionEvents(front, s))
  {
    hide Project;
    SessionEventsStep(front, ev, s);
    var evs := SessionEvents(front, s);
    if s == ev.pos.session {
      assert (evs + [ev])[..|evs + [ev]| - 1] == evs;
    } else {
      assert evs + [] == evs;
    }
  }

  /** Sessions do not interact: an interleaved replay projects every session on its own. */
  lemma {:induction false} ReplayIsPerSession(order: seq<Event>)
    requires forall s :: ProjectAll(SessionEvents(order, s)).Ok?
    ensures Replay(order).Ok?
    ensures forall s :: At(Replay(order).value, s) == ProjectAll(SessionEvents(order, s)).value
  {
    hide Project, ProjectAll, SessionEvents;
    if order == [] {
      NothingProjected();
    } else {
      var front, ev := order[..|order| - 1], order[|order| - 1];
      assert order == front + [ev];
      forall s ensures ProjectAll(SessionEvents(front, s)).Ok? {
        EarlierProjects(front, ev, s);
      }
      ReplayIsPerSession(front);
      EarlierProjects(front, ev, ev.pos.session);
      forall s ensures At(Replay(order).value, s) == ProjectAll(SessionEvents(order, s)).value {
        EarlierProjects(front, ev, s);
      }
    }
  }

  lemma NothingProjected()
    ensures forall s :: SessionEvents([], s) == []
    ensures ProjectAll([]) == Ok(EMPTY_TABLES)
  {
  }

  lemma CloseNothing(ending: Ending)
    ensures CloseRows(EMPTY_TABLES, ending) == EMPTY_TABLES
  {
  }

  lemma SettleAt(tables: TableSet, sessions: map<SessionId, Session>, s: SessionId)
    ensures At(Settle(tables, sessions), s)
            == if s in sessions && !sessions[s].status.Running? then CloseRows(At(tables, s), EndingOf(sessions[s]))
                else At(tables, s)
  {
    if s !in tables && s in sessions {
      CloseNothing(EndingOf(sessions[s]));
    }
  }

  /** For any history of sessions, clean, interrupted or crashed, replaying the journal and then closing
      sessions from their rows gives the live tables, whichever order the database picks among ties. */
  lemma RebuildEqualsLive(ops: seq<Op>, order: seq<Event>)
    requires History(ops) && ReplayOrder(Live(ops).journal, order)
    ensures Rebuild(Live(ops).sessions, order).Ok?
    ensures forall s :: At(Rebuild(Live(ops).sessions, order).value, s) == At(Live(ops).tables, s)
  {
    hide Project, ProjectAll, CloseRows, Increasing, Replay, ReplayOrder, Settle;
    var st := Live(ops);
    LiveIsOk(ops);
    forall s
      ensures SessionEvents(order, s) == SessionEvents(st.journal, s) && ProjectAll(SessionEvents(order, s)).Ok?
    {
      assert SessionOk(st, s);
      ReplayShowsArrivalOrder(st.journal, order, s);
    }
    ReplayIsPerSession(order);
    forall s ensures At(Rebuild(st.sessions, order).value, s) == At(st.tables, s) {
      assert SessionOk(st, s);
      SettleAt(Replay(order).value, st.sessions, s);
    }
  }

  /** Rebuilding a rebuilt store changes nothing: the rebuild reads only the journal and session rows. */
  lemma RebuildTwice(ops: seq<Op>, order: seq<Event>, again: seq<Event>)
    requires History(ops) && ReplayOrder(Live(ops).journal, order) && ReplayOrder(Live(ops).journal, again)
    ensures Rebuild(Live(ops).sessions, order).Ok?
    ensures var once := Live(ops).(tables := Rebuild(Live(ops).sessions, order).value);
            StoreOk(once) && Rebuild(once.sessions, again).Ok?
            && forall s :: At(Rebuild(once.sessions, again).value, s) == At(once.tables, s)
  {
    hide Rebuild, ReplayOrder;
    LiveIsOk(ops);
    RebuildEqualsLive(ops, order);
    RebuildEqualsLive(ops, again);
    var once := Live(ops).(tables := Rebuild(Live(ops).sessions, order).value);
    forall s ensures SessionOk(once, s) {
      assert SessionOk(Live(ops), s);
    }
  }
}
