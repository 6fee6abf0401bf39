/** Frame-aligned chunk cuts over a growing journal (accounting_v2.go, frameAlignedCut,
    extendCutToFrameEnd, isFrameComplete). The boundary is captured first; the frame probes then read
    one later snapshot. Journal sequences are one-based positions. */
module Cut {
  import opened Types
  import opened Journal
  import Accounting
  import Engine
  import EngineLog
  import EngineRuns
  import Evidence

  predicate SameFrame(a: Event, b: Event) {
    a.pos.session == b.pos.session && a.pos.frame == b.pos.frame
  }

  /** MAX(journal_sequence) of the frame of `ev`; 0 when it has no event. */
  function FrameEnd(journal: seq<Event>, ev: Event): nat {
    if journal == [] then 0
    else if SameFrame(journal[|journal| - 1], ev) then |journal|
    else FrameEnd(journal[..|journal| - 1], ev)
  }

  /** MIN(journal_sequence) of the frame of `ev`; 0 when it has no event. */
  function FrameStart(journal: seq<Event>, ev: Event): nat {
    if journal == [] then 0
    else
      var earlier := FrameStart(journal[..|journal| - 1], ev);
      if earlier > 0 then earlier else if SameFrame(journal[|journal| - 1], ev) then |journal| else 0
  }

  lemma {:induction false} FrameEndIsLast(journal: seq<Event>, ev: Event)
    ensures FrameEnd(journal, ev) <= |journal|
    ensures FrameEnd(journal, ev) > 0 ==> SameFrame(journal[FrameEnd(journal, ev) - 1], ev)
    ensures forall i :: FrameEnd(journal, ev) <= i < |journal| ==> !SameFrame(journal[i], ev)
  {
    if journal != [] {
      FrameEndIsLast(journal[..|journal| - 1], ev);
    }
  }

  lemma {:induction false} FrameStartIsFirst(journal: seq<Event>, ev: Event)
    ensures FrameStart(journal, ev) <= |journal|
    ensures FrameStart(journal, ev) > 0 ==> SameFrame(journal[FrameStart(journal, ev) - 1], ev)
    ensures forall i :: 0 <= i < |journal| && SameFrame(journal[i], ev) ==> 0 < FrameStart(journal, ev) <= i + 1
  {
    if journal != [] {
      FrameStartIsFirst(journal[..|journal| - 1], ev);
    }
  }

  /** The newer-evidence query, with its second disjunct exactly as written. */
  predicate HasNewer(journal: seq<Event>, ev: Event, boundary: nat) {
    exists i :: 0 <= i < |journal| && i + 1 <= boundary
                && ((journal[i].pos.session == ev.pos.session && journal[i].pos.frame > ev.pos.frame)
                    || (journal[i].pos.session != ev.pos.session && i + 1 > boundary))
  }

  predicate HasResidual(journal: seq<Event>, ev: Event, boundary: nat) {
    exists i :: 0 <= i < |journal| && i + 1 <= boundary && SameFrame(journal[i], ev)
        && journal[i].body.typ.SamplingResidual?
  }

  predicate StillRunning(sessions: map<SessionId, Session>, s: SessionId) {
    s in sessions && sessions[s].status.Running?
  }

  predicate IsFrameComplete(journal: seq<Event>, sessions: map<SessionId, Session>, ev: Event, boundary: nat) {
    || HasNewer(journal, ev, boundary)
    || !StillRunning(sessions, ev.pos.session)
    || HasResidual(journal, ev, boundary)
  }

  function BeforeFrame(journal: seq<Event>, ev: Event): nat {
    if FrameStart(journal, ev) > 0 then FrameStart(journal, ev) - 1 else 0
  }

  function ExtendCutToFrameEnd(journal: seq<Event>, sessions: map<SessionId, Session>, candidate: nat,
                               boundary: nat): nat
  {
    if candidate == 0 || candidate > |journal| then boundary
    else
      var ev := journal[candidate - 1];
      var end := FrameEnd(journal, ev);
      if end > boundary then BeforeFrame(journal, ev)
      else if !IsFrameComplete(journal, sessions, ev, boundary) then BeforeFrame(journal, ev)
      else end
  }

  function FrameAlignedCut(journal: seq<Event>, sessions: map<SessionId, Session>, from: nat, boundary: nat,
                           maxEvents: nat): nat
  {
    var candidate := Min(from + maxEvents, boundary);
    if candidate <= from then from
    else Max(ExtendCutToFrameEnd(journal, sessions, candidate, boundary), from)
  }

  // ---------------------------------------------------------------------------------------------
  // What journals look like
  // ---------------------------------------------------------------------------------------------

  /** One live writer session at a time, frames in order within a session, and frames sealed by their residual. */
  ghost predicate WellFormed(journal: seq<Event>) {
    && (forall i, j, k :: 0 <= i < j < k < |journal| && journal[i].pos.session == journal[k].pos.session
                          ==> journal[j].pos.session == journal[i].pos.session)
    && (forall i, j :: 0 <= i < j < |journal| && journal[i].pos.session == journal[j].pos.session
                       ==> journal[i].pos.frame <= journal[j].pos.frame)
    && (forall i, j :: 0 <= i < j < |journal| && SameFrame(journal[i], journal[j])
                       && journal[i].body.typ.SamplingResidual?
                       ==> journal[j].body.conn.None?)
  }

  /** A session may still write after a snapshot that shows it running, or that has nothing of it yet. */
  predicate MayWrite(journal: seq<Event>, sessions: map<SessionId, Session>, s: SessionId) {
    StillRunning(sessions, s) || forall ev :: ev in journal ==> ev.pos.session != s
  }

  /** `later` is what the journal may become after the snapshot. */
  ghost predicate Grows(snapshot: seq<Event>, sessions: map<SessionId, Session>, later: seq<Event>) {
    && snapshot <= later && WellFormed(later)
    && forall i :: |snapshot| <= i < |later| ==> MayWrite(snapshot, sessions, later[i].pos.session)
  }

  /** What journal and session rows may become: a stopped session never runs again. */
  ghost predicate Evolves(journal: seq<Event>, sessions: map<SessionId, Session>,
                          journal': seq<Event>, sessions': map<SessionId, Session>) {
    && journal <= journal'
    && (forall i :: |journal| <= i < |journal'| ==> MayWrite(journal, sessions, journal'[i].pos.session))
    && (forall s :: s in sessions' && sessions'[s].status.Running? ==> MayWrite(journal, sessions, s))
  }

  lemma EvolvesFurther(a: seq<Event>, sa: map<SessionId, Session>, b: seq<Event>, sb: map<SessionId, Session>,
                       c: seq<Event>, sc: map<SessionId, Session>)
    requires Evolves(a, sa, b, sb) && Evolves(b, sb, c, sc)
    ensures Evolves(a, sa, c, sc)
  {
    forall s | MayWrite(b, sb, s) ensures MayWrite(a, sa, s) {
      if !StillRunning(sb, s) {
        assert forall ev :: ev in a ==> ev in b;
      }
    }
    assert forall i :: |a| <= i < |b| ==> c[i] == b[i];
  }

  /** All connection events of a frame lie on one side of the cut. */
  ghost predicate Aligned(journal: seq<Event>, cut: nat) {
    forall i, j :: 0 <= i < cut <= j < |journal| && SameFrame(journal[i], journal[j])
                   ==> journal[i].body.conn.None? || journal[j].body.conn.None?
  }

  // ---------------------------------------------------------------------------------------------
  // Engine journals
  // ---------------------------------------------------------------------------------------------

  ghost predicate Disjoint(a: seq<Event>, b: seq<Event>) {
    forall x, y :: x in a && y in b ==> x.pos.session != y.pos.session
  }

  lemma SameSide(a: seq<Event>, b: seq<Event>, i: nat, j: nat)
    requires Disjoint(a, b) && i <= j < |a + b| && (a + b)[i].pos.session == (a + b)[j].pos.session
    ensures || (j < |a| && (a + b)[i] == a[i] && (a + b)[j] == a[j])
            || (i >= |a| && (a + b)[i] == b[i - |a|] && (a + b)[j] == b[j - |a|])
  {
    forall x, y | 0 <= x < |a| && 0 <= y < |b| ensures a[x].pos.session != b[y].pos.session {
      assert a[x] in a && b[y] in b;
    }
  }

  /** One session's log after another's. */
  lemma ConcatIsWellFormed(a: seq<Event>, b: seq<Event>)
    requires WellFormed(a) && WellFormed(b) && Disjoint(a, b)
    ensures WellFormed(a + b)
  {
    hide Disjoint;
    var c := a + b;
    forall i, j, k | 0 <= i < j < k < |c| && c[i].pos.session == c[k].pos.session
      ensures c[j].pos.session == c[i].pos.session
    {
      SameSide(a, b, i, k);
      assert c[j] == if j < |a| then a[j] else b[j - |a|];
    }
    forall i, j | 0 <= i < j < |c| && c[i].pos.session == c[j].pos.session ensures c[i].pos.frame <= c[j].pos.frame {
      SameSide(a, b, i, j);
    }
    forall i, j | 0 <= i < j < |c| && SameFrame(c[i], c[j]) && c[i].body.typ.SamplingResidual?
      ensures c[j].body.conn.None?
    {
      SameSide(a, b, i, j);
    }
  }

  lemma {:induction false} ForeignFrameTime(a: seq<Event>, b: seq<Event>, session: SessionId, epoch: nat)
    ensures (forall x :: x in b ==> x.pos.session != session) ==>
              Evidence.FrameTime(a + b, session, epoch) == Evidence.FrameTime(a, session, epoch)
    ensures (forall x :: x in a ==> x.pos.session != session) ==>
              Evidence.FrameTime(a + b, session, epoch) == Evidence.FrameTime(b, session, epoch)
  {
    if b == [] {
      assert a + b == a;
      if forall x :: x in a ==> x.pos.session != session {
        NoFrameTime(a, session, epoch);
      }
    } else {
      var front, last := b[..|b| - 1], b[|b| - 1];
      assert b == front + [last] && (a + b)[..|a + b| - 1] == a + front && last in b;
      ForeignFrameTime(a, front, session, epoch);
    }
  }

  lemma {:induction false} NoFrameTime(a: seq<Event>, session: SessionId, epoch: nat)
    requires forall x :: x in a ==> x.pos.session != session
    ensures Evidence.FrameTime(a, session, epoch) == ZERO_TIME
  {
    if a != [] {
      assert a[|a| - 1] in a;
      NoFrameTime(a[..|a| - 1], session, epoch);
    }
  }

  lemma {:induction false} ConcatIsFrameOrdered(a: seq<Event>, b: seq<Event>)
    requires Evidence.FrameOrdered(a) && Evidence.FrameOrdered(b) && Disjoint(a, b)
    ensures Evidence.FrameOrdered(a + b)
  {
    if b == [] {
      assert a + b == a;
    } else {
      var front, last := b[..|b| - 1], b[|b| - 1];
      assert b == front + [last] && (a + b)[..|a + b| - 1] == a + front && last in b;
      ConcatIsFrameOrdered(a, front);
      ForeignFrameTime(a, front, last.pos.session, last.pos.epoch);
    }
  }

  /** One collector session: its identifier, when its engine was created, and what the engine was fed. */
  datatype CollectorRun = CollectorRun(session: SessionId, created: Time, items: seq<Engine.Item>)

  ghost function LogOf(run: CollectorRun): seq<Event> {
    Engine.RunFrom(Engine.NewEngine(run.session, run.created), run.items).log
  }

  ghost function JoinedLogs(runs: seq<CollectorRun>): seq<Event> {
    if runs == [] then [] else JoinedLogs(runs[..|runs| - 1]) + LogOf(runs[|runs| - 1])
  }

  ghost predicate DistinctSessions(runs: seq<CollectorRun>) {
    forall i, j :: 0 <= i < j < |runs| ==> runs[i].session != runs[j].session
  }

  lemma LogIsWellFormed(run: CollectorRun)
    requires EngineRuns.SaneItems(run.items)
    ensures WellFormed(LogOf(run)) && forall ev :: ev in LogOf(run) ==> ev.pos.session == run.session
  {
    hide Engine.RunFrom, EngineRuns.SaneItems, EngineLog.Dated, EngineLog.ProperLog;
    EngineLog.RunsAreOrdered(run.session, run.created, run.items);
    var log := LogOf(run);
    forall i | 0 <= i < |log| ensures log[i].pos.session == run.session {
      assert log[i] in log;
    }
  }

  lemma {:induction false} JoinedSessions(runs: seq<CollectorRun>)
    requires forall run :: run in runs ==> EngineRuns.SaneItems(run.items)
    ensures forall ev :: ev in JoinedLogs(runs) ==> exists run :: run in runs && run.session == ev.pos.session
  {
    hide EngineRuns.SaneItems, LogOf, WellFormed;
    if runs != [] {
      var front, last := runs[..|runs| - 1], runs[|runs| - 1];
      assert runs == front + [last] && last in runs;
      JoinedSessions(front);
      LogIsWellFormed(last);
      forall ev | ev in JoinedLogs(runs) ensures exists run :: run in runs && run.session == ev.pos.session {
        if ev in JoinedLogs(front) {
          var run :| run in front && run.session == ev.pos.session;
          assert run in runs;
        }
      }
    }
  }

  lemma PrefixIsWellFormed(journal: seq<Event>, n: nat)
    requires WellFormed(journal) && n <= |journal|
    ensures WellFormed(journal[..n])
  {
  }

  /** Every prefix of the logs of any number of collector sessions, one after another, is a well-formed
      journal whose traffic is proper; when each session's frames arrive in time order it is sound for
      accounting as well. */
  lemma {:induction false} EngineJournals(runs: seq<CollectorRun>, n: nat)
    requires DistinctSessions(runs) && forall run :: run in runs ==> EngineRuns.SaneItems(run.items)
    requires n <= |JoinedLogs(runs)|
    ensures WellFormed(JoinedLogs(runs)[..n]) && EngineLog.ProperLog(JoinedLogs(runs)[..n])
    ensures (forall run :: run in runs ==> EngineLog.TimesAscend(ZERO_TIME, run.items)) ==>
              Accounting.Sound(JoinedLogs(runs)[..n])
  {
    hide EngineRuns.SaneItems, EngineLog.TimesAscend, Accounting.Sound, WellFormed, JoinedLogs;
    JoinedAreWellFormed(runs);
    JoinedAreProper(runs);
    PrefixIsWellFormed(JoinedLogs(runs), n);
    if forall run :: run in runs ==> EngineLog.TimesAscend(ZERO_TIME, run.items) {
      JoinedAreSound(runs);
      Accounting.SoundPrefix(JoinedLogs(runs), n);
    }
  }

  lemma {:induction false} JoinedAreWellFormed(runs: seq<CollectorRun>)
    requires DistinctSessions(runs) && forall run :: run in runs ==> EngineRuns.SaneItems(run.items)
    ensures WellFormed(JoinedLogs(runs))
  {
    hide EngineRuns.SaneItems, LogOf, WellFormed;
    if runs == [] {
      NothingIsWellFormed();
    } else {
      var front, last := runs[..|runs| - 1], runs[|runs| - 1];
      assert last in runs;
      JoinedAreWellFormed(front);
      LogIsWellFormed(last);
      JoinedAreDisjoint(runs);
      ConcatIsWellFormed(JoinedLogs(front), LogOf(last));
    }
  }

  lemma {:induction false} JoinedAreProper(runs: seq<CollectorRun>)
    requires forall run :: run in runs ==> EngineRuns.SaneItems(run.items)
    ensures EngineLog.ProperLog(JoinedLogs(runs))
  {
    hide EngineRuns.SaneItems, Engine.RunFrom, EngineLog.Dated, EngineLog.Positioned;
    if runs != [] {
      var last := runs[|runs| - 1];
      assert last in runs;
      JoinedAreProper(runs[..|runs| - 1]);
      EngineLog.RunsAreOrdered(last.session, last.created, last.items);
    }
  }

  lemma JoinedAreDisjoint(runs: seq<CollectorRun>)
    requires runs != [] && DistinctSessions(runs) && forall run :: run in runs ==> EngineRuns.SaneItems(run.items)
    ensures Disjoint(JoinedLogs(runs[..|runs| - 1]), LogOf(runs[|runs| - 1]))
  {
    hide EngineRuns.SaneItems, LogOf, JoinedLogs, WellFormed;
    var front, last := runs[..|runs| - 1], runs[|runs| - 1];
    JoinedSessions(front);
    LogIsWellFormed(last);
    forall x, y | x in JoinedLogs(front) && y in LogOf(last) ensures x.pos.session != y.pos.session {
      var run :| run in front && run.session == x.pos.session;
    }
  }

  lemma NothingIsWellFormed()
    ensures WellFormed([]) && Accounting.Sound([])
  {
  }

  lemma {:induction false} JoinedAreSound(runs: seq<CollectorRun>)
    requires DistinctSessions(runs) && forall run :: run in runs ==> EngineRuns.SaneItems(run.items)
    requires forall run :: run in runs ==> EngineLog.TimesAscend(ZERO_TIME, run.items)
    ensures Accounting.Sound(JoinedLogs(runs))
  {
    hide EngineRuns.SaneItems, EngineLog.TimesAscend, Engine.RunFrom, Evidence.FrameOrdered;
    if runs == [] {
      NothingIsWellFormed();
    } else {
      var front, last := runs[..|runs| - 1], runs[|runs| - 1];
      assert last in runs;
      JoinedAreSound(front);
      EngineLog.RunsAreSound(last.session, last.created, last.items);
      JoinedAreDisjoint(runs);
      ConcatIsFrameOrdered(JoinedLogs(front), LogOf(last));
    }
  }

  // ---------------------------------------------------------------------------------------------
  // The store's own history
  // ---------------------------------------------------------------------------------------------

  lemma StoreStepEvolves(st: StoreState, op: Op)
    requires StoreOk(st) && Allowed(st, op)
    ensures Evolves(st.journal, st.sessions, Apply(st, op).journal, Apply(st, op).sessions)
  {
    hide Ingest, Projector.Project, Projector.CloseRows, IsLatestOther;
    match op
    case BeginSession(id, _, _) =>
      assert SessionOk(st, id);
      if id !in st.sessions {
        NothingWritten(st.journal, id);
      }
    case EmitEvent(_) =>
    case EndSession(_, _, _) =>
  }

  lemma {:induction false} NothingWritten(evs: seq<Event>, s: SessionId)
    requires SessionEvents(evs, s) == []
    ensures forall ev :: ev in evs ==> ev.pos.session != s
  {
    if evs != [] {
      NothingWritten(evs[..|evs| - 1], s);
      assert evs == evs[..|evs| - 1] + [evs[|evs| - 1]];
    }
  }

  /** Between any two moments of an allowed history the store evolves: the journal is appended to by
      running sessions only, and no stopped session runs again. */
  lemma {:induction false} HistoriesEvolve(ops: seq<Op>, n: nat)
    requires History(ops) && n <= |ops|
    ensures Evolves(Live(ops[..n]).journal, Live(ops[..n]).sessions, Live(ops).journal, Live(ops).sessions)
    decreases |ops| - n
  {
    hide Evolves, Apply, Allowed, StoreOk;
    if n == |ops| {
      assert ops[..n] == ops;
      NothingEvolves(Live(ops).journal, Live(ops).sessions);
    } else {
      var a, b := ops[..n], ops[..n + 1];
      PrefixIsHistory(ops, n + 1);
      assert b[..|b| - 1] == a;
      LiveIsOk(a);
      StoreStepEvolves(Live(a), ops[n]);
      HistoriesEvolve(ops, n + 1);
      EvolvesFurther(Live(a).journal, Live(a).sessions, Live(b).journal, Live(b).sessions, Live(ops).journal,
                     Live(ops).sessions);
    }
  }

  lemma {:induction false} PrefixIsHistory(ops: seq<Op>, n: nat)
    requires History(ops) && n <= |ops|
    ensures History(ops[..n])
  {
    if n == |ops| {
      assert ops[..n] == ops;
    } else {
      assert ops[..|ops| - 1][..n] == ops[..n];
      PrefixIsHistory(ops[..|ops| - 1], n);
    }
  }

  lemma NothingEvolves(journal: seq<Event>, sessions: map<SessionId, Session>)
    ensures Evolves(journal, sessions, journal, sessions)
  {
  }

  // ---------------------------------------------------------------------------------------------
  // A cut never splits a frame
  // ---------------------------------------------------------------------------------------------

  /** Frames are contiguous: what lies between two events of a frame belongs to it. */
  lemma FramesAreContiguous(journal: seq<Event>, i: nat, j: nat, k: nat)
    requires WellFormed(journal) && i <= j <= k < |journal| && SameFrame(journal[i], journal[k])
    ensures SameFrame(journal[i], journal[j])
  {
  }

  /** Cutting right after the last event a complete frame has so far. */
  lemma CutAfterCompleteFrame(snapshot: seq<Event>, sessions: map<SessionId, Session>, later: seq<Event>, ev: Event,
                              boundary: nat)
    requires Grows(snapshot, sessions, later) && ev in snapshot
    requires FrameEnd(snapshot, ev) <= boundary <= |snapshot| && IsFrameComplete(snapshot, sessions, ev, boundary)
    ensures 0 < FrameEnd(snapshot, ev) && Aligned(later, FrameEnd(snapshot, ev))
  {
    hide IsFrameComplete, WellFormed, MayWrite;
    var end := FrameEnd(snapshot, ev);
    FrameEndIsLast(snapshot, ev);
    assert end > 0 && SameFrame(later[end - 1], ev);
    forall i, j | 0 <= i < end <= j < |later| && SameFrame(later[i], later[j])
      ensures later[i].body.conn.None? || later[j].body.conn.None?
    {
      FramesAreContiguous(later, i, end - 1, j);
      LateEventCarriesNoConnection(snapshot, sessions, later, ev, boundary, j);
    }
  }

  /** Whatever a complete frame still gets after its last event so far is no connection event. */
  lemma LateEventCarriesNoConnection(snapshot: seq<Event>, sessions: map<SessionId, Session>, later: seq<Event>,
                                     ev: Event, boundary: nat, j: nat)
    requires Grows(snapshot, sessions, later) && ev in snapshot && IsFrameComplete(snapshot, sessions, ev, boundary)
    requires FrameEnd(snapshot, ev) <= boundary <= |snapshot|
    requires FrameEnd(snapshot, ev) <= j < |later| && SameFrame(later[j], ev)
    ensures later[j].body.conn.None?
  {
    FrameEndIsLast(snapshot, ev);
    assert j >= |snapshot| && MayWrite(snapshot, sessions, later[j].pos.session);
    forall i | 0 <= i < |snapshot| && snapshot[i].pos.session == ev.pos.session
      ensures snapshot[i].pos.frame <= ev.pos.frame
    {
      assert later[i] == snapshot[i];
    }
    assert !HasNewer(snapshot, ev, boundary);
    var i :| 0 <= i < |snapshot| && i + 1 <= boundary && SameFrame(snapshot[i], ev)
        && snapshot[i].body.typ.SamplingResidual?;
    assert later[i] == snapshot[i];
  }

  /** Two events with a foreign one between them are not of the same frame. */
  lemma NoStraddle(journal: seq<Event>, i: nat, m: nat, j: nat)
    requires WellFormed(journal) && i <= m <= j < |journal| && !SameFrame(journal[i], journal[m])
    ensures !SameFrame(journal[i], journal[j])
  {
  }

  /** Cutting right before the first event of a frame. */
  lemma CutBeforeFrame(snapshot: seq<Event>, later: seq<Event>, ev: Event)
    requires snapshot <= later && WellFormed(later) && ev in snapshot
    ensures Aligned(later, BeforeFrame(snapshot, ev))
  {
    var first := FrameStart(snapshot, ev);
    FrameStartIsFirst(snapshot, ev);
    assert first > 0 && SameFrame(later[first - 1], ev);
    forall i, j | 0 <= i < first - 1 <= j < |later| ensures !SameFrame(later[i], later[j]) {
      assert snapshot[i] == later[i] && !SameFrame(snapshot[i], ev);
      NoStraddle(later, i, first - 1, j);
    }
  }

  /** A published cut never splits a frame's evidence: for every journal that keeps growing after the
      boundary was captured and probed, all connection events a frame will ever have lie on one side. */
  lemma CutNeverSplitsFrame(snapshot: seq<Event>, sessions: map<SessionId, Session>, later: seq<Event>,
                            from: nat, boundary: nat, maxEvents: nat)
    requires Grows(snapshot, sessions, later) && from <= boundary <= |snapshot|
    requires Aligned(later, from)
    ensures var to := FrameAlignedCut(snapshot, sessions, from, boundary, maxEvents);
            from <= to <= boundary && Aligned(later, to)
  {
    hide Aligned, WellFormed, IsFrameComplete;
    var candidate := Min(from + maxEvents, boundary);
    if candidate > from {
      var ev := snapshot[candidate - 1];
      assert ev in snapshot;
      FrameEndIsLast(snapshot, ev);
      FrameStartIsFirst(snapshot, ev);
      if FrameEnd(snapshot, ev) <= boundary && IsFrameComplete(snapshot, sessions, ev, boundary) {
        CutAfterCompleteFrame(snapshot, sessions, later, ev, boundary);
      } else {
        CutBeforeFrame(snapshot, later, ev);
      }
    }
  }

  lemma CutWithinBoundary(journal: seq<Event>, sessions: map<SessionId, Session>, from: nat, boundary: nat,
                          maxEvents: nat)
    requires from <= boundary <= |journal|
    ensures from <= FrameAlignedCut(journal, sessions, from, boundary, maxEvents) <= boundary
  {
    hide IsFrameComplete;
    var candidate := Min(from + maxEvents, boundary);
    if candidate > from {
      FrameStartIsFirst(journal, journal[candidate - 1]);
    }
  }

  /** The newer-evidence query only ever finds a newer frame of the same session within the boundary: its
      second disjunct, meant for events of a later session, asks for a sequence both above and within the
      boundary. */
  lemma HasNewerIff(journal: seq<Event>, ev: Event, boundary: nat)
    ensures HasNewer(journal, ev, boundary)
            <==> exists i :: 0 <= i < |journal| && i < boundary && journal[i].pos.session == ev.pos.session
                             && journal[i].pos.frame > ev.pos.frame
  {
  }

  /** The frame can gain no more connection events: its session does not run any more, or the journal already shows,
      within the boundary, its residual or a later frame of the session. */
  ghost predicate Finished(journal: seq<Event>, sessions: map<SessionId, Session>, ev: Event, boundary: nat) {
    || ev.pos.session !in sessions || sessions[ev.pos.session].status != Running
    || exists i :: 0 <= i < |journal| && i < boundary && Finishes(journal[i], ev)
  }

  predicate Finishes(later: Event, ev: Event) {
    && later.pos.session == ev.pos.session
    && (later.pos.frame > ev.pos.frame || (later.pos.frame == ev.pos.frame && later.body.typ == SamplingResidual))
  }

  lemma CompleteIff(journal: seq<Event>, sessions: map<SessionId, Session>, ev: Event, boundary: nat)
    ensures IsFrameComplete(journal, sessions, ev, boundary) <==> Finished(journal, sessions, ev, boundary)
  {
    hide HasNewer;
    HasNewerIff(journal, ev, boundary);
    if i :| 0 <= i < |journal| && i < boundary && Finishes(journal[i], ev) {
      assert journal[i].pos.frame > ev.pos.frame || SameFrame(journal[i], ev);
    }
    if HasResidual(journal, ev, boundary) {
      var i :| 0 <= i < |journal| && i + 1 <= boundary && SameFrame(journal[i], ev)
               && journal[i].body.typ.SamplingResidual?;
      assert Finishes(journal[i], ev);
    }
    if HasNewer(journal, ev, boundary) {
      var i :| 0 <= i < |journal| && i < boundary && journal[i].pos.session == ev.pos.session
               && journal[i].pos.frame > ev.pos.frame;
      assert Finishes(journal[i], ev);
    }
  }

  /** No event of the frame stands at or behind `from`. */
  predicate NoneFrom(journal: seq<Event>, ev: Event, from: nat) {
    forall j :: from <= j < |journal| ==> !SameFrame(journal[j], ev)
  }

  /** No event of the frame stands before `to`. */
  predicate NoneUntil(journal: seq<Event>, ev: Event, to: nat) {
    forall j :: 0 <= j < |journal| && j < to ==> !SameFrame(journal[j], ev)
  }

  /** The cut makes progress exactly when the frame at the candidate is finished and lies within the boundary,
      or begins after the next event. */
  lemma CutProgressesIff(snapshot: seq<Event>, sessions: map<SessionId, Session>, from: nat, boundary: nat,
                         maxEvents: nat)
    requires from < boundary <= |snapshot| && maxEvents > 0
    ensures var ev := snapshot[Min(from + maxEvents, boundary) - 1];
            FrameAlignedCut(snapshot, sessions, from, boundary, maxEvents) > from
            <==> (NoneFrom(snapshot, ev, boundary) && Finished(snapshot, sessions, ev, boundary))
                 || NoneUntil(snapshot, ev, from + 1)
  {
    hide IsFrameComplete, Finished;
    var candidate := Min(from + maxEvents, boundary);
    var ev := snapshot[candidate - 1];
    FrameEndIsLast(snapshot, ev);
    FrameStartIsFirst(snapshot, ev);
    assert SameFrame(snapshot[candidate - 1], ev);
    CompleteIff(snapshot, sessions, ev, boundary);
    EndsBefore(snapshot, ev, boundary);
    StartsAfter(snapshot, ev, from + 1);
  }

  lemma EndsBefore(journal: seq<Event>, ev: Event, boundary: nat)
    ensures FrameEnd(journal, ev) <= boundary <==> NoneFrom(journal, ev, boundary)
  {
    FrameEndIsLast(journal, ev);
  }

  lemma StartsAfter(journal: seq<Event>, ev: Event, to: nat)
    requires ev in journal
    ensures FrameStart(journal, ev) > to <==> NoneUntil(journal, ev, to)
  {
    FrameStartIsFirst(journal, ev);
    var i :| 0 <= i < |journal| && journal[i] == ev;
    assert SameFrame(journal[i], ev);
  }

  // ---------------------------------------------------------------------------------------------
  // Chains of cuts
  // ---------------------------------------------------------------------------------------------

  /** What one cut computation saw: the boundary it captured, and the journal and sessions it then probed. */
  datatype Probe = Probe(journal: seq<Event>, sessions: map<SessionId, Session>, boundary: nat, maxEvents: nat)

  /** Each chunk ends at the cut of its own probe; the first one starts at zero. */
  function CutAfter(probes: seq<Probe>): nat {
    if probes == [] then 0
    else
      var p := probes[|probes| - 1];
      FrameAlignedCut(p.journal, p.sessions, CutAfter(probes[..|probes| - 1]), p.boundary, p.maxEvents)
  }

  /** Every probe looked at an earlier state of the journal, within a boundary not behind its start. */
  ghost predicate ProbedBefore(probes: seq<Probe>, later: seq<Event>) {
    && (forall p :: p in probes ==> p.boundary <= |p.journal| && Grows(p.journal, p.sessions, later))
    && (forall i :: 0 <= i < |probes| ==> CutAfter(probes[..i]) <= probes[i].boundary)
  }

  /** Whatever the chunk sizes and however the journal grew between them, no cut of the chain splits a frame. */
  lemma {:induction false} CutChainNeverSplits(probes: seq<Probe>, later: seq<Event>)
    requires ProbedBefore(probes, later)
    ensures Aligned(later, CutAfter(probes)) && CutAfter(probes) <= |later|
  {
    hide Grows, Aligned, FrameAlignedCut;
    if probes == [] {
      NothingSplitsAtZero(later);
    } else {
      var front, p := probes[..|probes| - 1], probes[|probes| - 1];
      assert p in probes;
      forall i | 0 <= i < |front| ensures CutAfter(front[..i]) <= front[i].boundary {
        assert front[..i] == probes[..i];
      }
      CutChainNeverSplits(front, later);
      GrownIsLonger(p.journal, p.sessions, later);
      CutNeverSplitsFrame(p.journal, p.sessions, later, CutAfter(front), p.boundary, p.maxEvents);
    }
  }

  lemma NothingSplitsAtZero(journal: seq<Event>)
    ensures Aligned(journal, 0)
  {
  }

  lemma GrownIsLonger(snapshot: seq<Event>, sessions: map<SessionId, Session>, later: seq<Event>)
    requires Grows(snapshot, sessions, later)
    ensures |snapshot| <= |later|
  {
  }

  // ---------------------------------------------------------------------------------------------
  // Reaching a fixed boundary
  // ---------------------------------------------------------------------------------------------

  /** The last chunk of a fixed range reaches its boundary exactly when the frame there is complete and
      ends there. */
  lemma CutReachesBoundaryIff(journal: seq<Event>, sessions: map<SessionId, Session>, from: nat, boundary: nat,
                              maxEvents: nat)
    requires from < boundary <= |journal| && maxEvents > 0
    ensures var ev := journal[boundary - 1];
            FrameAlignedCut(journal, sessions, from, boundary, maxEvents) == boundary
            <==> NoneFrom(journal, ev, boundary) && Finished(journal, sessions, ev, boundary)
                 && (from + maxEvents >= boundary || SameFrame(journal[from + maxEvents - 1], ev))
  {
    hide IsFrameComplete, Finished;
    var candidate := Min(from + maxEvents, boundary);
    var ev, last := journal[candidate - 1], journal[boundary - 1];
    FrameEndIsLast(journal, ev);
    FrameEndIsLast(journal, last);
    FrameStartIsFirst(journal, ev);
    CompleteIff(journal, sessions, last, boundary);
    EndsBefore(journal, last, boundary);
    if SameFrame(ev, last) {
      SameFrameEnds(journal, ev, last);
      CompleteTogether(journal, sessions, ev, last, boundary);
    }
  }

  /** Once nothing runs any more, one chunk that is large enough takes in the whole rest of the journal. */
  lemma StoppedJournalDrains(journal: seq<Event>, sessions: map<SessionId, Session>, from: nat, maxEvents: nat)
    requires from < |journal| <= from + maxEvents
    requires forall s :: s in sessions ==> sessions[s].status != Running
    ensures FrameAlignedCut(journal, sessions, from, |journal|, maxEvents) == |journal|
  {
    CutReachesBoundaryIff(journal, sessions, from, |journal|, maxEvents);
  }

  lemma {:induction false} SameFrameEnds(journal: seq<Event>, a: Event, b: Event)
    requires SameFrame(a, b)
    ensures FrameEnd(journal, a) == FrameEnd(journal, b)
  {
    if journal != [] {
      SameFrameEnds(journal[..|journal| - 1], a, b);
    }
  }

  lemma CompleteTogether(journal: seq<Event>, sessions: map<SessionId, Session>, a: Event, b: Event, boundary: nat)
    requires SameFrame(a, b)
    ensures IsFrameComplete(journal, sessions, a, boundary) <==> IsFrameComplete(journal, sessions, b, boundary)
  {
  }

  /** A fixed boundary with a later event of its last frame behind it, as a seed may have captured it, is
      never reached: not now, not in any longer journal, whatever the chunk size. */
  lemma SplitBoundaryIsNeverReached(journal: seq<Event>, later: seq<Event>, sessions: map<SessionId, Session>,
                                    from: nat, boundary: nat, maxEvents: nat)
    requires from < boundary <= |journal| && journal <= later && maxEvents > 0
    requires FrameEnd(journal, journal[boundary - 1]) > boundary
    ensures FrameAlignedCut(later, sessions, from, boundary, maxEvents) != boundary
  {
    var ev := journal[boundary - 1];
    FrameEndIsLast(journal, ev);
    FrameEndIsLast(later, ev);
    assert SameFrame(later[FrameEnd(journal, ev) - 1], ev);
    CutReachesBoundaryIff(later, sessions, from, boundary, maxEvents);
  }
}
