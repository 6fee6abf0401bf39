/** Journals of whole deployments: any history of collector sessions on one store, begun one after
    another, each fed by an engine and ended cleanly, interrupted or cut off anywhere. */
module EngineHistories {
  import opened Types
  import opened Evidence
  import opened Journal
  import opened Cut
  import Accounting
  import Closure
  import EngineLog
  import EngineRuns
  import EventLog
  import Intervals

  // ---------------------------------------------------------------------------------------------
  // One writer at a time
  // ---------------------------------------------------------------------------------------------

  /** Every session begins later than all sessions before it. */
  ghost predicate StartsAscend(ops: seq<Op>) {
    ops == []
    || var before, op := ops[..|ops| - 1], ops[|ops| - 1];
       && StartsAscend(before)
       && (op.BeginSession? ==> forall s :: s in Live(before).sessions ==> Live(before).sessions[s].startedAt < op.now)
  }

  ghost predicate Contiguous(journal: seq<Event>) {
    forall i, j, k :: 0 <= i < j < k < |journal| && journal[i].pos.session == journal[k].pos.session
                      ==> journal[j].pos.session == journal[i].pos.session
  }

  /** The running session is the only one, the latest to have begun, and the last to have written. */
  ghost predicate SoleWriter(st: StoreState, w: SessionId) {
    && w in st.sessions
    && (forall s :: s in st.sessions && s != w ==>
          !st.sessions[s].status.Running? && st.sessions[s].startedAt < st.sessions[w].startedAt)
    && (forall i :: 0 <= i < |st.journal| && st.journal[i].pos.session == w ==>
          st.journal[|st.journal| - 1].pos.session == w)
  }

  ghost predicate OneWriter(st: StoreState) {
    Contiguous(st.journal) && forall w :: w in st.sessions && st.sessions[w].status.Running? ==> SoleWriter(st, w)
  }

  lemma AppendIsContiguous(journal: seq<Event>, ev: Event)
    requires Contiguous(journal)
    requires forall i :: 0 <= i < |journal| && journal[i].pos.session == ev.pos.session ==>
                           journal[|journal| - 1].pos.session == ev.pos.session
    ensures Contiguous(journal + [ev])
  {
    var longer := journal + [ev];
    forall i, j, k | 0 <= i < j < k < |longer| && longer[i].pos.session == longer[k].pos.session
      ensures longer[j].pos.session == longer[i].pos.session
    {
      if k == |journal| && j < |journal| - 1 {
        assert journal[|journal| - 1].pos.session == journal[i].pos.session;
      }
    }
  }

  lemma EmitKeepsOneWriter(st: StoreState, ev: Event)
    requires OneWriter(st) && Allowed(st, EmitEvent(ev))
    ensures OneWriter(Emit(st, ev).0)
  {
    hide Ingest, Projector.Project;
    AppendIsContiguous(st.journal, ev);
  }

  lemma StopKeepsOneWriter(st: StoreState, id: SessionId, clean: bool, now: Time)
    requires OneWriter(st) && id in st.sessions && st.sessions[id].status.Running?
    ensures OneWriter(Stop(st, id, clean, now))
    ensures forall s :: s in Stop(st, id, clean, now).sessions ==> !Stop(st, id, clean, now).sessions[s].status.Running?
  {
    hide Projector.CloseRows, Contiguous;
    forall s | s in st.sessions && s != id ensures !st.sessions[s].status.Running? {
      assert SoleWriter(st, id);
    }
  }

  lemma BeginKeepsOneWriter(st: StoreState, id: SessionId, prev: Option<SessionId>, now: Time)
    requires StoreOk(st) && OneWriter(st) && IsLatestOther(st.sessions, id, prev)
    requires forall s :: s in st.sessions ==> st.sessions[s].startedAt < now
    ensures OneWriter(Begin(st, id, prev, now))
  {
    hide Stop, Contiguous, SessionEvents;
    var interrupts := prev.Some? && prev.value in st.sessions && st.sessions[prev.value].status.Running?;
    var settled := if interrupts then Stop(st, prev.value, false, now) else st;
    if interrupts {
      StopKeepsOneWriter(st, prev.value, false, now);
      StopKeepsRest(st, prev.value, false, now);
    } else {
      forall w | w in st.sessions && w != id && st.sessions[w].status.Running? ensures prev == Some(w) {
        RunningIsLatest(st, id, prev, w);
      }
    }
    if id !in st.sessions {
      assert SessionOk(st, id);
      NothingWritten(st.journal, id);
      FirstWriter(settled, id, now);
    }
  }

  lemma RunningIsLatest(st: StoreState, id: SessionId, prev: Option<SessionId>, w: SessionId)
    requires OneWriter(st) && IsLatestOther(st.sessions, id, prev)
    requires w in st.sessions && w != id && st.sessions[w].status.Running?
    ensures prev == Some(w)
  {
    assert SoleWriter(st, w);
    assert prev.Some?;
  }

  lemma StopKeepsRest(st: StoreState, id: SessionId, clean: bool, now: Time)
    requires id in st.sessions
    ensures var st' := Stop(st, id, clean, now);
            && st'.journal == st.journal && st'.sessions.Keys == st.sessions.Keys
            && forall s :: s in st.sessions ==> st'.sessions[s].startedAt == st.sessions[s].startedAt
  {
    hide Projector.CloseRows;
  }

  lemma FirstWriter(st: StoreState, id: SessionId, now: Time)
    requires OneWriter(st) && id !in st.sessions
    requires forall s :: s in st.sessions ==> !st.sessions[s].status.Running? && st.sessions[s].startedAt < now
    requires forall ev :: ev in st.journal ==> ev.pos.session != id
    ensures OneWriter(st.(sessions := st.sessions[id := Session(Running, now, None, None)]))
  {
    hide Contiguous;
  }

  lemma {:induction false} HistoryHasOneWriter(ops: seq<Op>)
    requires History(ops) && StartsAscend(ops)
    ensures OneWriter(Live(ops))
  {
    hide OneWriter, Emit, Stop, Begin, StoreOk, IsLatestOther;
    if ops == [] {
      NoWriterYet();
    } else {
      var before, op := ops[..|ops| - 1], ops[|ops| - 1];
      HistoryHasOneWriter(before);
      LiveIsOk(before);
      match op
      case BeginSession(id, prev, now) => BeginKeepsOneWriter(Live(before), id, prev, now);
      case EmitEvent(ev) => EmitKeepsOneWriter(Live(before), ev);
      case EndSession(id, clean, now) => StopKeepsOneWriter(Live(before), id, clean, now);
    }
  }

  lemma NoWriterYet()
    ensures OneWriter(StoreState([], map[], map[], map[]))
  {
  }

  // ---------------------------------------------------------------------------------------------
  // Sessions inside the journal
  // ---------------------------------------------------------------------------------------------

  /** Where an event of the journal stands among the events of its session. */
  function Rank(journal: seq<Event>, i: nat): nat
    requires i < |journal|
  {
    |SessionEvents(journal[..i], journal[i].pos.session)|
  }

  lemma {:induction false} RankIsIndex(journal: seq<Event>, i: nat)
    requires i < |journal|
    ensures var mine := SessionEvents(journal, journal[i].pos.session);
            Rank(journal, i) < |mine| && mine[Rank(journal, i)] == journal[i]
  {
    var front, last := journal[..|journal| - 1], journal[|journal| - 1];
    assert journal == front + [last];
    SessionEventsStep(front, last, journal[i].pos.session);
    if i < |front| {
      RankIsIndex(front, i);
      assert front[..i] == journal[..i];
    } else {
      assert journal[..i] == front;
    }
  }

  lemma {:induction false} RanksIncrease(journal: seq<Event>, i: nat, j: nat)
    requires i < j < |journal| && journal[i].pos.session == journal[j].pos.session
    ensures Rank(journal, i) < Rank(journal, j)
  {
    assert journal[..j][..i] == journal[..i] && journal[..j][i] == journal[i];
    RankIsIndex(journal[..j], i);
  }

  lemma {:induction false} SessionEventsMembers(journal: seq<Event>, s: SessionId)
    ensures forall ev :: ev in SessionEvents(journal, s) <==> ev in journal && ev.pos.session == s
  {
    if journal != [] {
      SessionEventsMembers(journal[..|journal| - 1], s);
      assert journal == journal[..|journal| - 1] + [journal[|journal| - 1]];
    }
  }

  lemma {:induction false} FrameTimeOfSession(journal: seq<Event>, s: SessionId, epoch: nat)
    ensures FrameTime(journal, s, epoch) == FrameTime(SessionEvents(journal, s), s, epoch)
  {
    if journal != [] {
      var front, last := journal[..|journal| - 1], journal[|journal| - 1];
      FrameTimeOfSession(front, s, epoch);
      var mine := SessionEvents(front, s);
      assert (mine + [last])[..|mine + [last]| - 1] == mine;
      assert mine + [] == mine;
    }
  }

  /** Frame order is a matter of each session alone. */
  lemma {:induction false} FrameOrderedBySession(journal: seq<Event>)
    requires forall s :: FrameOrdered(SessionEvents(journal, s))
    ensures FrameOrdered(journal)
  {
    if journal != [] {
      var front, last := journal[..|journal| - 1], journal[|journal| - 1];
      assert journal == front + [last];
      forall s ensures FrameOrdered(SessionEvents(front, s)) {
        SessionEventsStep(front, last, s);
        var mine := SessionEvents(front, s);
        assert FrameOrdered(SessionEvents(journal, s));
        assert (mine + [last])[..|mine + [last]| - 1] == mine && mine + [] == mine;
      }
      FrameOrderedBySession(front);
      LastFrameInOrder(front, last);
    }
  }

  lemma LastFrameInOrder(front: seq<Event>, last: Event)
    requires FrameOrdered(SessionEvents(front + [last], last.pos.session))
    ensures IsFrameEvidence(last) ==> FrameTime(front, last.pos.session, last.pos.epoch) <= last.body.at
  {
    var mine := SessionEvents(front, last.pos.session);
    SessionEventsStep(front, last, last.pos.session);
    assert (mine + [last])[..|mine + [last]| - 1] == mine;
    FrameTimeOfSession(front, last.pos.session, last.pos.epoch);
  }

  // ---------------------------------------------------------------------------------------------
  // Engine-fed journals
  // ---------------------------------------------------------------------------------------------

  ghost predicate GoodFeed(run: CollectorRun) {
    EngineRuns.SaneItems(run.items) && Intervals.TimesIncrease(ZERO_TIME, run.items)
  }

  /** Every session's events are what its engine emitted, up to wherever it stopped. */
  ghost predicate FedBy(journal: seq<Event>, feeds: map<SessionId, CollectorRun>) {
    forall s :: SessionEvents(journal, s) == []
                || (s in feeds && feeds[s].session == s && GoodFeed(feeds[s])
                    && SessionEvents(journal, s) <= LogOf(feeds[s]))
  }

  /** What an engine guarantees of the events of its session, however many of them were stored. */
  ghost predicate FeedOk(evs: seq<Event>) {
    && (forall i, j :: 0 <= i < j < |evs| ==> evs[i].pos.frame <= evs[j].pos.frame)
    && EngineLog.Sealed(evs) && EngineLog.ProperLog(evs) && FrameOrdered(evs) && Intervals.ClockedLog(evs)
  }

  lemma FeedIsOk(run: CollectorRun)
    requires GoodFeed(run)
    ensures FeedOk(LogOf(run))
  {
    hide EngineRuns.SaneItems, Intervals.TimesIncrease, Intervals.ClockedLog, EngineLog.Dated, EngineLog.TimesAscend,
         EngineLog.Sealed, EngineLog.ProperLog, Evidence.FrameOrdered, Engine.RunFrom;
    EngineLog.RunsAreOrdered(run.session, run.created, run.items);
    Intervals.IncreasingTimesAscend(ZERO_TIME, run.items);
    EngineLog.RunsAreSound(run.session, run.created, run.items);
    Intervals.RunsAreClocked(run.session, run.created, run.items);
  }

  lemma FeedPrefixOk(log: seq<Event>, evs: seq<Event>)
    requires FeedOk(log) && evs <= log
    ensures FeedOk(evs)
  {
    hide Evidence.FrameOrdered, Intervals.Clocked, EventLog.ProperDelta;
    assert log == evs + log[|evs|..];
    FrameTimeGrows(evs, log[|evs|..], 0, 0);
  }

  lemma SessionsAreFedOk(journal: seq<Event>, feeds: map<SessionId, CollectorRun>, s: SessionId)
    requires FedBy(journal, feeds)
    ensures FeedOk(SessionEvents(journal, s))
  {
    hide FeedOk, GoodFeed, LogOf;
    if SessionEvents(journal, s) == [] {
      NothingFed();
    } else {
      FeedIsOk(feeds[s]);
      FeedPrefixOk(LogOf(feeds[s]), SessionEvents(journal, s));
    }
  }

  lemma NothingFed()
    ensures FeedOk([])
  {
  }

  lemma FedIsWellFormed(journal: seq<Event>, feeds: map<SessionId, CollectorRun>)
    requires FedBy(journal, feeds) && Contiguous(journal)
    ensures WellFormed(journal)
  {
    hide FedBy, Rank, EngineLog.ProperLog, FrameOrdered, Intervals.ClockedLog;
    forall i, j | 0 <= i < j < |journal| && journal[i].pos.session == journal[j].pos.session
      ensures journal[i].pos.frame <= journal[j].pos.frame
      ensures SameFrame(journal[i], journal[j]) && journal[i].body.typ.SamplingResidual? ==> journal[j].body.conn.None?
    {
      SessionsAreFedOk(journal, feeds, journal[i].pos.session);
      RankIsIndex(journal, i);
      RankIsIndex(journal, j);
      RanksIncrease(journal, i, j);
    }
  }

  /** What accounting, the cut and the hourly index ask of a journal. */
  ghost predicate Reliable(journal: seq<Event>) {
    && WellFormed(journal) && Accounting.Sound(journal) && EngineLog.ProperLog(journal)
    && Intervals.ClockedLog(journal) && Closure.AfterZero(journal)
  }

  lemma FedIsReliable(journal: seq<Event>, feeds: map<SessionId, CollectorRun>)
    requires FedBy(journal, feeds) && Contiguous(journal)
    ensures Reliable(journal)
  {
    hide FedBy, Contiguous, WellFormed, FrameOrdered, Intervals.Clocked, EngineLog.Sealed;
    FedIsWellFormed(journal, feeds);
    forall s ensures FrameOrdered(SessionEvents(journal, s)) {
      SessionsAreFedOk(journal, feeds, s);
    }
    FrameOrderedBySession(journal);
    forall ev | ev in journal ensures EventLog.ProperDelta(ev.body) && Intervals.Clocked(ev.body) {
      SessionsAreFedOk(journal, feeds, ev.pos.session);
      SessionEventsMembers(journal, ev.pos.session);
    }
    ClockedIsAfterZero(journal);
  }

  lemma ClockedIsAfterZero(journal: seq<Event>)
    requires Intervals.ClockedLog(journal)
    ensures Closure.AfterZero(journal)
  {
  }

  lemma {:induction false} PrefixSessions(journal: seq<Event>, n: nat, s: SessionId)
    requires n <= |journal|
    ensures SessionEvents(journal[..n], s) <= SessionEvents(journal, s)
  {
    if n < |journal| {
      PrefixSessions(journal[..|journal| - 1], n, s);
      assert journal[..|journal| - 1][..n] == journal[..n];
    } else {
      assert journal[..n] == journal;
    }
  }

  lemma PrefixIsFed(journal: seq<Event>, later: seq<Event>, feeds: map<SessionId, CollectorRun>)
    requires journal <= later && FedBy(later, feeds)
    ensures FedBy(journal, feeds)
  {
    hide GoodFeed, LogOf, SessionEvents;
    forall s
      ensures SessionEvents(journal, s) == []
              || (s in feeds && feeds[s].session == s && GoodFeed(feeds[s])
                  && SessionEvents(journal, s) <= LogOf(feeds[s]))
    {
      PrefixSessions(later, |journal|, s);
      assert later[..|journal|] == journal;
    }
  }

  /** At every moment of every such history the journal is what accounting, the cut and the index rely on. */
  lemma EngineHistoriesAreReliable(ops: seq<Op>, feeds: map<SessionId, CollectorRun>, n: nat)
    requires History(ops) && StartsAscend(ops) && FedBy(Live(ops).journal, feeds) && n <= |ops|
    ensures Reliable(Live(ops[..n]).journal)
  {
    hide FedBy, Contiguous, Live, History, StartsAscend, Reliable, MayWrite;
    PrefixIsHistory(ops, n);
    PrefixStartsAscend(ops, n);
    HistoriesEvolve(ops, n);
    PrefixIsFed(Live(ops[..n]).journal, Live(ops).journal, feeds);
    HistoryHasOneWriter(ops[..n]);
    FedIsReliable(Live(ops[..n]).journal, feeds);
  }

  lemma {:induction false} PrefixStartsAscend(ops: seq<Op>, n: nat)
    requires StartsAscend(ops) && n <= |ops|
    ensures StartsAscend(ops[..n])
  {
    if n == |ops| {
      assert ops[..n] == ops;
    } else {
      assert ops[..|ops| - 1][..n] == ops[..n];
      PrefixStartsAscend(ops[..|ops| - 1], n);
    }
  }
}
