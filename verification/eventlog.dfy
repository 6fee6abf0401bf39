/** What a collector session's event log says about a connection and about monitoring gaps, as folds
    over the emitted events. These are the independent yardsticks the engine's state is held against. */
module EventLog {
  import opened Types

  const CHECKPOINT_INTERVAL := 30 * SECOND

  /** What the log says about one connection in the current counter epoch: whether its row exists, the
      deltas emitted since its lifecycle began, whether a counter regression was reported since then,
      and the instant of its latest durable evidence. */
  datatype Track = Track(known: bool, sum: Bytes, regressed: bool, evidence: Time)

  const UNTRACKED := Track(false, NO_BYTES, false, ZERO_TIME)

  predicate ReportsRegression(d: Draft) {
    d.details.HealthIssue?
    && (d.details.issue.CounterRegression? || d.details.issue.RegressionAcrossGap?
        || d.details.issue.RegressionOnReobservation?)
  }

  /** One more event, seen from connection `id`. Bootstrap and a plain New begin a lifecycle; a
      re-observation New continues the interrupted one. */
  function Step(t: Track, d: Draft, id: ConnId): Track {
    if d.typ.CounterEpochBreak? then UNTRACKED
    else if d.conn != Some(id) then t
    else match d.typ
      case ConnectionBootstrap => Track(true, NO_BYTES, false, d.at)
      case ConnectionNew =>
        if d.details.Reobserved?
            then Track(true, Bytes(t.sum.up + d.delta.up, t.sum.down + d.delta.down), t.regressed, d.at)
        else Track(true, d.delta, false, d.at)
      case ConnectionDelta => Track(t.known, Bytes(t.sum.up + d.delta.up, t.sum.down + d.delta.down), t.regressed, d.at)
      case ConnectionDisappeared => t
      case CollectorHealth => Track(t.known, t.sum, t.regressed || ReportsRegression(d), d.at)
      case _ => Track(t.known, t.sum, t.regressed, d.at)
  }

  function TrackFrom(t: Track, ds: seq<Draft>, id: ConnId): Track {
    if ds == [] then t else Step(TrackFrom(t, ds[..|ds| - 1], id), ds[|ds| - 1], id)
  }

  function TrackOf(ds: seq<Draft>, id: ConnId): Track {
    TrackFrom(UNTRACKED, ds, id)
  }

  function GapAfter(open: bool, ds: seq<Draft>): bool {
    if ds == [] then open
    else
      var d := ds[|ds| - 1];
      if d.typ.MonitoringGapOpened? then true
      else if d.typ.MonitoringGapClosed? then false
      else GapAfter(open, ds[..|ds| - 1])
  }

  predicate NamesRow(d: Draft) {
    || d.typ.ConnectionDelta? || d.typ.PresenceCheckpoint? || d.typ.ConnectionDisappeared?
    || d.typ.MetadataUpdated? || d.typ.RelayClassificationChanged?
  }

  predicate Introduces(d: Draft) {
    d.typ.ConnectionBootstrap? || d.typ.ConnectionNew?
  }

  /** No negative traffic, and none at all on events other than New and Delta. */
  predicate ProperDelta(d: Draft) {
    d.delta.up >= 0 && d.delta.down >= 0 && (d.typ.ConnectionNew? || d.typ.ConnectionDelta? || d.delta == NO_BYTES)
  }

  function IdOf(d: Draft): ConnId {
    if d.conn.Some? then d.conn.value else 0
  }

  /** An event may follow a log in which its connection stands at `t` and a gap is open or not. */
  predicate Legal(t: Track, open: bool, d: Draft) {
    && (NamesRow(d) ==> d.conn.Some? && t.known)
    && (Introduces(d) ==> d.conn.Some? && (d.details.Reobserved? ==> t.known))
    && (Introduces(d) || d.typ.ConnectionDelta? ==> d.monitored == Step(t, d, IdOf(d)).sum)
    && (d.typ.PresenceCheckpoint? ==> d.at - t.evidence >= CHECKPOINT_INTERVAL)
    && (d.typ.MonitoringGapOpened? ==> !open)
    && (d.typ.MonitoringGapClosed? ==> open)
    && (d.typ.SamplingResidual? ==> d.conn.None?)
  }

  /** Every event of the log was legal when it was emitted. */
  predicate AllLegal(ds: seq<Draft>) {
    ds == []
    || var front, d := ds[..|ds| - 1], ds[|ds| - 1];
       AllLegal(front) && Legal(TrackOf(front, IdOf(d)), GapAfter(false, front), d)
  }

  /** Bytes of controller traffic an event accounts for. Deltas inside a recovery frame are part of the
      frame's gap delta and carry an interval precision. */
  function Contribution(d: Draft): Bytes {
    match d.typ
    case ConnectionNew => if d.attr.ConfirmedRelayDuplicate? then NO_BYTES else d.delta
    case ConnectionDelta => if d.attr.ConfirmedRelayDuplicate? || d.precision.IntervalOnly? then NO_BYTES else d.delta
    case SamplingResidual => if d.details.Residual? then d.details.residual else NO_BYTES
    case MonitoringGapClosed => if d.details.GapDelta? then d.details.global else NO_BYTES
    case _ => NO_BYTES
  }

  function Contributions(ds: seq<Draft>): Bytes {
    if ds == [] then NO_BYTES
    else
      var front, last := Contributions(ds[..|ds| - 1]), Contribution(ds[|ds| - 1]);
      Bytes(front.up + last.up, front.down + last.down)
  }

  // ---------------------------------------------------------------------------------------------
  // Folding a longer log
  // ---------------------------------------------------------------------------------------------

  lemma {:induction false} TrackConcat(t: Track, a: seq<Draft>, b: seq<Draft>, id: ConnId)
    ensures TrackFrom(t, a + b, id) == TrackFrom(TrackFrom(t, a, id), b, id)
  {
    hide Step;
    if b == [] {
      assert a + b == a;
    } else {
      TrackConcat(t, a, b[..|b| - 1], id);
      assert (a + b)[..|a + b| - 1] == a + b[..|b| - 1];
    }
  }

  lemma {:induction false} GapConcat(open: bool, a: seq<Draft>, b: seq<Draft>)
    ensures GapAfter(open, a + b) == GapAfter(GapAfter(open, a), b)
  {
    if b == [] {
      assert a + b == a;
    } else {
      GapConcat(open, a, b[..|b| - 1]);
      assert (a + b)[..|a + b| - 1] == a + b[..|b| - 1];
    }
  }

  lemma {:induction false} ContributionsConcat(a: seq<Draft>, b: seq<Draft>)
    ensures Contributions(a + b).up == Contributions(a).up + Contributions(b).up
    ensures Contributions(a + b).down == Contributions(a).down + Contributions(b).down
  {
    hide Contribution;
    if b == [] {
      assert a + b == a;
    } else {
      ContributionsConcat(a, b[..|b| - 1]);
      assert (a + b)[..|a + b| - 1] == a + b[..|b| - 1];
    }
  }

  /** Each event of a legal log was legal after the events before it. */
  lemma {:induction false} LegalAt(ds: seq<Draft>, j: nat)
    requires AllLegal(ds) && j < |ds|
    ensures Legal(TrackOf(ds[..j], IdOf(ds[j])), GapAfter(false, ds[..j]), ds[j])
  {
    hide Legal;
    if j < |ds| - 1 {
      LegalAt(ds[..|ds| - 1], j);
      assert ds[..|ds| - 1][..j] == ds[..j];
    }
  }

  // ---------------------------------------------------------------------------------------------
  // Segments about one connection
  // ---------------------------------------------------------------------------------------------

  /** Every event of the segment concerns `id` and is an ordinary connection event. */
  ghost predicate Only(ds: seq<Draft>, id: ConnId) {
    forall i :: 0 <= i < |ds| ==>
        ds[i].conn == Some(id) && !ds[i].typ.CounterEpochBreak? && !ds[i].typ.SamplingResidual?
                                  && !ds[i].typ.MonitoringGapOpened? && !ds[i].typ.MonitoringGapClosed?
  }

  /** The segment is legal after a log that leaves its connection at `t`. */
  predicate LegalRun(t: Track, ds: seq<Draft>, id: ConnId) {
    ds == []
    || var front, d := ds[..|ds| - 1], ds[|ds| - 1];
       LegalRun(t, front, id) && Legal(TrackFrom(t, front, id), false, d)
  }

  lemma {:induction false} LegalRunExtends(log: seq<Draft>, ds: seq<Draft>, id: ConnId)
    requires AllLegal(log) && Only(ds, id) && LegalRun(TrackOf(log, id), ds, id)
    ensures AllLegal(log + ds)
  {
    hide Step;
    if ds == [] {
      assert log + ds == log;
    } else {
      var front, d := ds[..|ds| - 1], ds[|ds| - 1];
      LegalRunExtends(log, front, id);
      assert (log + ds)[..|log + ds| - 1] == log + front;
      TrackConcat(UNTRACKED, log, front, id);
      assert d.conn == Some(id);
    }
  }

  /** A segment about one connection leaves every other connection and the gap as they were. */
  lemma {:induction false} OnlyLeavesOthers(t: Track, open: bool, ds: seq<Draft>, id: ConnId, other: ConnId)
    requires Only(ds, id)
    ensures other != id ==> TrackFrom(t, ds, other) == t
    ensures GapAfter(open, ds) == open
  {
    if ds != [] {
      OnlyLeavesOthers(t, open, ds[..|ds| - 1], id, other);
    }
  }
}
