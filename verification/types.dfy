/** Shared vocabulary of the ProxyLens pipeline model.

    Instants are nanoseconds, counted from Go's zero instant. Session and connection identifiers
    are natural numbers whose order stands for the text order the source sorts by. */
module Types {

  type Time = int
  type SessionId = nat
  type ConnId = nat

  const ZERO_TIME: Time := 0
  const MILLISECOND: Time := 1_000_000
  const SECOND: Time := 1_000_000_000
  const HOUR: Time := 3_600_000_000_000

  datatype Option<+T> = None | Some(value: T)

  datatype Result<+T, +E> = Ok(value: T) | Err(error: E)

  /** An upload and a download amount. Sums are written out field by field where they occur. */
  datatype Bytes = Bytes(up: int, down: int) {
    predicate AtMost(other: Bytes) {
      up <= other.up && down <= other.down
    }
  }

  const NO_BYTES := Bytes(0, 0)

  datatype Interval = Interval(start: Time, end: Time)

  /** NoRoute and NoAttr stand for the empty strings of events that carry no such fact. */
  datatype Route = NoRoute | Direct | Proxy | Reject | Unknown

  datatype Attr = NoAttr | KnownApplication | UnpairedMissingAttr | RelayCandidate | ConfirmedRelayDuplicate

  /** The descriptive facts of a connection; `other` stands for the ones no rule reads. */
  datatype Meta = Meta(process: string, host: string, destIP: string, network: string, rule: string,
                       rulePayload: string, chains: seq<string>, other: string)

  const NO_META := Meta("", "", "", "", "", "", [], "")

  /** unicode.IsSpace. */
  predicate IsSpace(c: char) {
    || c in {' ', '\t', '\n', '\r', '\U{0B}', '\U{0C}', '\U{85}', '\U{A0}', '\U{1680}', '\U{2028}', '\U{2029}',
             '\U{202F}', '\U{205F}', '\U{3000}'}
    || '\U{2000}' <= c <= '\U{200A}'
  }

  /** strings.TrimSpace(s) == "". */
  predicate Blank(s: string) {
    forall i :: 0 <= i < |s| ==> IsSpace(s[i])
  }

  /** The same outbound node, and an upstream hop on the logical side; a shared hop then always exists. */
  predicate ChainsMatch(cand: seq<string>, log: seq<string>) {
    && cand != []
    && |log| > 1
    && cand[0] == log[0]
    && (exists i :: 0 <= i < |cand| && cand[i] in log)
  }

  /** The pairing rule needs the first hop only. */
  lemma ChainsMatchIff(cand: seq<string>, log: seq<string>)
    ensures ChainsMatch(cand, log) <==> cand != [] && |log| >= 2 && cand[0] == log[0]
  {
    if cand != [] && |log| >= 2 && cand[0] == log[0] {
      assert cand[0] in log;
    }
  }

  datatype Snapshot = Snapshot(id: ConnId, meta: Meta, counters: Bytes, start: string)

  /** One controller snapshot: global totals and the live connections. */
  datatype Frame = Frame(at: Time, total: Bytes, conns: seq<Snapshot>)

  ghost predicate DistinctIds(conns: seq<Snapshot>) {
    forall i, j :: 0 <= i < j < |conns| ==> conns[i].id != conns[j].id
  }

  datatype EventType =
    | ConnectionBootstrap | ConnectionNew | ConnectionDelta | PresenceCheckpoint
    | ConnectionDisappeared | MetadataUpdated | RelayClassificationChanged
    | SamplingResidual | MonitoringGapOpened | MonitoringGapClosed
    | CounterEpochBreak | CollectorHealth

  datatype FrameType = BootstrapFrame | RecoveryFrame | SteadyFrame

  datatype Issue =
    | RoutingChainMutation | CounterRegression | RegressionAcrossGap | RegressionOnReobservation
    | ReportedIssue(text: string)

  datatype Details =
    | NoDetails
    | Reobserved
    | HealthIssue(issue: Issue)
    | LastSeen(at: Time, counters: Bytes)
    | Residual(frameType: FrameType, global: Bytes, unique: Bytes, residual: Bytes)
    | GapReason(reason: string)
    | GapDelta(global: Bytes)
    | GapDeltaUnavailable

  datatype Precision = ExactSnapshot | IntervalOnly | GapPostBaseline | PresenceOnly

  /** What the engine decides about an event; the sink position is stamped on emission. */
  datatype Draft = Draft(typ: EventType, at: Time, conn: Option<ConnId>, meta: Meta, start: string,
                         route: Route, attr: Attr, observed: Bytes, delta: Bytes, monitored: Bytes,
                         baseline: Bytes, preexisting: bool, interval: Option<Interval>,
                         precision: Precision, details: Details)

  /** Sink position: the lexicographic key (epoch, frame, event) within a session. */
  datatype Pos = Pos(session: SessionId, epoch: nat, frame: nat, seqno: nat)

  datatype Event = Event(pos: Pos, body: Draft) {
    /** The deterministic event ID hashes exactly these parts and is taken to be injective on them. */
    function Id(): EventId {
      EventId(pos, body.typ, body.conn, body.delta)
    }
  }

  datatype EventId = EventId(pos: Pos, typ: EventType, conn: Option<ConnId>, delta: Bytes)

  predicate Before(p: Pos, q: Pos) {
    p.epoch < q.epoch
    || (p.epoch == q.epoch && (p.frame < q.frame || (p.frame == q.frame && p.seqno < q.seqno)))
  }

  datatype ConnKey = ConnKey(session: SessionId, epoch: nat, conn: ConnId)

  function Max(a: int, b: int): int { if a < b then b else a }

  function Min(a: int, b: int): int { if a < b then a else b }

  function Abs(a: int): int { if a < 0 then -a else a }
}
