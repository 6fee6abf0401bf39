/** Monitoring coverage (analytics.go, GetCoverage): gaps are clipped to the effective window, merged
    into a union, and the uncovered time is the measure of that union. */
module Coverage {
  import opened Types

  /** Duration.Milliseconds() of a non-negative duration. */
  function Millis(d: int): int {
    d / MILLISECOND
  }

  predicate Contains(iv: Interval, t: Time) {
    iv.start <= t < iv.end
  }

  ghost predicate CoveredBy(ivs: seq<Interval>, t: Time) {
    exists i :: 0 <= i < |ivs| && Contains(ivs[i], t)
  }

  // ---------------------------------------------------------------------------------------------
  // Clipping
  // ---------------------------------------------------------------------------------------------

  /** A stored gap; one that is still open runs until now. */
  datatype Gap = Gap(start: Time, end: Option<Time>)

  function ExtentOf(g: Gap, now: Time): Interval {
    Interval(g.start, if g.end.Some? then g.end.value else now)
  }

  function Clip(iv: Interval, window: Interval): Interval {
    Interval(Max(iv.start, window.start), Min(iv.end, window.end))
  }

  predicate Proper(iv: Interval) {
    iv.start < iv.end
  }

  /** What the latest collector session says about the end of the window. */
  datatype LatestSession =
    | NoSession
    | Stopped(endedAt: Option<Time>, lastEventAt: Option<Time>)
    | Live(heartbeat: Option<Time>, intervalMs: Option<int>)

  const MIN_GRACE_MS := 15000
  const DEFAULT_HEARTBEAT_MS := 5000

  /** The instant from which the latest session no longer vouches for coverage. */
  function SilentFrom(latest: LatestSession, now: Time): Option<Time> {
    match latest
    case NoSession => None
    case Stopped(endedAt, lastEventAt) => if endedAt.Some? then endedAt else lastEventAt
    case Live(heartbeat, intervalMs) =>
      if heartbeat.None? then None
      else
        var interval := if intervalMs.Some? && intervalMs.value > 0 then intervalMs.value else DEFAULT_HEARTBEAT_MS;
        var stale := heartbeat.value + Max(3 * interval, MIN_GRACE_MS) * MILLISECOND;
        if now > stale then Some(stale) else None
  }

  /** Everything that leaves time uncovered, before clipping. */
  function Extents(gaps: seq<Gap>, latest: LatestSession, window: Interval, now: Time): seq<Interval> {
    seq(|gaps|, i requires 0 <= i < |gaps| => ExtentOf(gaps[i], now))
    + (match SilentFrom(latest, now) case None => [] case Some(t) => [Interval(t, window.end)])
  }

  /** At `t` the latest session vouches for nothing: it had stopped, or its heartbeat is overdue by three intervals
      and by 15 seconds at least. */
  predicate Silent(latest: LatestSession, now: Time, t: Time) {
    match latest
    case NoSession => false
    case Stopped(endedAt, lastEventAt) =>
      (endedAt.Some? && endedAt.value <= t) || (endedAt.None? && lastEventAt.Some? && lastEventAt.value <= t)
    case Live(heartbeat, intervalMs) =>
      var grace := if intervalMs.Some? && intervalMs.value > 5000 then 3 * intervalMs.value else 15000;
      heartbeat.Some? && heartbeat.value + grace * 1_000_000 < now && heartbeat.value + grace * 1_000_000 <= t
  }

  /** At `t` monitoring was interrupted, by a stored gap or by silence. */
  ghost predicate Unmonitored(gaps: seq<Gap>, latest: LatestSession, now: Time, t: Time) {
    || (exists i :: 0 <= i < |gaps| && gaps[i].start <= t && t < if gaps[i].end.Some? then gaps[i].end.value else now)
    || Silent(latest, now, t)
  }

  lemma SilentFromSays(latest: LatestSession, now: Time, t: Time)
    ensures Silent(latest, now, t) <==> SilentFrom(latest, now).Some? && SilentFrom(latest, now).value <= t
  {
  }

  /** Inside the window the extents are exactly the unmonitored instants. */
  lemma ExtentsSay(gaps: seq<Gap>, latest: LatestSession, window: Interval, now: Time, t: Time)
    requires t < window.end
    ensures CoveredBy(Extents(gaps, latest, window, now), t) <==> Unmonitored(gaps, latest, now, t)
  {
    hide Silent, SilentFrom;
    SilentFromSays(latest, now, t);
    var ivs := Extents(gaps, latest, window, now);
    if Silent(latest, now, t) {
      assert Contains(ivs[|gaps|], t);
    }
    if i :| 0 <= i < |gaps| && gaps[i].start <= t && t < if gaps[i].end.Some? then gaps[i].end.value else now {
      assert Contains(ivs[i], t);
    }
  }

  function ClipAll(ivs: seq<Interval>, window: Interval): seq<Interval> {
    if ivs == [] then []
    else
      var clipped := Clip(ivs[|ivs| - 1], window);
      ClipAll(ivs[..|ivs| - 1], window) + if Proper(clipped) then [clipped] else []
  }

  /** Clipping keeps exactly the points inside the window, in non-empty intervals within it. */
  lemma {:induction false} ClipKeepsPoints(ivs: seq<Interval>, window: Interval)
    ensures forall t :: CoveredBy(ClipAll(ivs, window), t) <==> Contains(window, t) && CoveredBy(ivs, t)
    ensures forall iv :: iv in ClipAll(ivs, window) ==> window.start <= iv.start < iv.end <= window.end
  {
    if ivs != [] {
      var front, last := ivs[..|ivs| - 1], ivs[|ivs| - 1];
      assert ivs == front + [last];
      ClipKeepsPoints(front, window);
      var clipped := Clip(last, window);
      forall t ensures CoveredBy(ClipAll(ivs, window), t) <==> Contains(window, t) && CoveredBy(ivs, t) {
        CoveredByAppend(front, last, t);
        CoveredByAppend(ClipAll(front, window), clipped, t);
        assert Contains(clipped, t) <==> Contains(window, t) && Contains(last, t);
        assert ClipAll(front, window) + [] == ClipAll(front, window);
      }
    }
  }

  lemma CoveredByAppend(ivs: seq<Interval>, iv: Interval, t: Time)
    ensures CoveredBy(ivs + [iv], t) <==> CoveredBy(ivs, t) || Contains(iv, t)
  {
    assert (ivs + [iv])[|ivs|] == iv;
    if i :| 0 <= i < |ivs| && Contains(ivs[i], t) {
      assert Contains((ivs + [iv])[i], t);
    }
  }

  method ClipToWindow(ivs: seq<Interval>, window: Interval) returns (raw: seq<Interval>)
    ensures raw == ClipAll(ivs, window)
  {
    raw := [];
    for i := 0 to |ivs|
      invariant raw == ClipAll(ivs[..i], window)
    {
      assert ivs[..i + 1][..i] == ivs[..i];
      var clipped := Clip(ivs[i], window);
      if clipped.end > clipped.start {
        raw := raw + [clipped];
      }
    }
    assert ivs[..|ivs|] == ivs;
  }

  // ---------------------------------------------------------------------------------------------
  // Sorting and merging
  // ---------------------------------------------------------------------------------------------

  ghost predicate SortedByStart(ivs: seq<Interval>) {
    forall i, j :: 0 <= i < j < |ivs| ==> ivs[i].start <= ivs[j].start
  }

  method SortByStart(ivs: seq<Interval>) returns (sorted: seq<Interval>)
    ensures SortedByStart(sorted) && multiset(sorted) == multiset(ivs)
  {
    sorted := [];
    for i := 0 to |ivs|
      invariant SortedByStart(sorted) && multiset(sorted) == multiset(ivs[..i])
    {
      assert ivs[..i + 1] == ivs[..i] + [ivs[i]];
      sorted := InsertByStart(sorted, ivs[i]);
    }
    assert ivs[..|ivs|] == ivs;
  }

  method InsertByStart(sorted: seq<Interval>, iv: Interval) returns (result: seq<Interval>)
    requires SortedByStart(sorted)
    ensures SortedByStart(result) && multiset(result) == multiset(sorted) + multiset{iv}
  {
    var n := |sorted|;
    while n > 0 && sorted[n - 1].start > iv.start
      invariant 0 <= n <= |sorted|
      invariant forall i :: n <= i < |sorted| ==> sorted[i].start > iv.start
    {
      n := n - 1;
    }
    result := sorted[..n] + [iv] + sorted[n..];
    InsertedInOrder(sorted, n, iv);
    InsertedMembers(sorted, n, iv);
  }

  lemma InsertedInOrder(sorted: seq<Interval>, n: nat, iv: Interval)
    requires SortedByStart(sorted) && n <= |sorted|
    requires n > 0 ==> sorted[n - 1].start <= iv.start
    requires n < |sorted| ==> sorted[n].start >= iv.start
    ensures SortedByStart(sorted[..n] + [iv] + sorted[n..])
  {
    var result := sorted[..n] + [iv] + sorted[n..];
    forall i | 0 <= i < |result|
      ensures result[i] == if i < n then sorted[i] else if i == n then iv else sorted[i - 1]
    {
    }
  }

  lemma InsertedMembers(sorted: seq<Interval>, n: nat, iv: Interval)
    requires n <= |sorted|
    ensures multiset(sorted[..n] + [iv] + sorted[n..]) == multiset(sorted) + multiset{iv}
  {
    assert sorted == sorted[..n] + sorted[n..];
  }

  datatype MergedGap = MergedGap(start: Time, end: Time, durationMs: int)

  function Span(m: MergedGap): Interval {
    Interval(m.start, m.end)
  }

  ghost predicate InMerged(merged: seq<MergedGap>, t: Time) {
    exists i :: 0 <= i < |merged| && Contains(Span(merged[i]), t)
  }

  /** Non-empty, in order, strictly separated, with matching durations. */
  ghost predicate Separated(merged: seq<MergedGap>) {
    && (forall i :: 0 <= i < |merged| ==> merged[i].start < merged[i].end
                                          && merged[i].durationMs == Millis(merged[i].end - merged[i].start))
    && (forall i, j :: 0 <= i < j < |merged| ==> merged[i].end < merged[j].start)
  }

  function GapOver(start: Time, end: Time): MergedGap {
    MergedGap(start, end, Millis(end - start))
  }

  lemma AppendStaysSeparated(merged: seq<MergedGap>, start: Time, end: Time)
    requires Separated(merged) && start < end
    requires merged != [] ==> merged[|merged| - 1].end < start
    ensures Separated(merged + [GapOver(start, end)])
  {
    var result := merged + [GapOver(start, end)];
    forall i, j | 0 <= i < j < |result| ensures result[i].end < result[j].start {
      if i < |merged| - 1 {
        assert merged[i].end < merged[|merged| - 1].start;
      }
    }
  }

  lemma ExtendStaysSeparated(merged: seq<MergedGap>, end: Time)
    requires Separated(merged) && merged != [] && merged[|merged| - 1].end <= end
    ensures Separated(merged[|merged| - 1 := GapOver(merged[|merged| - 1].start, end)])
  {
  }

  lemma LastIsProper(merged: seq<MergedGap>)
    requires Separated(merged) && merged != []
    ensures merged[|merged| - 1].start < merged[|merged| - 1].end
  {
  }

  /** Merging one interval that starts no earlier than all before it. */
  method MergeOne(merged: seq<MergedGap>, iv: Interval) returns (result: seq<MergedGap>)
    requires Separated(merged) && Proper(iv)
    requires merged != [] ==> merged[|merged| - 1].start <= iv.start
    ensures Separated(result) && result != [] && result[|result| - 1].start <= iv.start
    ensures forall t :: InMerged(result, t) <==> InMerged(merged, t) || Contains(iv, t)
    ensures result[|result| - 1].end == (if merged == [] then iv.end else Max(merged[|merged| - 1].end, iv.end))
    ensures merged != [] ==> result[0].start == merged[0].start
    ensures merged == [] ==> result[0].start == iv.start
  {
    hide Separated, InMerged, Millis;
    if merged == [] || iv.start > merged[|merged| - 1].end {
      AppendStaysSeparated(merged, iv.start, iv.end);
      result := merged + [GapOver(iv.start, iv.end)];
      forall t ensures InMerged(result, t) <==> InMerged(merged, t) || Contains(iv, t) {
        MergedAppend(merged, GapOver(iv.start, iv.end), t);
      }
    } else {
      var n := |merged| - 1;
      var last := merged[n];
      LastIsProper(merged);
      result := merged;
      if iv.end > last.end {
        ExtendStaysSeparated(merged, iv.end);
        result := merged[n := GapOver(last.start, iv.end)];
      }
      assert result == merged[..n] + [result[n]] && merged == merged[..n] + [last];
      forall t ensures InMerged(result, t) <==> InMerged(merged, t) || Contains(iv, t) {
        MergedAppend(merged[..n], result[n], t);
        MergedAppend(merged[..n], last, t);
      }
    }
  }

  lemma MergedAppend(merged: seq<MergedGap>, m: MergedGap, t: Time)
    ensures InMerged(merged + [m], t) <==> InMerged(merged, t) || Contains(Span(m), t)
  {
    assert (merged + [m])[|merged|] == m;
    if i :| 0 <= i < |merged| && Contains(Span(merged[i]), t) {
      assert Contains(Span((merged + [m])[i]), t);
    }
  }

  /** The union of sorted intervals inside a window. */
  method MergeIntervals(raw: seq<Interval>, window: Interval) returns (merged: seq<MergedGap>)
    requires SortedByStart(raw) && forall iv :: iv in raw ==> window.start <= iv.start < iv.end <= window.end
    ensures Separated(merged)
    ensures forall t :: InMerged(merged, t) <==> CoveredBy(raw, t)
    ensures merged != [] ==> window.start <= merged[0].start && merged[|merged| - 1].end <= window.end
  {
    merged := [];
    for i := 0 to |raw|
      invariant Separated(merged)
      invariant forall t :: InMerged(merged, t) <==> CoveredBy(raw[..i], t)
      invariant merged == [] <==> i == 0
      invariant merged != [] ==> window.start <= merged[0].start && merged[|merged| - 1].end <= window.end
      invariant merged != [] ==> merged[|merged| - 1].start <= raw[i - 1].start
    {
      assert raw[i] in raw && raw[..i + 1] == raw[..i] + [raw[i]];
      forall t ensures CoveredBy(raw[..i + 1], t) <==> CoveredBy(raw[..i], t) || Contains(raw[i], t) {
        CoveredByAppend(raw[..i], raw[i], t);
      }
      merged := MergeOne(merged, raw[i]);
    }
    assert raw[..|raw|] == raw;
  }

  // ---------------------------------------------------------------------------------------------
  // Measure
  // ---------------------------------------------------------------------------------------------

  /** Total length of the merged gaps in nanoseconds, and the reported milliseconds. */
  function Length(merged: seq<MergedGap>): int {
    if merged == [] then 0 else Length(merged[..|merged| - 1]) + merged[|merged| - 1].end - merged[|merged| - 1].start
  }

  function ReportedMs(merged: seq<MergedGap>): int {
    if merged == [] then 0 else ReportedMs(merged[..|merged| - 1]) + merged[|merged| - 1].durationMs
  }

  function Instants(from: Time, until: Time): set<Time> {
    set t | from <= t < until && Contains(Interval(from, until), t)
  }

  lemma {:induction false} InstantsCount(from: Time, until: Time)
    requires from <= until
    ensures |Instants(from, until)| == until - from
    decreases until - from
  {
    if from < until {
      InstantsCount(from, until - 1);
      assert Instants(from, until) == Instants(from, until - 1) + {until - 1};
    } else {
      assert Instants(from, until) == {};
    }
  }

  /** The instants of the window that the merged gaps contain. */
  ghost function UncoveredInstants(merged: seq<MergedGap>, window: Interval): set<Time> {
    set t | window.start <= t < window.end && InMerged(merged, t)
  }

  lemma UncoveredSplit(front: seq<MergedGap>, last: MergedGap, window: Interval)
    requires Separated(front + [last]) && window.start <= last.start && last.end <= window.end
    ensures UncoveredInstants(front + [last], window) == UncoveredInstants(front, window)
              + Instants(last.start, last.end)
    ensures UncoveredInstants(front, window) !! Instants(last.start, last.end)
  {
    hide Separated;
    var merged := front + [last];
    var a, b := UncoveredInstants(front, window), Instants(last.start, last.end);
    forall t ensures t in UncoveredInstants(merged, window) <==> t in a || t in b {
      MergedAppend(front, last, t);
    }
    forall t | t in a ensures t !in b {
      var i :| 0 <= i < |front| && Contains(Span(front[i]), t);
      EndsBefore(front, last, i);
    }
  }

  lemma EndsBefore(front: seq<MergedGap>, last: MergedGap, i: nat)
    requires Separated(front + [last]) && i < |front|
    ensures front[i].end < last.start
  {
    assert (front + [last])[i] == front[i] && (front + [last])[|front|] == last;
  }

  /** The merged gaps' total length is the measure of the union: the number of instants in it. */
  lemma {:induction false} LengthIsMeasure(merged: seq<MergedGap>, window: Interval)
    requires Separated(merged)
    requires merged != [] ==> window.start <= merged[0].start && merged[|merged| - 1].end <= window.end
    ensures Length(merged) == |UncoveredInstants(merged, window)|
  {
    hide UncoveredInstants, Instants, Separated;
    if merged == [] {
      NothingUncovered(window);
    } else {
      var front, last := merged[..|merged| - 1], merged[|merged| - 1];
      assert merged == front + [last];
      PrefixWithin(front, last, window);
      LengthIsMeasure(front, window);
      InstantsCount(last.start, last.end);
      UncoveredSplit(front, last, window);
    }
  }

  lemma NothingUncovered(window: Interval)
    ensures UncoveredInstants([], window) == {}
  {
  }

  lemma PrefixWithin(front: seq<MergedGap>, last: MergedGap, window: Interval)
    requires Separated(front + [last]) && window.start <= (front + [last])[0].start && last.end <= window.end
    ensures Separated(front) && window.start <= last.start < last.end
    ensures front != [] ==> window.start <= front[0].start && front[|front| - 1].end <= window.end
  {
    var merged := front + [last];
    assert merged[|front|] == last;
    forall i, j | 0 <= i < j < |front| ensures front[i].end < front[j].start {
      assert merged[i] == front[i] && merged[j] == front[j];
    }
    forall i | 0 <= i < |front|
      ensures front[i].start < front[i].end && front[i].durationMs == Millis(front[i].end - front[i].start)
              && front[i].end < last.start
    {
      assert merged[i] == front[i];
    }
  }

  lemma {:induction false} LengthWithinWindow(merged: seq<MergedGap>, from: Time, to: Time)
    requires Separated(merged) && from <= to
    requires merged != [] ==> from <= merged[0].start && merged[|merged| - 1].end <= to
    ensures 0 <= Length(merged) <= to - from
  {
    if merged != [] {
      var last := merged[|merged| - 1];
      var front := merged[..|merged| - 1];
      if front != [] {
        assert front[|front| - 1].end < last.start;
        LengthWithinWindow(front, from, last.start);
      }
    }
  }

  lemma MillisAdd(a: int, b: int)
    requires a >= 0 && b >= 0
    ensures Millis(a) + Millis(b) <= Millis(a + b)
    ensures a % MILLISECOND == 0 && b % MILLISECOND == 0 ==>
              Millis(a) + Millis(b) == Millis(a + b) && (a + b) % MILLISECOND == 0
  {
  }

  predicate WholeMs(t: int) {
    t % MILLISECOND == 0
  }

  lemma WholeDifference(a: int, b: int)
    requires WholeMs(a) && WholeMs(b)
    ensures WholeMs(b - a)
  {
  }

  /** Truncation to milliseconds only ever loses time, and loses none for whole milliseconds. */
  lemma {:induction false} ReportedWithinLength(merged: seq<MergedGap>)
    requires Separated(merged)
    ensures 0 <= ReportedMs(merged) <= Millis(Length(merged)) && Length(merged) >= 0
    ensures (forall m :: m in merged ==> WholeMs(m.start) && WholeMs(m.end)) ==>
              WholeMs(Length(merged)) && ReportedMs(merged) == Millis(Length(merged))
  {
    if merged != [] {
      var front, last := merged[..|merged| - 1], merged[|merged| - 1];
      assert merged == front + [last];
      ReportedWithinLength(front);
      MillisAdd(Length(front), last.end - last.start);
      if WholeMs(last.start) && WholeMs(last.end) {
        WholeDifference(last.start, last.end);
      }
    }
  }

  lemma MillisMonotone(a: int, b: int)
    requires a <= b
    ensures Millis(a) <= Millis(b)
  {
  }

  // ---------------------------------------------------------------------------------------------
  // GetCoverage
  // ---------------------------------------------------------------------------------------------

  datatype Summary = Summary(futureMs: int, outsideMs: int, window: Option<Interval>, merged: seq<MergedGap>,
                             uncoveredMs: int, coveredMs: int)

  function WindowMs(window: Interval): int {
    Max(Millis(window.end - window.start), 1)
  }

  /** The uncovered and covered time of an effective window. */
  method MeasureWindow(gaps: seq<Gap>, latest: LatestSession, window: Interval, now: Time)
    returns (merged: seq<MergedGap>, uncoveredMs: int, coveredMs: int)
    requires window.start <= window.end
    ensures Separated(merged)
    ensures forall t :: InMerged(merged, t) <==> Contains(window, t) && Unmonitored(gaps, latest, now, t)
    ensures Length(merged) == |UncoveredInstants(merged, window)|
    ensures uncoveredMs == ReportedMs(merged) && uncoveredMs + coveredMs == WindowMs(window)
    ensures 0 <= uncoveredMs <= WindowMs(window) && coveredMs >= 0
    ensures (forall m :: m in merged ==> WholeMs(m.start) && WholeMs(m.end)) ==>
              uncoveredMs == Millis(|UncoveredInstants(merged, window)|)
  {
    ClipKeepsPoints(Extents(gaps, latest, window, now), window);
    var raw := ClipToWindow(Extents(gaps, latest, window, now), window);
    var sorted := SortByStart(raw);
    SameMembers(raw, sorted);
    merged := MergeIntervals(sorted, window);
    forall t | Contains(window, t)
      ensures CoveredBy(Extents(gaps, latest, window, now), t) <==> Unmonitored(gaps, latest, now, t)
    {
      ExtentsSay(gaps, latest, window, now, t);
    }
    LengthIsMeasure(merged, window);
    LengthWithinWindow(merged, window.start, window.end);
    ReportedWithinLength(merged);
    MillisMonotone(Length(merged), window.end - window.start);
    uncoveredMs := SumDurations(merged);
    if uncoveredMs > WindowMs(window) {
      uncoveredMs := WindowMs(window);
    }
    coveredMs := WindowMs(window) - uncoveredMs;
  }

  method SumDurations(merged: seq<MergedGap>) returns (total: int)
    ensures total == ReportedMs(merged)
  {
    total := 0;
    for i := 0 to |merged|
      invariant total == ReportedMs(merged[..i])
    {
      assert merged[..i + 1][..i] == merged[..i];
      total := total + merged[i].durationMs;
    }
    assert merged[..|merged|] == merged;
  }

  lemma SameMembers(a: seq<Interval>, b: seq<Interval>)
    requires multiset(a) == multiset(b)
    ensures forall iv :: iv in a <==> iv in b
    ensures forall t :: CoveredBy(a, t) <==> CoveredBy(b, t)
  {
    forall iv ensures iv in a <==> iv in b {
      assert iv in multiset(a) <==> iv in multiset(b);
    }
    forall t ensures CoveredBy(a, t) <==> CoveredBy(b, t) {
      if i :| 0 <= i < |a| && Contains(a[i], t) {
        assert a[i] in b;
        var j :| 0 <= j < |b| && b[j] == a[i];
      }
      if i :| 0 <= i < |b| && Contains(b[i], t) {
        assert b[i] in a;
        var j :| 0 <= j < |a| && a[j] == b[i];
      }
    }
  }

  /** The effective window of a request, if any part of it lies in the known past. */
  function EffectiveWindow(from: Time, till: Time, known: Time, now: Time): Option<Interval> {
    if from > now || Min(till, now) <= known then None else Some(Interval(Max(from, known), Min(till, now)))
  }

  function FutureMs(from: Time, till: Time, now: Time): int {
    if from > now then Millis(till - from) else if till > now then Millis(till - now) else 0
  }

  function OutsideMs(from: Time, till: Time, known: Time, now: Time): int {
    if from > now then 0
    else if Min(till, now) <= known then Millis(Min(till, now) - from)
    else if from < known then Millis(known - from)
    else 0
  }

  /** The window is what lies in the known past; future and unknown time are what lies after and before it. */
  lemma PartsSay(from: Time, till: Time, known: Time, now: Time)
    requires from < till
    ensures var window := EffectiveWindow(from, till, known, now);
            forall t :: from <= t < till && known <= t < now <==> window.Some? && Contains(window.value, t)
    ensures FutureMs(from, till, now) == Millis(Max(till - Max(from, now), 0))
    ensures OutsideMs(from, till, known, now) == Millis(Max(Min(Min(till, now), known) - from, 0))
  {
  }

  /** For whole milliseconds the three parts add up to the request; an empty effective window still
      reports one millisecond. */
  lemma PartsAddUp(from: Time, till: Time, known: Time, now: Time)
    requires from < till && WholeMs(from) && WholeMs(till) && WholeMs(known) && WholeMs(now)
    ensures var window := EffectiveWindow(from, till, known, now);
            FutureMs(from, till, now) + OutsideMs(from, till, known, now)
                + (if window.Some? then WindowMs(window.value) else 0)
            == Millis(till - from) + (if window.Some? && window.value.start == window.value.end then 1 else 0)
  {
    WholeDifference(from, till);
    WholeDifference(now, till);
    WholeDifference(from, now);
    WholeDifference(from, known);
    WholeDifference(known, now);
    WholeDifference(known, till);
  }

  /** The requested window split into a future part, a part before the known scope, and the rest. */
  method GetCoverage(known: Time, now: Time, start: Option<Time>, end: Option<Time>, gaps: seq<Gap>,
                     latest: LatestSession)
    returns (from: Time, till: Time, s: Summary)
    ensures from == (if start.Some? then start.value else known) && from < till
    ensures end.Some? && end.value > from ==> till == end.value
    ensures s.window == EffectiveWindow(from, till, known, now)
    ensures forall t :: from <= t < till && known <= t < now <==> s.window.Some? && Contains(s.window.value, t)
    ensures s.futureMs == Millis(Max(till - Max(from, now), 0))
    ensures s.outsideMs == Millis(Max(Min(Min(till, now), known) - from, 0))
    ensures s.window.Some? ==>
              && Separated(s.merged)
              && (forall t :: InMerged(s.merged, t)
                              <==> Contains(s.window.value, t) && Unmonitored(gaps, latest, now, t))
              && s.uncoveredMs == ReportedMs(s.merged) && s.uncoveredMs + s.coveredMs == WindowMs(s.window.value)
    ensures (WholeMs(from) && WholeMs(till) && WholeMs(now) && WholeMs(known)) ==>
              s.futureMs + s.outsideMs + s.coveredMs + s.uncoveredMs
              == Millis(till - from) + (if s.window.Some? && s.window.value.start == s.window.value.end then 1 else 0)
  {
    hide Millis, Separated, Unmonitored, InMerged, WholeMs;
    from := if start.Some? then start.value else known;
    till := if end.Some? then end.value else now;
    if till <= from {
      till := from + SECOND;
    }
    PartsSay(from, till, known, now);
    if WholeMs(from) && WholeMs(till) && WholeMs(now) && WholeMs(known) {
      PartsAddUp(from, till, known, now);
    }
    if from > now {
      s := Summary(Millis(till - from), 0, None, [], 0, 0);
      return;
    }
    var future, outside := 0, 0;
    var effEnd := till;
    if effEnd > now {
      future := Millis(effEnd - now);
      effEnd := now;
    }
    if effEnd <= known {
      outside := Millis(effEnd - from);
      s := Summary(future, outside, None, [], 0, 0);
      return;
    }
    var effStart := from;
    if effStart < known {
      outside := Millis(known - effStart);
      effStart := known;
    }
    var window := Interval(effStart, effEnd);
    var merged, uncovered, covered := MeasureWindow(gaps, latest, window, now);
    s := Summary(future, outside, Some(window), merged, uncovered, covered);
  }
}
