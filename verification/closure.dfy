/** The dirty closure of incremental reclassification (accounting_v2.go, prepareIncrementalChunk)
    and when it reproduces the full reconciliation. */
module Closure {
  import opened Types
  import opened Matching
  import opened Classify
  import opened ConnState
  import opened Evidence

  /** The shared lastObserved contract: a terminal connection ends at its disappearance, any other
      one was present in the group's latest frame. */
  function EffectiveLastObs(s: Summary, frameTime: Time): Time {
    if s.disappearedAt.Some? && !(s.disappearedAt.value < s.lastEvent) then s.disappearedAt.value
    else if frameTime == ZERO_TIME then s.lastEvent
    else frameTime
  }

  function InfoOf(k: ConnKey, s: Summary, frameTime: Time): ConnInfo {
    ConnInfo(k, s.firstObs, EffectiveLastObs(s, frameTime), s.facts.route, s.facts.attr, s.facts.process,
             s.facts.rule, s.facts.chains, s.monitored)
  }

  /** The classification input of a table at the boundary of a journal prefix. */
  function InfosOf(table: Table, evs: seq<Event>): Group {
    map k | k in table :: InfoOf(k, table[k], FrameTime(evs, k.session, k.epoch))
  }

  /** The legacy full rebuild's classes at the boundary of a journal prefix. */
  ghost function FullClasses(evs: seq<Event>): map<ConnKey, AccountingClass> {
    GraphOf(InfosOf(TableOf(evs), evs)).Classes()
  }

  // ---------------------------------------------------------------------------------------------
  // The closure
  // ---------------------------------------------------------------------------------------------

  function FirstObsOf(table: Table, updates: Updates, k: ConnKey): Time
    requires k in updates
  {
    if k in table then table[k].firstObs else updates[k].firstObs
  }

  /** The earliest first observation over the chunk's own connections. */
  ghost predicate IsCutoff(table: Table, updates: Updates, cutoff: Time) {
    && (exists k :: k in updates && FirstObsOf(table, updates, k) == cutoff)
    && (forall k :: k in updates ==> cutoff <= FirstObsOf(table, updates, k))
  }

  /** A chunk without connection evidence needs no cutoff. */
  ghost predicate CutoffOk(table: Table, updates: Updates, cutoff: Time) {
    updates == map[] || IsCutoff(table, updates, cutoff)
  }

  /** What computing the cutoff guarantees: the zero instant doubles as "not set yet", so the minimum is
      only certain for instants after it. */
  ghost predicate CutoffComputed(table: Table, updates: Updates, cutoff: Time) {
    updates != map[] && (forall k :: k in updates ==> FirstObsOf(table, updates, k) > ZERO_TIME)
    ==> IsCutoff(table, updates, cutoff)
  }

  /** Connection evidence is dated after the zero instant. */
  ghost predicate AfterZero(evs: seq<Event>) {
    forall ev :: ev in evs && ev.body.conn.Some? ==> ev.body.at > ZERO_TIME
  }

  lemma {:induction false} EventsAfterZero(evs: seq<Event>, k: ConnKey)
    requires AfterZero(evs)
    ensures forall d :: d in EventsOf(evs, k) ==> d.at > ZERO_TIME
  {
    if evs != [] {
      assert evs == evs[..|evs| - 1] + [evs[|evs| - 1]];
      EventsAfterZero(evs[..|evs| - 1], k);
    }
  }

  /** For real instants the computed cutoff is the minimum. */
  lemma ComputedCutoffIsOk(before: seq<Event>, range: seq<Event>, cutoff: Time)
    requires FrameOrdered(before + range) && AfterZero(before + range)
    requires CutoffComputed(TableOf(before), UpdatesOf(range), cutoff)
    ensures CutoffOk(TableOf(before), UpdatesOf(range), cutoff)
  {
    hide FrameOrdered, FrameTime, Legacy, Aggregate, IsCutoff;
    assert forall ev :: ev in before || ev in range ==> ev in before + range;
    forall k | k in UpdatesOf(range) ensures FirstObsOf(TableOf(before), UpdatesOf(range), k) > ZERO_TIME {
      FirstObsAfterZero(before, range, k);
    }
  }

  lemma FirstObsAfterZero(before: seq<Event>, range: seq<Event>, k: ConnKey)
    requires FrameOrdered(before + range) && AfterZero(before) && AfterZero(range) && k in UpdatesOf(range)
    ensures FirstObsOf(TableOf(before), UpdatesOf(range), k) > ZERO_TIME
  {
    hide FrameOrdered, FrameTime, Legacy, Aggregate;
    var earlier, chunk := EventsOf(before, k), EventsOf(range, k);
    EventsAfterZero(before, k);
    EventsAfterZero(range, k);
    KeysHaveEvents(range, k);
    EventsOfConcat(before, range, k);
    EventsAreTimeOrdered(before + range, k);
    TimeOrderedParts(earlier, chunk);
    AggregateBounds(chunk);
    assert chunk[0] in chunk;
    if earlier != [] {
      LegacyBounds(earlier);
      assert earlier[0] in earlier;
    }
  }

  /** The SQL filter: live, recently terminal, recently active, or marked terminal before later evidence. */
  predicate Retained(s: Summary, cutoff: Time) {
    s.disappearedAt.None? || s.disappearedAt.value >= cutoff || s.lastEvent >= cutoff
    || s.lastEvent > s.disappearedAt.value
  }

  predicate Affected(updates: Updates, k: ConnKey) {
    exists d :: d in updates && SameGroup(d, k)
  }

  function ClosureKeys(table: Table, updates: Updates, cutoff: Time): set<ConnKey> {
    updates.Keys + set k | k in table && Affected(updates, k) && Retained(table[k], cutoff)
  }

  // ---------------------------------------------------------------------------------------------
  // Edges that cannot change
  // ---------------------------------------------------------------------------------------------

  predicate WellTimed(c: ConnInfo) {
    c.firstObs <= c.lastObs
  }

  /** Between well-timed connections the millisecond tolerance is never used. */
  lemma OverlapOfWellTimed(a: ConnInfo, b: ConnInfo)
    requires WellTimed(a) && WellTimed(b)
    ensures WindowsOverlap(a, b) <==> a.firstObs <= b.lastObs && b.firstObs <= a.lastObs
  {
  }

  /** `later` is the same connection seen again: only the end of its window may have moved. */
  predicate SameEvidence(earlier: ConnInfo, later: ConnInfo) {
    later == earlier.(lastObs := later.lastObs)
  }

  /** The window of a connection without new evidence either stays, or follows the frame time. */
  predicate Settled(earlier: ConnInfo, later: ConnInfo, frameTime: Time) {
    && SameEvidence(earlier, later) && WellTimed(earlier) && WellTimed(later)
    && (later.lastObs == earlier.lastObs || (earlier.lastObs == frameTime && later.lastObs >= frameTime))
  }

  /** Advancing the frame time without new connection evidence changes no edge. */
  lemma SettledEdgesStay(a: ConnInfo, a': ConnInfo, b: ConnInfo, b': ConnInfo, frameTime: Time)
    requires Settled(a, a', frameTime) && Settled(b, b', frameTime)
    requires a.firstObs <= frameTime && b.firstObs <= frameTime
    ensures Edge(a, b) <==> Edge(a', b')
  {
    OverlapOfWellTimed(a, b);
    OverlapOfWellTimed(a', b');
    assert ChainsMatch(a.chains, b.chains) <==> ChainsMatch(a'.chains, b'.chains);
  }

  /** A window that closed before the other one opened allows no edge. */
  lemma ClosedWindowHasNoEdge(a: ConnInfo, b: ConnInfo)
    requires a.lastObs < b.firstObs
    ensures !Edge(a, b) && !Edge(b, a)
  {
  }

  // ---------------------------------------------------------------------------------------------
  // Incremental reclassification equals the full rebuild
  // ---------------------------------------------------------------------------------------------

  lemma InfoWellTimed(evs: seq<Event>, k: ConnKey)
    requires FrameOrdered(evs) && k in TableOf(evs)
    ensures WellTimed(InfosOf(TableOf(evs), evs)[k])
    ensures InfosOf(TableOf(evs), evs)[k].firstObs <= FrameTime(evs, k.session, k.epoch)
  {
    SummaryWithinFrameTime(evs, k);
  }

  lemma UntouchedRow(before: seq<Event>, range: seq<Event>, k: ConnKey)
    requires FrameOrdered(before + range) && k in TableOf(before + range) && k !in UpdatesOf(range)
    ensures k in TableOf(before) && TableOf(before + range)[k] == TableOf(before)[k]
  {
    ApplyUpdatesExtendsTable(before, range);
  }

  /** A connection without events in the range is settled. */
  lemma UntouchedIsSettled(before: seq<Event>, range: seq<Event>, k: ConnKey)
    requires FrameOrdered(before + range) && k in TableOf(before + range) && k !in UpdatesOf(range)
    ensures k in TableOf(before)
    ensures Settled(InfosOf(TableOf(before), before)[k], InfosOf(TableOf(before + range), before + range)[k],
                    FrameTime(before, k.session, k.epoch))
  {
    UntouchedRow(before, range, k);
    FrameTimeGrows(before, range, k.session, k.epoch);
    SummaryWithinFrameTime(before, k);
    InfoWellTimed(before, k);
    InfoWellTimed(before + range, k);
  }

  /** A connection left out of an affected group ended before any of the chunk's connections began. */
  lemma LeftOutEndedEarlier(before: seq<Event>, range: seq<Event>, cutoff: Time, x: ConnKey, y: ConnKey)
    requires FrameOrdered(before + range) && x in TableOf(before + range) && y in TableOf(before + range)
    requires IsCutoff(TableOf(before), UpdatesOf(range), cutoff)
    requires x !in ClosureKeys(TableOf(before), UpdatesOf(range), cutoff) && y in UpdatesOf(range) && SameGroup(x, y)
    ensures x in TableOf(before)
    ensures var old', new' := InfosOf(TableOf(before), before), InfosOf(TableOf(before + range), before + range);
            && new'[x].lastObs < new'[y].firstObs
            && (y in old' ==> old'[x].lastObs < old'[y].firstObs)
  {
    UntouchedRow(before, range, x);
    assert Affected(UpdatesOf(range), x);
    LeftOutWindow(TableOf(before)[x], cutoff, FrameTime(before, x.session, x.epoch));
    LeftOutWindow(TableOf(before)[x], cutoff, FrameTime(before + range, x.session, x.epoch));
    FirstObsKept(before, range, y);
  }

  lemma LeftOutWindow(s: Summary, cutoff: Time, frameTime: Time)
    requires !Retained(s, cutoff)
    ensures EffectiveLastObs(s, frameTime) < cutoff
  {
  }

  lemma FirstObsKept(before: seq<Event>, range: seq<Event>, y: ConnKey)
    requires FrameOrdered(before + range) && y in UpdatesOf(range)
    ensures y in TableOf(before + range)
    ensures TableOf(before + range)[y].firstObs == FirstObsOf(TableOf(before), UpdatesOf(range), y)
  {
    ApplyUpdatesExtendsTable(before, range);
  }

  /** No edge of a left-out connection appears or disappears. */
  lemma LeftOutEdgesStay(before: seq<Event>, range: seq<Event>, cutoff: Time, x: ConnKey, y: ConnKey)
    requires FrameOrdered(before + range) && x in TableOf(before + range) && y in TableOf(before + range)
    requires IsCutoff(TableOf(before), UpdatesOf(range), cutoff)
    requires x !in ClosureKeys(TableOf(before), UpdatesOf(range), cutoff)
    ensures var old', new' := InfosOf(TableOf(before), before), InfosOf(TableOf(before + range), before + range);
            && x in old'
            && (Edge(new'[x], new'[y]) <==> y in old' && Edge(old'[x], old'[y]))
            && (Edge(new'[y], new'[x]) <==> y in old' && Edge(old'[y], old'[x]))
  {
    var old', new' := InfosOf(TableOf(before), before), InfosOf(TableOf(before + range), before + range);
    UntouchedRow(before, range, x);
    if SameGroup(x, y) {
      if y in UpdatesOf(range) {
        LeftOutEndedEarlier(before, range, cutoff, x, y);
        ClosedWindowHasNoEdge(new'[x], new'[y]);
        if y in old' {
          ClosedWindowHasNoEdge(old'[x], old'[y]);
        }
      } else {
        QuietEdgesStay(before, range, x, y);
        QuietEdgesStay(before, range, y, x);
      }
    }
  }

  /** The classes stored after a chunk: decided anew inside the closure, kept outside. */
  ghost function StoredAfter(stored: map<ConnKey, AccountingClass>, after: Graph<ConnKey>, closure: set<ConnKey>)
    : map<ConnKey, AccountingClass>
    requires after.roles.Keys <= stored.Keys + closure
  {
    map k | k in after.roles :: if k in closure then Restrict(after, closure).ClassOf(k) else stored[k]
  }

  lemma TablesGrow(before: seq<Event>, range: seq<Event>)
    requires FrameOrdered(before + range)
    ensures TableOf(before + range).Keys == TableOf(before).Keys + UpdatesOf(range).Keys
  {
    ApplyUpdatesExtendsTable(before, range);
  }

  lemma EdgeMember(g: Group, a: ConnKey, b: ConnKey)
    ensures (a, b) in GraphOf(g).edges <==> a in g && b in g && Edge(g[a], g[b])
  {
  }

  /** Two groups that agree on roles and edges outside `part` have graphs that do. */
  ghost predicate AgreeOutside(g: Group, g': Group, part: set<ConnKey>) {
    && (forall k :: k in g' && k !in part ==> k in g && RoleOf(g[k]) == RoleOf(g'[k]))
    && (forall a, b :: a in g' && b in g' && (a !in part || b !in part) ==>
          (Edge(g'[a], g'[b]) <==> a in g && b in g && Edge(g[a], g[b])))
    && g.Keys <= g'.Keys
  }

  lemma GraphsAgreeOutside(g: Group, g': Group, part: set<ConnKey>)
    requires AgreeOutside(g, g', part)
    ensures forall k :: k in g' && k !in part ==> k in g && GraphOf(g).roles[k] == GraphOf(g').roles[k]
    ensures forall e: (ConnKey, ConnKey) :: e.0 !in part || e.1 !in part ==>
              (e in GraphOf(g).edges <==> e in GraphOf(g').edges)
  {
    forall e: (ConnKey, ConnKey) | e.0 !in part || e.1 !in part
      ensures e in GraphOf(g).edges <==> e in GraphOf(g').edges
    {
      EdgeMember(g, e.0, e.1);
      EdgeMember(g', e.0, e.1);
    }
  }

  lemma StoredAfterIsFull(g: Group, g': Group, part: set<ConnKey>)
    requires AgreeOutside(g, g', part) && NoBorderEdge(GraphOf(g'), part)
    ensures StoredAfter(GraphOf(g).Classes(), GraphOf(g'), part) == GraphOf(g').Classes()
  {
    GraphOfValid(g);
    GraphOfValid(g');
    GraphsAgreeOutside(g, g', part);
    OutsideClassesStable(GraphOf(g), GraphOf(g'), part);
    PartialClassesAgree(GraphOf(g'), part);
  }

  lemma LeftOutKeepsRole(before: seq<Event>, range: seq<Event>, k: ConnKey)
    requires FrameOrdered(before + range) && k in TableOf(before + range) && k !in UpdatesOf(range)
    ensures k in TableOf(before)
    ensures RoleOf(InfosOf(TableOf(before), before)[k]) == RoleOf(InfosOf(TableOf(before + range), before + range)[k])
  {
    hide FrameTime, FrameOrdered, TableOf;
    UntouchedIsSettled(before, range, k);
  }

  lemma LeftOutAgree(before: seq<Event>, range: seq<Event>, cutoff: Time, closure: set<ConnKey>, old': Group,
                     new': Group)
    requires FrameOrdered(before + range) && IsCutoff(TableOf(before), UpdatesOf(range), cutoff)
    requires closure == ClosureKeys(TableOf(before), UpdatesOf(range), cutoff)
    requires old' == InfosOf(TableOf(before), before) && new' == InfosOf(TableOf(before + range), before + range)
    ensures AgreeOutside(old', new', closure)
  {
    hide AgreeOutside, Edge, InfoOf, RoleOf, FrameTime, FrameOrdered, TableOf, IsCutoff;
    TablesGrow(before, range);
    forall k | k in new' && k !in closure ensures k in old' && RoleOf(old'[k]) == RoleOf(new'[k]) {
      LeftOutKeepsRole(before, range, k);
    }
    LeftOutEdgesAgree(before, range, cutoff, closure, old', new');
    AgreementParts(old', new', closure);
  }

  lemma AgreementParts(g: Group, g': Group, part: set<ConnKey>)
    requires g.Keys <= g'.Keys
    requires forall k :: k in g' && k !in part ==> k in g && RoleOf(g[k]) == RoleOf(g'[k])
    requires forall a, b :: a in g' && b in g' && (a !in part || b !in part) ==>
                              (Edge(g'[a], g'[b]) <==> a in g && b in g && Edge(g[a], g[b]))
    ensures AgreeOutside(g, g', part)
  {
    hide Edge, RoleOf;
  }

  lemma LeftOutEdgesAgree(before: seq<Event>, range: seq<Event>, cutoff: Time, closure: set<ConnKey>, old': Group,
                          new': Group)
    requires FrameOrdered(before + range) && IsCutoff(TableOf(before), UpdatesOf(range), cutoff)
    requires closure == ClosureKeys(TableOf(before), UpdatesOf(range), cutoff)
    requires old' == InfosOf(TableOf(before), before) && new' == InfosOf(TableOf(before + range), before + range)
    ensures forall a, b :: a in new' && b in new' && (a !in closure || b !in closure) ==>
                             (Edge(new'[a], new'[b]) <==> a in old' && b in old' && Edge(old'[a], old'[b]))
  {
    hide Edge, InfoOf, FrameTime, FrameOrdered, TableOf, IsCutoff, ClosureKeys;
    forall a, b | a in new' && b in new' && (a !in closure || b !in closure)
      ensures Edge(new'[a], new'[b]) <==> a in old' && b in old' && Edge(old'[a], old'[b])
    {
      if a !in closure {
        LeftOutEdgesStay(before, range, cutoff, a, b);
      } else {
        LeftOutEdgesStay(before, range, cutoff, b, a);
      }
    }
  }

  /** Reclassifying only the dirty closure stores the full rebuild's classes, for every connection
      inside or outside the closure, provided no match edge crosses the closure border. */
  lemma IncrementalEqualsFull(before: seq<Event>, range: seq<Event>, cutoff: Time)
    requires FrameOrdered(before + range)
    requires IsCutoff(TableOf(before), UpdatesOf(range), cutoff)
    requires NoBorderEdge(GraphOf(InfosOf(TableOf(before + range), before + range)),
                          ClosureKeys(TableOf(before), UpdatesOf(range), cutoff))
    ensures TableOf(before + range).Keys == TableOf(before).Keys + UpdatesOf(range).Keys
    ensures StoredAfter(FullClasses(before), GraphOf(InfosOf(TableOf(before + range), before + range)),
                        ClosureKeys(TableOf(before), UpdatesOf(range), cutoff))
            == FullClasses(before + range)
  {
    hide Edge, InfoOf, RoleOf, FrameTime, FrameOrdered, TableOf, IsCutoff, ClosureKeys;
    var closure := ClosureKeys(TableOf(before), UpdatesOf(range), cutoff);
    var old', new' := InfosOf(TableOf(before), before), InfosOf(TableOf(before + range), before + range);
    TablesGrow(before, range);
    LeftOutAgree(before, range, cutoff, closure, old', new');
    StoredAfterIsFull(old', new', closure);
  }

  /** What must hold for the stored classes of a chunk to be the full rebuild's: inside the closure the
      border decides nothing, and outside it no kept candidate's only partner changed its suitors. */
  ghost predicate ChunkHarmless(before: Graph<ConnKey>, after: Graph<ConnKey>, closure: set<ConnKey>) {
    forall k :: k in after.roles && after.roles[k].Candidate? ==>
      if k in closure then BorderHarmless(after, closure, k) else SuitorsHarmless(before, after, k)
  }

  lemma StoredAfterIsFullIff(g: Group, g': Group, part: set<ConnKey>)
    requires AgreeOutside(g, g', part)
    ensures GraphOf(g').roles.Keys <= GraphOf(g).Classes().Keys + part
    ensures StoredAfter(GraphOf(g).Classes(), GraphOf(g'), part) == GraphOf(g').Classes()
            <==> ChunkHarmless(GraphOf(g), GraphOf(g'), part)
  {
    hide Edge, RoleOf, BorderHarmless, SuitorsHarmless, AgreeOutside;
    var before, after := GraphOf(g), GraphOf(g');
    AgreementCovers(g, g', part);
    var stored := StoredAfter(before.Classes(), after, part);
    forall k | k in g'
      ensures stored[k] == after.ClassOf(k)
              <==> (after.roles[k].Candidate? ==>
                    if k in part then BorderHarmless(after, part, k) else SuitorsHarmless(before, after, k))
    {
      MemberIsFullIff(g, g', part, k);
    }
    assert stored == after.Classes() <==> forall k :: k in g' ==> stored[k] == after.Classes()[k];
  }

  lemma AgreementCovers(g: Group, g': Group, part: set<ConnKey>)
    requires AgreeOutside(g, g', part)
    ensures GraphOf(g').roles.Keys == g'.Keys && GraphOf(g).Classes().Keys == g.Keys && g'.Keys <= g.Keys + part
  {
  }

  lemma MemberIsFullIff(g: Group, g': Group, part: set<ConnKey>, k: ConnKey)
    requires AgreeOutside(g, g', part) && k in g' && GraphOf(g').roles.Keys <= GraphOf(g).Classes().Keys + part
    ensures StoredAfter(GraphOf(g).Classes(), GraphOf(g'), part)[k] == GraphOf(g').ClassOf(k)
            <==> (GraphOf(g').roles[k].Candidate? ==>
                    if k in part then BorderHarmless(GraphOf(g'), part, k)
                    else SuitorsHarmless(GraphOf(g), GraphOf(g'), k))
  {
    hide Edge, RoleOf, BorderHarmless, SuitorsHarmless, AgreeOutside;
    GraphOfValid(g);
    GraphOfValid(g');
    if k in part {
      PartialClassExactIff(GraphOf(g'), part, k);
    } else {
      OutsideKeepsPartners(g, g', part, k);
      KeptClassExactIff(GraphOf(g), GraphOf(g'), k);
    }
  }

  lemma OutsideKeepsPartners(g: Group, g': Group, part: set<ConnKey>, k: ConnKey)
    requires AgreeOutside(g, g', part) && k in g' && k !in part
    ensures k in g && GraphOf(g).roles[k] == GraphOf(g').roles[k]
    ensures GraphOf(g).Partners(k) == GraphOf(g').Partners(k)
  {
    GraphsAgreeOutside(g, g', part);
    GraphOfValid(g);
    GraphOfValid(g');
    forall l ensures l in GraphOf(g).Partners(k) <==> l in GraphOf(g').Partners(k) {
      assert (k, l).0 !in part;
    }
  }

  /** The exact condition for every chunk: the stored classes equal the full rebuild's if and only if no
      candidate's decision depends on the closure border. */
  lemma IncrementalEqualsFullIff(before: seq<Event>, range: seq<Event>, cutoff: Time)
    requires FrameOrdered(before + range)
    requires IsCutoff(TableOf(before), UpdatesOf(range), cutoff)
    ensures TableOf(before + range).Keys == TableOf(before).Keys + UpdatesOf(range).Keys
    ensures StoredAfter(FullClasses(before), GraphOf(InfosOf(TableOf(before + range), before + range)),
                        ClosureKeys(TableOf(before), UpdatesOf(range), cutoff))
            == FullClasses(before + range)
            <==> ChunkHarmless(GraphOf(InfosOf(TableOf(before), before)),
                               GraphOf(InfosOf(TableOf(before + range), before + range)),
                               ClosureKeys(TableOf(before), UpdatesOf(range), cutoff))
  {
    hide Edge, InfoOf, RoleOf, FrameTime, FrameOrdered, TableOf, IsCutoff, ClosureKeys, ChunkHarmless;
    var closure := ClosureKeys(TableOf(before), UpdatesOf(range), cutoff);
    var old', new' := InfosOf(TableOf(before), before), InfosOf(TableOf(before + range), before + range);
    TablesGrow(before, range);
    LeftOutAgree(before, range, cutoff, closure, old', new');
    StoredAfterIsFullIff(old', new', closure);
  }

  /** A chunk without connection evidence reclassifies nothing, and nothing needed reclassifying. */
  lemma QuietRangeKeepsClasses(before: seq<Event>, range: seq<Event>)
    requires FrameOrdered(before + range) && UpdatesOf(range) == map[]
    ensures FullClasses(before + range) == FullClasses(before)
  {
    hide AgreeOutside, Edge, InfoOf, RoleOf, FrameTime, FrameOrdered, TableOf, UpdatesOf;
    var old', new' := InfosOf(TableOf(before), before), InfosOf(TableOf(before + range), before + range);
    TablesGrow(before, range);
    forall k | k in new' ensures k in old' && RoleOf(old'[k]) == RoleOf(new'[k]) {
      LeftOutKeepsRole(before, range, k);
    }
    forall a, b | a in new' && b in new' ensures Edge(new'[a], new'[b]) <==> Edge(old'[a], old'[b]) {
      QuietEdgesStay(before, range, a, b);
    }
    AgreementParts(old', new', {});
    StoredAfterIsFull(old', new', {});
    assert StoredAfter(GraphOf(old').Classes(), GraphOf(new'), {}) == GraphOf(old').Classes();
  }

  lemma QuietEdgesStay(before: seq<Event>, range: seq<Event>, a: ConnKey, b: ConnKey)
    requires FrameOrdered(before + range) && a in TableOf(before + range) && b in TableOf(before + range)
    requires a !in UpdatesOf(range) && b !in UpdatesOf(range)
    ensures a in TableOf(before) && b in TableOf(before)
    ensures Edge(InfosOf(TableOf(before + range), before + range)[a],
                 InfosOf(TableOf(before + range), before + range)[b])
            <==> Edge(InfosOf(TableOf(before), before)[a], InfosOf(TableOf(before), before)[b])
  {
    var old', new' := InfosOf(TableOf(before), before), InfosOf(TableOf(before + range), before + range);
    UntouchedIsSettled(before, range, a);
    UntouchedIsSettled(before, range, b);
    if SameGroup(a, b) {
      FrameTimeGrows(before, range, a.session, a.epoch);
      InfoWellTimed(before, a);
      InfoWellTimed(before, b);
      SettledEdgesStay(old'[a], new'[a], old'[b], new'[b], FrameTime(before, a.session, a.epoch));
    }
  }

  // ---------------------------------------------------------------------------------------------
  // The border hypothesis is needed
  // ---------------------------------------------------------------------------------------------

  function ExampleKey(conn: ConnId): ConnKey {
    ConnKey(1, 1, conn)
  }

  const RELAY_META := Meta("", "", "", "", "", "", ["node"], "")
  const APP_META := Meta("app", "", "", "", "rule", "", ["node", "group"], "")

  function ExampleEvent(frame: nat, seqno: nat, typ: EventType, at: Time, conn: ConnId, meta: Meta, attr: Attr,
                        delta: Bytes): Event {
    Event(Pos(1, 1, frame, seqno),
          Draft(typ, at, Some(conn), meta, "", Proxy, attr, Bytes(9000, 9000), delta, Bytes(9000, 9000), NO_BYTES,
                false, None, ExactSnapshot, NoDetails))
  }

  function RelayOpens(frame: nat, seqno: nat, at: Time, conn: ConnId): Event {
    ExampleEvent(frame, seqno, ConnectionNew, at, conn, RELAY_META, RelayCandidate, Bytes(9000, 9000))
  }

  function AppOpens(): Event {
    ExampleEvent(1, 2, ConnectionNew, 10, 2, APP_META, KnownApplication, Bytes(9000, 9000))
  }

  function RelayCloses(): Event {
    ExampleEvent(2, 1, ConnectionDisappeared, 20, 1, RELAY_META, RelayCandidate, NO_BYTES)
  }

  /** A relay candidate (1) and the application connection (2) it matches open at 10; at 20 the relay is
      gone and the application lives on. */
  function ExampleBefore(): seq<Event> {
    [RelayOpens(1, 1, 10, 1), AppOpens(), RelayCloses()]
  }

  /** At 30 a new relay candidate (3) opens, which matches the same application connection. */
  function ExampleRange(): seq<Event> {
    [RelayOpens(3, 1, 30, 3)]
  }

  const RELAY_FACTS := Facts(Proxy, RelayCandidate, "", "", "", "", "", ["node"])
  const APP_FACTS := Facts(Proxy, KnownApplication, "app", "", "", "rule", "", ["node", "group"])

  function ExampleTable(): Table {
    map[ExampleKey(1) := Summary(10, 20, Some(20), RELAY_FACTS, Bytes(9000, 9000)),
        ExampleKey(2) := Summary(10, 10, None, APP_FACTS, Bytes(9000, 9000))]
  }

  function ExampleUpdates(): Updates {
    map[ExampleKey(3) := Update(true, 30, 30, None, LifecycleActive, RELAY_FACTS, Bytes(9000, 9000))]
  }

  function ExampleRelay(conn: ConnId, first: Time, last: Time): ConnInfo {
    ConnInfo(ExampleKey(conn), first, last, Proxy, RelayCandidate, "", "", ["node"], Bytes(9000, 9000))
  }

  function ExampleApp(first: Time, last: Time): ConnInfo {
    ConnInfo(ExampleKey(2), first, last, Proxy, KnownApplication, "app", "rule", ["node", "group"], Bytes(9000, 9000))
  }

  function InfosBefore(): Group {
    map[ExampleKey(1) := ExampleRelay(1, 10, 20), ExampleKey(2) := ExampleApp(10, 20)]
  }

  function InfosAfter(): Group {
    map[ExampleKey(1) := ExampleRelay(1, 10, 20), ExampleKey(2) := ExampleApp(10, 30),
        ExampleKey(3) := ExampleRelay(3, 30, 30)]
  }

  lemma ExamplePrefixes()
    ensures ExampleBefore()[..2] == [RelayOpens(1, 1, 10, 1), AppOpens()]
    ensures ExampleBefore()[..2][..1] == [RelayOpens(1, 1, 10, 1)]
    ensures ExampleBefore()[..2][..1][..0] == []
    ensures (ExampleBefore() + ExampleRange())[..3] == ExampleBefore()
    ensures ExampleRange()[..0] == []
  {
  }

  lemma ExampleFrames()
    ensures FrameOrdered(ExampleBefore() + ExampleRange())
    ensures FrameTime(ExampleBefore(), 1, 1) == 20 && FrameTime(ExampleBefore() + ExampleRange(), 1, 1) == 30
  {
    ExamplePrefixes();
    assert FrameTime([], 1, 1) == 0;
    assert FrameTime(ExampleBefore()[..2][..1], 1, 1) == 10;
    assert FrameTime(ExampleBefore()[..2], 1, 1) == 10;
    assert FrameOrdered(ExampleBefore()[..2][..1]);
    assert FrameOrdered(ExampleBefore()[..2]);
    assert FrameOrdered(ExampleBefore());
  }

  lemma ExampleEventsOf(k: ConnKey)
    ensures EventsOf(ExampleBefore(), k)
            == if k == ExampleKey(1) then [RelayOpens(1, 1, 10, 1).body, RelayCloses().body]
               else if k == ExampleKey(2) then [AppOpens().body] else []
    ensures EventsOf(ExampleRange(), k) == if k == ExampleKey(3) then [RelayOpens(3, 1, 30, 3).body] else []
  {
    ExamplePrefixes();
    assert EventsOf([], k) == [];
    assert EventsOf(ExampleBefore()[..2][..1], k) == if k == ExampleKey(1) then [RelayOpens(1, 1, 10, 1).body] else [];
  }

  lemma ExampleRows()
    ensures Legacy([RelayOpens(1, 1, 10, 1).body, RelayCloses().body]) == ExampleTable()[ExampleKey(1)]
    ensures Legacy([AppOpens().body]) == ExampleTable()[ExampleKey(2)]
    ensures Aggregate([RelayOpens(3, 1, 30, 3).body]) == ExampleUpdates()[ExampleKey(3)]
  {
    var opens, closes := RelayOpens(1, 1, 10, 1).body, RelayCloses().body;
    assert [opens, closes][..1] == [opens];
    assert Legacy([opens]) == Summary(10, 10, None, RELAY_FACTS, Bytes(9000, 9000));
    assert [RelayOpens(3, 1, 30, 3).body][..0] == [];
  }

  lemma ExampleTableIs()
    ensures TableOf(ExampleBefore()) == ExampleTable()
    ensures UpdatesOf(ExampleRange()) == ExampleUpdates()
  {
    hide Legacy, Aggregate, KeysIn, EventsOf, ExampleBefore, ExampleRange, RelayOpens, RelayCloses, AppOpens;
    forall k
      ensures k in TableOf(ExampleBefore()) <==> k in ExampleTable()
      ensures k in UpdatesOf(ExampleRange()) <==> k in ExampleUpdates()
    {
      ExampleEventsOf(k);
      KeysHaveEvents(ExampleBefore(), k);
      KeysHaveEvents(ExampleRange(), k);
    }
    ExampleRows();
    ExampleEventsOf(ExampleKey(1));
    ExampleEventsOf(ExampleKey(2));
    ExampleEventsOf(ExampleKey(3));
  }

  lemma ExampleInfosAre()
    ensures InfosOf(TableOf(ExampleBefore()), ExampleBefore()) == InfosBefore()
    ensures InfosOf(TableOf(ExampleBefore() + ExampleRange()), ExampleBefore() + ExampleRange()) == InfosAfter()
  {
    hide FrameTime, FrameOrdered, TableOf, UpdatesOf;
    ExampleFrames();
    ExampleTableIs();
    ApplyUpdatesExtendsTable(ExampleBefore(), ExampleRange());
  }

  lemma ExampleRoles(conn: ConnId, first: Time, last: Time, start: Time, now: Time)
    ensures RoleOf(ExampleRelay(conn, first, last)) == Candidate && RoleOf(ExampleApp(start, now)) == Logical
  {
    assert Blank("");
  }

  lemma ExampleMatches(conn: ConnId, first: Time, last: Time, start: Time, now: Time)
    requires start <= last <= now && first <= last
    ensures Edge(ExampleRelay(conn, first, last), ExampleApp(start, now))
  {
    var relay, app := ExampleRelay(conn, first, last), ExampleApp(start, now);
    ExampleRoles(conn, first, last, start, now);
    assert relay.chains[0] == app.chains[0] && relay.chains[0] in app.chains;
    assert ChainsMatch(relay.chains, app.chains);
    assert WindowsOverlap(relay, app);
    assert TrafficMatch(relay.monitored, app.monitored);
  }

  lemma EdgeNeedsRoles(a: ConnInfo, b: ConnInfo)
    ensures Edge(a, b) ==> RoleOf(a) == Candidate && RoleOf(b) == Logical
  {
  }

  /** A graph with the application connection 2 and the relay candidates `relays`, all matching it. */
  ghost predicate StarGraph(g: Graph<ConnKey>, relays: set<ConnKey>) {
    && g.Valid() && ExampleKey(2) !in relays
    && g.roles.Keys == relays + {ExampleKey(2)} && g.roles[ExampleKey(2)] == Logical
    && (forall r :: r in relays ==> g.roles[r] == Candidate)
    && (forall a, b :: (a, b) in g.edges <==> b == ExampleKey(2) && a in relays)
  }

  lemma StarOf(g: Group, relays: set<ConnKey>)
    requires g.Keys == relays + {ExampleKey(2)} && ExampleKey(2) !in relays && RoleOf(g[ExampleKey(2)]) == Logical
    requires forall r :: r in relays ==> RoleOf(g[r]) == Candidate && Edge(g[r], g[ExampleKey(2)])
    ensures StarGraph(GraphOf(g), relays)
  {
    hide RoleOf, Edge;
    GraphOfValid(g);
    forall a, b ensures (a, b) in GraphOf(g).edges <==> b == ExampleKey(2) && a in relays {
      EdgeMember(g, a, b);
      if a in g && b in g {
        EdgeNeedsRoles(g[a], g[b]);
      }
    }
  }

  lemma ExampleGraphs()
    ensures StarGraph(GraphOf(InfosBefore()), {ExampleKey(1)})
    ensures StarGraph(GraphOf(InfosAfter()), {ExampleKey(1), ExampleKey(3)})
  {
    hide ExampleRelay, ExampleApp, RoleOf, Edge, GraphOf, StarGraph;
    ExampleMatches(1, 10, 20, 10, 20);
    ExampleMatches(1, 10, 20, 10, 30);
    ExampleMatches(3, 30, 30, 10, 30);
    ExampleRoles(1, 10, 20, 10, 20);
    ExampleRoles(1, 10, 20, 10, 30);
    ExampleRoles(3, 30, 30, 10, 30);
    StarOf(InfosBefore(), {ExampleKey(1)});
    StarOf(InfosAfter(), {ExampleKey(1), ExampleKey(3)});
  }

  lemma StarClasses(g: Graph<ConnKey>, relays: set<ConnKey>, r: ConnKey)
    requires StarGraph(g, relays) && r in relays
    ensures g.Partners(r) == {ExampleKey(2)}
    ensures g.ClassOf(r) == if relays == {r} then ConfirmedDuplicate else AmbiguousRelay
  {
    assert (r, ExampleKey(2)) in g.edges;
    assert g.Suitors(ExampleKey(2)) == relays;
    if relays == {r} {
      assert g.ConfirmedPair(r, ExampleKey(2));
    }
  }

  lemma ExampleClosure()
    ensures IsCutoff(ExampleTable(), ExampleUpdates(), 30)
    ensures ClosureKeys(ExampleTable(), ExampleUpdates(), 30) == {ExampleKey(2), ExampleKey(3)}
  {
    assert FirstObsOf(ExampleTable(), ExampleUpdates(), ExampleKey(3)) == 30;
    assert Affected(ExampleUpdates(), ExampleKey(2));
  }

  lemma StarRestricted(g: Graph<ConnKey>)
    requires StarGraph(g, {ExampleKey(1), ExampleKey(3)})
    ensures StarGraph(Restrict(g, {ExampleKey(2), ExampleKey(3)}), {ExampleKey(3)})
  {
  }

  /** Incremental and full reconciliation disagree on these journals: candidate 1 keeps the confirmation
      it had, and the chunk confirms candidate 3 against the same application connection, while the full
      rebuild finds both ambiguous. */
  lemma BorderEdgeChangesClass()
    ensures var before, range := ExampleBefore(), ExampleRange();
            var one, two, three := ExampleKey(1), ExampleKey(2), ExampleKey(3);
            var after := GraphOf(InfosOf(TableOf(before + range), before + range));
            && FrameOrdered(before + range) && IsCutoff(TableOf(before), UpdatesOf(range), 30)
            && after.roles.Keys == {one, two, three} && FullClasses(before).Keys == {one, two}
            && ClosureKeys(TableOf(before), UpdatesOf(range), 30) == {two, three}
            && var stored := StoredAfter(FullClasses(before), after, {two, three});
               && after.Partners(one) == {two} && after.Partners(three) == {two}
               && stored[one] == ConfirmedDuplicate && stored[three] == ConfirmedDuplicate
               && FullClasses(before + range)[one] == AmbiguousRelay
               && FullClasses(before + range)[three] == AmbiguousRelay
               && stored != FullClasses(before + range)
  {
    hide InfosOf, InfosBefore, InfosAfter, TableOf, UpdatesOf, FrameOrdered, IsCutoff, ClosureKeys, GraphOf, StarGraph;
    var before, range := ExampleBefore(), ExampleRange();
    var one, two, three := ExampleKey(1), ExampleKey(2), ExampleKey(3);
    ExampleFrames();
    ExampleTableIs();
    ExampleInfosAre();
    ExampleClosure();
    ExampleGraphs();
    var earlier, after := GraphOf(InfosBefore()), GraphOf(InfosAfter());
    StarClasses(earlier, {one}, one);
    StarClasses(after, {one, three}, one);
    StarClasses(after, {one, three}, three);
    StarRestricted(after);
    StarClasses(Restrict(after, {two, three}), {three}, three);
    StarKeys(earlier, {one});
    StarKeys(after, {one, three});
  }

  lemma StarKeys(g: Graph<ConnKey>, relays: set<ConnKey>)
    requires StarGraph(g, relays)
    ensures g.roles.Keys == relays + {ExampleKey(2)}
  {
  }
}
