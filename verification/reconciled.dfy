/** What the full reconciliation of a journal prefix says, stated on the journal: the classification input of
    every connection, and which connections it pairs. */
module Reconciled {
  import opened Types
  import opened Attribution
  import opened Matching
  import opened Classify
  import opened ConnState
  import opened Evidence
  import opened Closure

  // ---------------------------------------------------------------------------------------------
  // The classification input
  // ---------------------------------------------------------------------------------------------

  /** The last word about the connection is its disappearance: nothing dated later came after it. */
  ghost predicate IsGone(evs: seq<Draft>) {
    exists i :: LastTurn(evs, i) && evs[i].typ.ConnectionDisappeared? && evs[i].at == evs[|evs| - 1].at
  }

  /** A connection counts as observed from its first event to its disappearance, or to the group's latest frame
      if that was not its last word. */
  lemma WindowSays(journal: seq<Event>, k: ConnKey)
    requires k in TableOf(journal) && FrameOrdered(journal) && AfterZero(journal)
    ensures var info, evs := InfosOf(TableOf(journal), journal)[k], EventsOf(journal, k);
            && evs != [] && info.firstObs == evs[0].at
            && info.lastObs == (if IsGone(evs) then evs[|evs| - 1].at else FrameTime(journal, k.session, k.epoch))
            && info.firstObs <= info.lastObs
  {
    hide FrameOrdered, FrameTime, Legacy, LastTurn;
    var evs := EventsOf(journal, k);
    EventsAreTimeOrdered(journal, k);
    EventsAfterZero(journal, k);
    LegacyBounds(evs);
    SummaryWithinFrameTime(journal, k);
    DisappearanceIsLatest(evs);
    assert evs[0] in evs;
    assert IsGone(evs) <==> Legacy(evs).disappearedAt == Some(evs[|evs| - 1].at);
  }

  /** Its facts are the latest ones the journal states, and its bytes are all its deltas. */
  lemma InputSays(journal: seq<Event>, k: ConnKey)
    requires k in TableOf(journal)
    ensures var info := InfosOf(TableOf(journal), journal)[k];
            && info.key == k
            && LatestSays(journal, k, StatedRoute, NoRoute, info.route)
            && LatestSays(journal, k, StatedAttr, NoAttr, info.attr)
            && LatestSays(journal, k, StatedProcess, "", info.process)
            && LatestSays(journal, k, StatedRule, "", info.rule)
            && LatestSays(journal, k, StatedChains, [], info.chains)
            && ((forall d :: d in EventsOf(journal, k) ==> d.delta.up >= 0 && d.delta.down >= 0) ==>
                  info.monitored == DeltaSum(EventsOf(journal, k)))
  {
    hide LatestSays, FrameTime, Legacy;
    TableFactsAreLatest(journal, k);
    if forall d :: d in EventsOf(journal, k) ==> d.delta.up >= 0 && d.delta.down >= 0 {
      MonitoredIsDeltaSum(EventsOf(journal, k));
    }
  }

  /** A partner is left out of the dirty closure only if its disappearance is its last word and lies before
      every connection of the chunk began. */
  lemma LeftOutIff(s: Summary, cutoff: Time)
    requires s.disappearedAt.Some? ==> s.disappearedAt.value <= s.lastEvent
    ensures !Retained(s, cutoff) <==> s.disappearedAt == Some(s.lastEvent) && s.lastEvent < cutoff
  {
  }

  // ---------------------------------------------------------------------------------------------
  // The pairs
  // ---------------------------------------------------------------------------------------------

  /** The frame deduplicator and the reconciliation see the same sides: a connection whose only word is its
      introduction has in its group the role it had in its frame. */
  lemma StagesAgree(m: Meta, c: ConnInfo)
    requires c.process == m.process && c.rule == m.rule && c.chains == m.chains
    requires c.route == ClassifyRoute(m.chains) && c.attr == ClassifyInitialAttribution(m)
    ensures RoleOf(c) == FrameRole(m)
  {
    hide ClassifyRoute;
    SidesOf(c);
  }

  /** At the end of the prefix the two connections look like the two sides of one relayed flow. */
  ghost predicate Relays(journal: seq<Event>, c: ConnKey, l: ConnKey) {
    var infos := InfosOf(TableOf(journal), journal);
    c in infos && l in infos && SameFlow(infos[c], infos[l])
  }

  predicate SameFlow(cand: ConnInfo, log: ConnInfo) {
    && cand.key.session == log.key.session && cand.key.epoch == log.key.epoch
    && ((!Blank(log.process) && !Blank(log.rule)) || log.attr == KnownApplication)
    && (Blank(cand.process) || Blank(cand.rule)) && cand.attr != KnownApplication
    && (|| cand.attr == RelayCandidate || cand.attr == ConfirmedRelayDuplicate
        || (Blank(cand.process) && Blank(cand.rule) && cand.route == Proxy))
    && cand.chains != [] && |log.chains| >= 2 && cand.chains[0] == log.chains[0]
    && cand.firstObs <= log.lastObs && log.firstObs <= cand.lastObs
    && (cand.monitored.up > 500 || cand.monitored.down > 500 || log.monitored.up > 500 || log.monitored.down > 500)
    && Near(cand.monitored.up, log.monitored.up) && Near(cand.monitored.down, log.monitored.down)
  }

  lemma RelaysIsEdge(journal: seq<Event>, c: ConnKey, l: ConnKey)
    requires FrameOrdered(journal) && AfterZero(journal)
    ensures Relays(journal, c, l) <==> (c, l) in GraphOf(InfosOf(TableOf(journal), journal)).edges
  {
    hide FrameOrdered, FrameTime, Near, Blank, TableOf, EffectiveLastObs;
    var infos := InfosOf(TableOf(journal), journal);
    if c in infos && l in infos {
      WindowSays(journal, c);
      WindowSays(journal, l);
      EdgeIff(infos, c, l);
    }
  }

  /** The full reconciliation of every journal prefix, said of the journal: a connection is a confirmed duplicate
      exactly when it relays for one connection only and is the only one that relays for it, and a candidate that
      relays for some connection otherwise is ambiguous. */
  lemma FullClassesIff(journal: seq<Event>, k: ConnKey)
    requires FrameOrdered(journal) && AfterZero(journal) && k in TableOf(journal)
    ensures k in FullClasses(journal)
    ensures FullClasses(journal)[k] == ConfirmedDuplicate
            <==> exists l :: Relays(journal, k, l) && (forall x :: Relays(journal, k, x) ==> x == l)
                             && (forall x :: Relays(journal, x, l) ==> x == k)
    ensures FullClasses(journal)[k] in {ConfirmedDuplicate, AmbiguousRelay} <==> exists l :: Relays(journal, k, l)
  {
    hide FrameOrdered, AfterZero, Relays, TableOf, EffectiveLastObs, Roles;
    var g := GraphOf(InfosOf(TableOf(journal), journal));
    GraphOfValid(InfosOf(TableOf(journal), journal));
    forall c, l ensures Relays(journal, c, l) <==> (c, l) in g.edges {
      RelaysIsEdge(journal, c, l);
    }
    assert k in g.roles by { RolesCover(InfosOf(TableOf(journal), journal), k); }
    ClassIff(g, k);
    if l :| (k, l) in g.edges {
      assert Relays(journal, k, l);
    }
  }

  lemma RolesCover(infos: Group, k: ConnKey)
    requires k in infos
    ensures k in GraphOf(infos).roles
  {
  }
}
