/** Relay reconciliation of one connection group (accounting_classify.go, classifyConnectionGroup).

    The specification is a match graph over connection keys, so it cannot depend on the order in
    which the group is presented; the method keeps the source's lists and loops and is proved against it. */
module Classify {
  import opened Types
  import opened Matching

  /** A connection as the reconciliation sees it. */
  datatype ConnInfo = ConnInfo(key: ConnKey, firstObs: Time, lastObs: Time, route: Route, attr: Attr,
                               process: string, rule: string, chains: seq<string>, monitored: Bytes)

  type Group = map<ConnKey, ConnInfo>

  /** Keys name their own entries: the group is a table with the key column inside the row. */
  ghost predicate Keyed(g: Group) {
    forall k :: k in g ==> g[k].key == k
  }

  predicate HasProcessAndRule(c: ConnInfo) {
    !Blank(c.process) && !Blank(c.rule)
  }

  predicate IsLogical(c: ConnInfo) {
    HasProcessAndRule(c) || c.attr == KnownApplication
  }

  predicate LooksLikeRelay(c: ConnInfo) {
    || c.attr == RelayCandidate
    || c.attr == ConfirmedRelayDuplicate
    || (Blank(c.process) && Blank(c.rule) && c.chains != [] && c.route == Proxy)
  }

  predicate IsCandidate(c: ConnInfo) {
    !IsLogical(c) && !HasProcessAndRule(c) && LooksLikeRelay(c)
  }

  predicate SameGroup(a: ConnKey, b: ConnKey) {
    a.session == b.session && a.epoch == b.epoch
  }

  /** Observation windows meet; the remaining tolerance is the truncation of Milliseconds(). */
  predicate WindowsOverlap(cand: ConnInfo, log: ConnInfo) {
    && !(cand.lastObs < log.firstObs)
    && !(cand.firstObs > log.lastObs)
    && Min(cand.lastObs, log.lastObs) - Max(cand.firstObs, log.firstObs) > -MILLISECOND
  }

  predicate RatioBelowFifth(diff: int, max: int) {
    max > 0 && 5 * diff < max
  }

  predicate RatioWithinTwentieth(diff: int, max: int) {
    max > 0 && 20 * diff <= max
  }

  predicate SmallDiff(a: int, b: int) {
    Abs(a - b) < 2000 && RatioBelowFifth(Abs(a - b), Max(a, b))
  }

  predicate DirectionMatch(a: int, b: int) {
    RatioWithinTwentieth(Abs(a - b), Max(a, b)) || SmallDiff(a, b)
  }

  predicate TrafficMatch(cand: Bytes, log: Bytes) {
    && (cand.up > 500 || cand.down > 500 || log.up > 500 || log.down > 500)
    && if log.up > 500 && log.down > 500 then
         DirectionMatch(cand.up, log.up) && DirectionMatch(cand.down, log.down)
       else if log.down > 2000 && log.up <= 500 then
         DirectionMatch(cand.down, log.down) && SmallDiff(cand.up, log.up)
       else if log.up > 2000 && log.down <= 500 then
         DirectionMatch(cand.up, log.up) && SmallDiff(cand.down, log.down)
       else
         DirectionMatch(cand.up, log.up) && DirectionMatch(cand.down, log.down)
  }

  predicate Matches(cand: ConnInfo, log: ConnInfo) {
    ChainsMatch(cand.chains, log.chains) && WindowsOverlap(cand, log) && TrafficMatch(cand.monitored, log.monitored)
  }

  function RoleOf(c: ConnInfo): Role {
    if IsLogical(c) then Logical else if IsCandidate(c) then Candidate else Neither
  }

  /** Reconciliation runs group by group, so edges never leave a (session, epoch) group. */
  predicate Edge(cand: ConnInfo, log: ConnInfo) {
    SameGroup(cand.key, log.key) && IsCandidate(cand) && IsLogical(log) && Matches(cand, log)
  }

  function Roles(g: Group): map<ConnKey, Role> {
    map k | k in g :: RoleOf(g[k])
  }

  function GraphOf(g: Group): Graph<ConnKey> {
    Graph(Roles(g),
          set a, b | a in g && b in g && Edge(g[a], g[b]) :: (a, b))
  }

  lemma GraphOfValid(g: Group)
    ensures GraphOf(g).Valid()
  {
  }

  // ---------------------------------------------------------------------------------------------
  // What the rule accepts
  // ---------------------------------------------------------------------------------------------

  /** Two counters of one direction agree: they differ by at most a twentieth of the larger, or by less
      than 2000 bytes and less than a fifth of it. */
  predicate Near(a: int, b: int) {
    var larger, apart := Max(a, b), Abs(a - b);
    larger > 0 && (20 * apart <= larger || (apart < 2000 && 5 * apart < larger))
  }

  /** The one-sided branches of the traffic rule accept nothing else: beside a side of at most 500 bytes
      a twentieth is less than 2000 bytes anyway. */
  lemma TrafficRule(cand: Bytes, log: Bytes)
    ensures TrafficMatch(cand, log)
            <==> && (cand.up > 500 || cand.down > 500 || log.up > 500 || log.down > 500)
                 && Near(cand.up, log.up) && Near(cand.down, log.down)
  {
  }

  /** The edges of a group, said of its connections: an application connection (process and rule known, or
      recognised when first seen) relays for a nameless one of the same session and epoch through the same
      first hop, while both are observed, with counters that agree in both directions. */
  lemma EdgeIff(g: Group, c: ConnKey, l: ConnKey)
    requires Keyed(g) && c in g && l in g
    ensures var cand, log := g[c], g[l];
            (c, l) in GraphOf(g).edges
            <==> && c.session == l.session && c.epoch == l.epoch
                 && ((!Blank(log.process) && !Blank(log.rule)) || log.attr == KnownApplication)
                 && (Blank(cand.process) || Blank(cand.rule)) && cand.attr != KnownApplication
                 && (|| cand.attr == RelayCandidate || cand.attr == ConfirmedRelayDuplicate
                     || (Blank(cand.process) && Blank(cand.rule) && cand.route == Proxy))
                 && cand.chains != [] && |log.chains| >= 2 && cand.chains[0] == log.chains[0]
                 && cand.firstObs <= log.lastObs && log.firstObs <= cand.lastObs
                 && cand.firstObs - cand.lastObs < MILLISECOND && log.firstObs - log.lastObs < MILLISECOND
                 && (|| cand.monitored.up > 500 || cand.monitored.down > 500
                     || log.monitored.up > 500 || log.monitored.down > 500)
                 && Near(cand.monitored.up, log.monitored.up) && Near(cand.monitored.down, log.monitored.down)
  {
    hide TrafficMatch, Near, Blank, ChainsMatch, WindowsOverlap, IsLogical, IsCandidate;
    var cand, log := g[c], g[l];
    TrafficRule(cand.monitored, log.monitored);
    ChainsMatchIff(cand.chains, log.chains);
    WindowsMeet(cand, log);
    SidesOf(cand);
    SidesOf(log);
    assert (c, l) in GraphOf(g).edges <==> Edge(cand, log);
  }

  lemma WindowsMeet(cand: ConnInfo, log: ConnInfo)
    ensures WindowsOverlap(cand, log)
            <==> && cand.firstObs <= log.lastObs && log.firstObs <= cand.lastObs
                 && cand.firstObs - cand.lastObs < MILLISECOND && log.firstObs - log.lastObs < MILLISECOND
  {
  }

  lemma SidesOf(c: ConnInfo)
    ensures IsLogical(c) <==> (!Blank(c.process) && !Blank(c.rule)) || c.attr == KnownApplication
    ensures IsCandidate(c)
            <==> && (Blank(c.process) || Blank(c.rule)) && c.attr != KnownApplication
                 && (|| c.attr == RelayCandidate || c.attr == ConfirmedRelayDuplicate
                     || (Blank(c.process) && Blank(c.rule) && c.chains != [] && c.route == Proxy))
  {
  }

  /** What a confirmed pair may be apart in one direction. */
  predicate Bounded(a: int, b: int) {
    && (Max(a, b) >= 40_000 ==> 20 * Abs(a - b) <= Max(a, b))
    && (Max(a, b) < 40_000 ==> Abs(a - b) < 2000 && 5 * Abs(a - b) < Max(a, b))
  }

  /** What always suffices. */
  predicate Equalish(a: int, b: int) {
    Max(a, b) > 0 && 20 * Abs(a - b) <= Max(a, b)
  }

  /** A duplicate is deducted only against a connection that carried the same bytes: to a twentieth in every
      direction of 40000 bytes or more, to less than 2000 bytes and a fifth below. */
  lemma ConfirmedBytesAgree(g: Group, c: ConnKey, l: ConnKey)
    requires Keyed(g) && GraphOf(g).ConfirmedPair(c, l)
    ensures c in g && l in g
    ensures Bounded(g[c].monitored.up, g[l].monitored.up) && Bounded(g[c].monitored.down, g[l].monitored.down)
  {
    GraphOfValid(g);
    assert l in GraphOf(g).Partners(c);
    EdgeIff(g, c, l);
  }

  /** Conversely, an unnamed and a named connection of one group with matching chains, meeting windows and bytes
      within a twentieth of each other always pair. */
  lemma AgreeingBytesPair(g: Group, c: ConnKey, l: ConnKey)
    requires Keyed(g) && c in g && l in g && SameGroup(c, l)
    requires RoleOf(g[c]) == Candidate && RoleOf(g[l]) == Logical
    requires g[c].chains != [] && |g[l].chains| >= 2 && g[c].chains[0] == g[l].chains[0]
    requires g[c].firstObs <= g[c].lastObs && g[l].firstObs <= g[l].lastObs
    requires g[c].firstObs <= g[l].lastObs && g[l].firstObs <= g[c].lastObs
    requires Equalish(g[c].monitored.up, g[l].monitored.up) && Equalish(g[c].monitored.down, g[l].monitored.down)
    requires Max(Max(g[c].monitored.up, g[c].monitored.down), Max(g[l].monitored.up, g[l].monitored.down)) > 500
    ensures (c, l) in GraphOf(g).edges
  {
    EdgeIff(g, c, l);
  }

  // ---------------------------------------------------------------------------------------------
  // What a confirmed pair guarantees about bytes
  // ---------------------------------------------------------------------------------------------

  /** Whatever branch accepted the pair, the two sides differ by less than a fifth in both directions. */
  lemma MatchedBytesAreClose(cand: Bytes, log: Bytes)
    requires TrafficMatch(cand, log)
    ensures 4 * cand.up < 5 * log.up && 4 * cand.down < 5 * log.down
    ensures 4 * log.up < 5 * cand.up && 4 * log.down < 5 * cand.down
  {
    DirectionMatchIsClose(cand.up, log.up);
    DirectionMatchIsClose(cand.down, log.down);
  }

  lemma DirectionMatchIsClose(a: int, b: int)
    ensures DirectionMatch(a, b) ==> 4 * a < 5 * b && 4 * b < 5 * a
  {
  }

  /** The bytes a whole group deducts as confirmed duplicates are covered, up to the factor 5/4, by
      the bytes it keeps on logical connections. */
  lemma GroupDeductionBound(g: Group)
    requires Keyed(g) && forall k :: k in g ==> g[k].monitored.up >= 0 && g[k].monitored.down >= 0
    ensures var graph := GraphOf(g);
            var deducted := set k | k in g && graph.ClassOf(k) == ConfirmedDuplicate;
            var kept := set k | k in g && graph.ClassOf(k) == Unique;
            && 4 * Sum(k => if k in g then g[k].monitored.up else 0, deducted)
               <= 5 * Sum(k => if k in g then g[k].monitored.up else 0, kept)
            && 4 * Sum(k => if k in g then g[k].monitored.down else 0, deducted)
               <= 5 * Sum(k => if k in g then g[k].monitored.down else 0, kept)
  {
    var graph := GraphOf(g);
    GraphOfValid(g);
    var deducted := set k | k in g && graph.ClassOf(k) == ConfirmedDuplicate;
    var kept := set k | k in g && graph.ClassOf(k) == Unique;
    forall c, l | c in deducted && graph.ConfirmedPair(c, l)
      ensures l in kept && 4 * g[c].monitored.up <= 5 * g[l].monitored.up
              && 4 * g[c].monitored.down <= 5 * g[l].monitored.down
    {
      ConfirmedPairsAreInjective(graph, c, l, c, l);
      assert (c, l) in graph.edges;
      MatchedBytesAreClose(g[c].monitored, g[l].monitored);
    }
    DeductionBound(graph, k => if k in g then g[k].monitored.up else 0, deducted, kept);
    DeductionBound(graph, k => if k in g then g[k].monitored.down else 0, deducted, kept);
  }

  // ---------------------------------------------------------------------------------------------
  // The algorithm
  // ---------------------------------------------------------------------------------------------

  function GroupOf(conns: seq<ConnInfo>): Group {
    if conns == [] then map[]
    else GroupOf(conns[..|conns| - 1])[conns[|conns| - 1].key := conns[|conns| - 1]]
  }

  ghost predicate DistinctKeys(conns: seq<ConnInfo>) {
    forall i, j :: 0 <= i < j < |conns| ==> conns[i].key != conns[j].key
  }

  lemma {:induction false} GroupOfMembers(conns: seq<ConnInfo>)
    requires DistinctKeys(conns)
    ensures Keyed(GroupOf(conns))
    ensures forall c :: c in conns <==> c.key in GroupOf(conns) && GroupOf(conns)[c.key] == c
  {
    if conns != [] {
      var front, last := conns[..|conns| - 1], conns[|conns| - 1];
      GroupOfMembers(front);
      assert conns == front + [last];
    }
  }

  /** The source gathers a group from a Go map, in no particular order: the order has no effect. */
  lemma GroupOfIgnoresOrder(conns: seq<ConnInfo>, shuffled: seq<ConnInfo>)
    requires DistinctKeys(conns) && DistinctKeys(shuffled)
    requires forall c :: c in conns <==> c in shuffled
    ensures GroupOf(conns) == GroupOf(shuffled)
  {
    GroupOfMembers(conns);
    GroupOfMembers(shuffled);
    var g, h := GroupOf(conns), GroupOf(shuffled);
    forall k | k in g ensures k in h && h[k] == g[k] {
      assert g[k] in conns;
    }
    forall k | k in h ensures k in g {
      assert h[k] in shuffled;
    }
  }

  datatype RelationStatus = RelayConfirmed | RelayAmbiguous | RelayUnpaired

  datatype Relation = Relation(cand: ConnKey, log: Option<ConnKey>, status: RelationStatus)

  /** The relation record stored for a candidate names its partner exactly when there is only one. */
  ghost predicate RecordsDecision(graph: Graph<ConnKey>, r: Relation) {
    && r.cand in graph.roles && graph.roles[r.cand].Candidate?
    && (forall l :: r.log == Some(l) <==> graph.Partners(r.cand) == {l})
    && match graph.ClassOf(r.cand)
       case Unique => false
       case MissingAttribution => r.status == RelayUnpaired
       case ConfirmedDuplicate => r.status == RelayConfirmed
       case AmbiguousRelay => r.status == RelayAmbiguous
  }

  /** The state of the first loop: keys listed by role, and every class that needs no matching. */
  ghost predicate Split(roles: map<ConnKey, Role>, candidates: seq<ConnKey>, logicals: seq<ConnKey>,
                        classes: map<ConnKey, AccountingClass>) {
    && Distinct(candidates) && Distinct(logicals)
    && (forall k :: k in candidates <==> k in roles && roles[k] == Candidate)
    && (forall k :: k in logicals <==> k in roles && roles[k] == Logical)
    && (forall k :: k in classes <==> k in roles && roles[k] != Candidate)
    && (forall k :: k in classes ==> classes[k] == if roles[k] == Logical then Unique else MissingAttribution)
  }

  lemma RolesStep(conns: seq<ConnInfo>, i: nat)
    requires DistinctKeys(conns) && i < |conns|
    ensures conns[i].key !in Roles(GroupOf(conns[..i]))
    ensures Roles(GroupOf(conns[..i + 1])) == Roles(GroupOf(conns[..i]))[conns[i].key := RoleOf(conns[i])]
  {
    FreshKey(conns, i);
    assert conns[..i + 1][..i] == conns[..i];
  }

  method SplitByRole(conns: seq<ConnInfo>)
    returns (candidates: seq<ConnKey>, logicals: seq<ConnKey>, classes: map<ConnKey, AccountingClass>)
    requires DistinctKeys(conns)
    ensures Split(Roles(GroupOf(conns)), candidates, logicals, classes)
  {
    candidates, logicals, classes := [], [], map[];
    for i := 0 to |conns|
      invariant Split(Roles(GroupOf(conns[..i])), candidates, logicals, classes)
    {
      var c := conns[i];
      RolesStep(conns, i);
      if IsLogical(c) {
        logicals := logicals + [c.key];
        classes := classes[c.key := Unique];
      } else if IsCandidate(c) {
        candidates := candidates + [c.key];
      } else {
        classes := classes[c.key := MissingAttribution];
      }
    }
    assert conns[..|conns|] == conns;
  }

  lemma FreshKey(conns: seq<ConnInfo>, i: nat)
    requires DistinctKeys(conns) && i < |conns|
    ensures conns[i].key !in GroupOf(conns[..i])
  {
    var front := conns[..i];
    GroupOfMembers(front);
    assert forall c :: c in front ==> c.key != conns[i].key;
  }

  method Decide(ghost graph: Graph<ConnKey>, cand: ConnKey, mine: seq<ConnKey>, suitors: Lists<ConnKey>)
    returns (decided: AccountingClass, relation: Relation)
    requires graph.Valid() && cand in graph.roles && graph.roles[cand].Candidate?
    requires Enumerates(mine, graph.Partners(cand))
    requires forall l :: l in graph.Partners(cand) ==> Enumerates(ListFor(suitors, l), graph.Suitors(l))
    ensures decided == graph.ClassOf(cand)
    ensures relation.cand == cand && RecordsDecision(graph, relation)
  {
    SingletonList(mine, graph.Partners(cand));
    if |mine| == 0 {
      decided, relation := MissingAttribution, Relation(cand, None, RelayUnpaired);
    } else if |mine| == 1 {
      var single := mine[0];
      assert single in graph.Partners(cand);
      SingletonList(ListFor(suitors, single), graph.Suitors(single));
      assert cand in graph.Suitors(single);
      if |ListFor(suitors, single)| == 1 {
        assert graph.ConfirmedPair(cand, single);
        decided, relation := ConfirmedDuplicate, Relation(cand, Some(single), RelayConfirmed);
      } else {
        decided, relation := AmbiguousRelay, Relation(cand, Some(single), RelayAmbiguous);
      }
    } else {
      assert mine[0] in graph.Partners(cand) && mine[1] in graph.Partners(cand);
      decided, relation := AmbiguousRelay, Relation(cand, None, RelayAmbiguous);
    }
  }

  /** The contract shared by the legacy rebuild and incremental accounting: the class of every
      connection and one relation record per candidate. */
  method ClassifyConnectionGroup(conns: seq<ConnInfo>)
    returns (classes: map<ConnKey, AccountingClass>, relations: seq<Relation>)
    requires DistinctKeys(conns)
    requires forall a, b :: a in conns && b in conns ==> SameGroup(a.key, b.key)
    ensures classes == GraphOf(GroupOf(conns)).Classes()
    ensures forall r :: r in relations ==> RecordsDecision(GraphOf(GroupOf(conns)), r)
    ensures forall i, j :: 0 <= i < j < |relations| ==> relations[i].cand != relations[j].cand
    ensures forall k :: k in classes && GraphOf(GroupOf(conns)).roles[k].Candidate? ==>
                          exists r :: r in relations && r.cand == k
  {
    var g := GroupOf(conns);
    ghost var graph := GraphOf(g);
    GraphOfValid(g);
    var candidates, logicals;
    candidates, logicals, classes := SplitByRole(conns);
    var matches := (c, l) => c in g && l in g && Matches(g[c], g[l]);
    MatchesAreEdges(conns, candidates, logicals, matches);
    var partners, suitors := CollectMatches(graph, candidates, logicals, matches);
    classes, relations := DecideAll(graph, candidates, logicals, partners, suitors, classes);
    OneRelationPerCandidate(graph, candidates, relations);
  }

  lemma MatchesAreEdges(conns: seq<ConnInfo>, candidates: seq<ConnKey>, logicals: seq<ConnKey>,
                        matches: (ConnKey, ConnKey) -> bool)
    requires DistinctKeys(conns) && forall a, b :: a in conns && b in conns ==> SameGroup(a.key, b.key)
    requires forall k :: k in candidates <==> k in GroupOf(conns) && RoleOf(GroupOf(conns)[k]) == Candidate
    requires forall k :: k in logicals <==> k in GroupOf(conns) && RoleOf(GroupOf(conns)[k]) == Logical
    requires forall c, l :: c in candidates && l in logicals ==>
                              matches(c, l) == Matches(GroupOf(conns)[c], GroupOf(conns)[l])
    ensures forall c, l :: c in candidates && l in logicals ==>
                             (matches(c, l) <==> (c, l) in GraphOf(GroupOf(conns)).edges)
  {
    var g := GroupOf(conns);
    GroupOfMembers(conns);
    forall c, l | c in candidates && l in logicals
      ensures matches(c, l) <==> (c, l) in GraphOf(g).edges
    {
      assert g[c] in conns && g[l] in conns;
      assert Edge(g[c], g[l]) <==> Matches(g[c], g[l]);
    }
  }

  /** One relation record per candidate, in candidate order. */
  ghost predicate RecordsAll(graph: Graph<ConnKey>, candidates: seq<ConnKey>, relations: seq<Relation>) {
    && |relations| == |candidates|
    && forall j :: 0 <= j < |relations| ==> relations[j].cand == candidates[j] && RecordsDecision(graph, relations[j])
  }

  lemma OneRelationPerCandidate(graph: Graph<ConnKey>, candidates: seq<ConnKey>, relations: seq<Relation>)
    requires RecordsAll(graph, candidates, relations) && Distinct(candidates)
    requires forall k :: k in candidates <==> k in graph.roles && graph.roles[k] == Candidate
    ensures forall r :: r in relations ==> RecordsDecision(graph, r)
    ensures forall i, j :: 0 <= i < j < |relations| ==> relations[i].cand != relations[j].cand
    ensures forall k :: k in graph.roles && graph.roles[k].Candidate? ==> exists r :: r in relations && r.cand == k
  {
    forall k | k in graph.roles && graph.roles[k].Candidate? ensures exists r :: r in relations && r.cand == k {
      var j :| 0 <= j < |candidates| && candidates[j] == k;
      assert relations[j] in relations;
    }
  }

  method DecideAll(ghost graph: Graph<ConnKey>, candidates: seq<ConnKey>, ghost logicals: seq<ConnKey>,
                   partners: Lists<ConnKey>, suitors: Lists<ConnKey>, settled: map<ConnKey, AccountingClass>)
    returns (classes: map<ConnKey, AccountingClass>, relations: seq<Relation>)
    requires graph.Valid() && Split(graph.roles, candidates, logicals, settled)
    requires forall c :: c in candidates ==> Enumerates(ListFor(partners, c), graph.Partners(c))
    requires forall l :: l in logicals ==> Enumerates(ListFor(suitors, l), graph.Suitors(l))
    ensures classes == graph.Classes()
    ensures RecordsAll(graph, candidates, relations)
  {
    hide RecordsDecision;
    classes, relations := settled, [];
    for i := 0 to |candidates|
      invariant forall k :: k in classes <==> k in settled || k in candidates[..i]
      invariant forall k :: k in classes ==> k in graph.roles && classes[k] == graph.ClassOf(k)
      invariant RecordsAll(graph, candidates[..i], relations)
    {
      var cand := candidates[i];
      assert cand in candidates;
      assert candidates[..i + 1] == candidates[..i] + [cand];
      assert forall l :: l in graph.Partners(cand) ==> l in logicals;
      var decided, relation := Decide(graph, cand, ListFor(partners, cand), suitors);
      classes := classes[cand := decided];
      relations := relations + [relation];
    }
    assert candidates[..|candidates|] == candidates;
  }
}
