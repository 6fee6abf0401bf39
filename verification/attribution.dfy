/** Route and attribution rules, and the per-frame relay deduplicator (attribution.go). */
module Attribution {
  import opened Types
  import opened Matching

  function TrimLeft(s: string): string {
    if s != "" && IsSpace(s[0]) then TrimLeft(s[1..]) else s
  }

  function TrimRight(s: string): string {
    if s != "" && IsSpace(s[|s| - 1]) then TrimRight(s[..|s| - 1]) else s
  }

  /** unicode.ToUpper as far as it can produce an ASCII letter of a reserved hop name. */
  function Upper(c: char): char {
    if 'a' <= c <= 'z' then c - 'a' + 'A' else if c == '\U{131}' then 'I' else c
  }

  function UpperAll(s: string): string {
    seq(|s|, i requires 0 <= i < |s| => Upper(s[i]))
  }

  function ClassifyRoute(chains: seq<string>): Route {
    if chains == [] then Unknown
    else
      var topHop := UpperAll(TrimLeft(TrimRight(chains[0])));
      if topHop == "DIRECT" then Direct else if topHop == "REJECT" then Reject else Proxy
  }

  function ClassifyInitialAttribution(m: Meta): Attr {
    if !Blank(m.process) && !Blank(m.rule) then KnownApplication
    else if Blank(m.process) && Blank(m.rule) && m.chains != [] then RelayCandidate
    else UnpairedMissingAttr
  }

  predicate HasTraffic(cand: Bytes, log: Bytes) {
    cand.up > 500 || cand.down > 500 || log.up > 500 || log.down > 500
  }

  /** Within 2000 bytes, or within a twentieth of the logical side. */
  predicate DeltaMatch(cand: int, log: int) {
    Abs(cand - log) < 2000 || (log > 0 && 20 * Abs(cand - log) < log)
  }

  predicate CheckStructuralRelayPair(cand: Meta, log: Meta, candDelta: Bytes, logDelta: Bytes) {
    && ChainsMatch(cand.chains, log.chains)
    && HasTraffic(candDelta, logDelta)
    && if logDelta.up > 500 && logDelta.down > 500 then
         DeltaMatch(candDelta.up, logDelta.up) && DeltaMatch(candDelta.down, logDelta.down)
       else if logDelta.down > 2000 && logDelta.up <= 500 then
         DeltaMatch(candDelta.down, logDelta.down) && Abs(candDelta.up - logDelta.up) < 2000
       else if logDelta.up > 2000 && logDelta.down <= 500 then
         DeltaMatch(candDelta.up, logDelta.up) && Abs(candDelta.down - logDelta.down) < 2000
       else
         DeltaMatch(candDelta.up, logDelta.up) && DeltaMatch(candDelta.down, logDelta.down)
  }

  // ---------------------------------------------------------------------------------------------
  // The frame's match graph
  // ---------------------------------------------------------------------------------------------

  type Metas = map<ConnId, Meta>

  type Deltas = map<ConnId, Bytes>

  function MetasOf(conns: seq<Snapshot>): Metas {
    if conns == [] then map[]
    else MetasOf(conns[..|conns| - 1])[conns[|conns| - 1].id := conns[|conns| - 1].meta]
  }

  lemma {:induction false} MetasOfMembers(conns: seq<Snapshot>)
    requires DistinctIds(conns)
    ensures forall c :: c in conns ==> c.id in MetasOf(conns) && MetasOf(conns)[c.id] == c.meta
    ensures forall id :: id in MetasOf(conns) ==> exists c :: c in conns && c.id == id
  {
    if conns != [] {
      var front, last := conns[..|conns| - 1], conns[|conns| - 1];
      MetasOfMembers(front);
      assert conns == front + [last];
      forall c | c in front ensures c.id != last.id {
      }
      forall id | id in MetasOf(conns) ensures exists c :: c in conns && c.id == id {
        if id == last.id {
          assert last in conns;
        } else {
          assert id in MetasOf(front);
          var c :| c in front && c.id == id;
          assert c in conns;
        }
      }
    }
  }

  function FrameRole(m: Meta): Role {
    match ClassifyInitialAttribution(m)
    case RelayCandidate => Candidate
    case KnownApplication => Logical
    case _ => Neither
  }

  function DeltaAt(deltas: Deltas, id: ConnId): Bytes {
    if id in deltas then deltas[id] else NO_BYTES
  }

  predicate FrameEdge(metas: Metas, deltas: Deltas, cand: ConnId, log: ConnId) {
    && cand in metas && log in metas
    && FrameRole(metas[cand]).Candidate? && FrameRole(metas[log]).Logical?
    && CheckStructuralRelayPair(metas[cand], metas[log], DeltaAt(deltas, cand), DeltaAt(deltas, log))
  }

  function FrameGraph(metas: Metas, deltas: Deltas): Graph<ConnId> {
    Graph(map id | id in metas :: FrameRole(metas[id]),
          set a, b | a in metas && b in metas && FrameEdge(metas, deltas, a, b) :: (a, b))
  }

  // ---------------------------------------------------------------------------------------------
  // What the rules accept
  // ---------------------------------------------------------------------------------------------

  /** A letter or its lower case; the dotless i is an I. */
  predicate SameLetter(c: char, upper: char) {
    c == upper || ('A' <= upper <= 'Z' && c == upper - 'A' + 'a') || (upper == 'I' && c == '\U{131}')
  }

  predicate SameLetters(s: string, name: string) {
    |s| == |name| && forall i :: 0 <= i < |name| ==> SameLetter(s[i], name[i])
  }

  predicate SpelledAs(s: string, left: string, core: string, right: string, name: string) {
    s == left + core + right && Blank(left) && Blank(right) && SameLetters(core, name)
  }

  /** `s` is the name in any case, with any white space around it. */
  ghost predicate Spells(s: string, name: string) {
    exists left, core, right :: SpelledAs(s, left, core, right, name)
  }

  lemma {:induction false} TrimRightSplits(s: string) returns (right: string)
    ensures s == TrimRight(s) + right && Blank(right)
  {
    if s != "" && IsSpace(s[|s| - 1]) {
      var rest := TrimRightSplits(s[..|s| - 1]);
      right := rest + [s[|s| - 1]];
    } else {
      right := "";
    }
  }

  lemma {:induction false} TrimLeftSplits(s: string) returns (left: string)
    ensures s == left + TrimLeft(s) && Blank(left)
  {
    if s != "" && IsSpace(s[0]) {
      var rest := TrimLeftSplits(s[1..]);
      left := [s[0]] + rest;
    } else {
      left := "";
    }
  }

  lemma {:induction false} TrimRightOf(s: string, right: string)
    requires s != "" && !IsSpace(s[|s| - 1]) && Blank(right)
    ensures TrimRight(s + right) == s
  {
    if right == "" {
      assert s + right == s;
    } else {
      TrimRightOf(s, right[..|right| - 1]);
      assert (s + right)[..|s + right| - 1] == s + right[..|right| - 1];
    }
  }

  lemma {:induction false} TrimLeftOf(left: string, s: string)
    requires s != "" && !IsSpace(s[0]) && Blank(left)
    ensures TrimLeft(left + s) == s
  {
    if left == "" {
      assert left + s == s;
    } else {
      TrimLeftOf(left[1..], s);
      assert (left + s)[1..] == left[1..] + s;
    }
  }

  predicate IsName(name: string) {
    name != "" && forall i :: 0 <= i < |name| ==> 'A' <= name[i] <= 'Z'
  }

  lemma LettersAreNoSpace(s: string, name: string)
    requires SameLetters(s, name) && IsName(name)
    ensures !IsSpace(s[0]) && !IsSpace(s[|s| - 1])
  {
    assert SameLetter(s[0], name[0]) && SameLetter(s[|s| - 1], name[|s| - 1]);
  }

  lemma UpperIsName(s: string, name: string)
    requires IsName(name)
    ensures UpperAll(s) == name <==> SameLetters(s, name)
  {
    if UpperAll(s) == name {
      assert forall i :: 0 <= i < |s| ==> UpperAll(s)[i] == Upper(s[i]);
    }
    if SameLetters(s, name) {
      assert forall i :: 0 <= i < |s| ==> SameLetter(s[i], name[i]);
    }
  }

  /** Trimming and upper-casing recognise a name exactly where it is spelled. */
  lemma TrimmedIsName(s: string, name: string)
    requires IsName(name)
    ensures UpperAll(TrimLeft(TrimRight(s))) == name <==> Spells(s, name)
  {
    hide UpperAll, Upper, SameLetters, IsSpace;
    UpperIsName(TrimLeft(TrimRight(s)), name);
    if SameLetters(TrimLeft(TrimRight(s)), name) {
      var right := TrimRightSplits(s);
      var left := TrimLeftSplits(TrimRight(s));
      assert SpelledAs(s, left, TrimLeft(TrimRight(s)), right, name);
    }
    if left, core, right :| SpelledAs(s, left, core, right, name) {
      LettersAreNoSpace(core, name);
      SpelledIsNamed(s, left, core, right, name);
    }
  }

  lemma SpelledIsNamed(s: string, left: string, core: string, right: string, name: string)
    requires SpelledAs(s, left, core, right, name) && IsName(name)
    ensures TrimLeft(TrimRight(s)) == core
  {
    LettersAreNoSpace(core, name);
    TrimRightOf(left + core, right);
    TrimLeftOf(left, core);
  }

  /** A route is direct or rejected exactly when the first hop spells it, unknown without hops. */
  lemma RouteIff(chains: seq<string>)
    ensures ClassifyRoute(chains) == Unknown <==> chains == []
    ensures ClassifyRoute(chains) == Direct <==> chains != [] && Spells(chains[0], "DIRECT")
    ensures ClassifyRoute(chains) == Reject <==> chains != [] && Spells(chains[0], "REJECT")
    ensures ClassifyRoute(chains) != NoRoute
  {
    hide Spells, UpperAll, TrimLeft, TrimRight;
    if chains != [] {
      TrimmedIsName(chains[0], "DIRECT");
      TrimmedIsName(chains[0], "REJECT");
    }
  }

  /** The frame's counters of one direction agree: less than 2000 bytes apart, or less than a twentieth of the
      application's. */
  predicate NearInFrame(cand: int, log: int) {
    Abs(cand - log) < 2000 || 20 * Abs(cand - log) < log
  }

  /** The edges of a frame, said of its connections: a nameless connection and an application connection
      through the same first hop whose traffic in this frame agrees in both directions. */
  lemma FrameEdgeIff(metas: Metas, deltas: Deltas, c: ConnId, l: ConnId)
    requires c in metas && l in metas
    ensures var cand, log, d, e := metas[c], metas[l], DeltaAt(deltas, c), DeltaAt(deltas, l);
            (c, l) in FrameGraph(metas, deltas).edges
            <==> && Blank(cand.process) && Blank(cand.rule) && !Blank(log.process) && !Blank(log.rule)
                 && cand.chains != [] && |log.chains| >= 2 && cand.chains[0] == log.chains[0]
                 && (d.up > 500 || d.down > 500 || e.up > 500 || e.down > 500)
                 && NearInFrame(d.up, e.up) && NearInFrame(d.down, e.down)
  {
    hide Blank, ChainsMatch, CheckStructuralRelayPair, NearInFrame;
    ChainsMatchIff(metas[c].chains, metas[l].chains);
    PairRule(metas[c], metas[l], DeltaAt(deltas, c), DeltaAt(deltas, l));
  }

  lemma PairRule(cand: Meta, log: Meta, d: Bytes, e: Bytes)
    ensures CheckStructuralRelayPair(cand, log, d, e)
            <==> && ChainsMatch(cand.chains, log.chains)
                 && (d.up > 500 || d.down > 500 || e.up > 500 || e.down > 500)
                 && NearInFrame(d.up, e.up) && NearInFrame(d.down, e.down)
  {
    hide ChainsMatch;
  }

  /** A connection with process and rule is an application; one with neither is a relay candidate exactly when
      some application connection with some traffic could be paired with it. */
  lemma AttributionIff(m: Meta)
    ensures ClassifyInitialAttribution(m) == KnownApplication <==> !Blank(m.process) && !Blank(m.rule)
    ensures ClassifyInitialAttribution(m) == RelayCandidate
            <==> Blank(m.process) && Blank(m.rule)
                 && exists log, d, e :: CheckStructuralRelayPair(m, log, d, e)
    ensures ClassifyInitialAttribution(m) in {KnownApplication, RelayCandidate, UnpairedMissingAttr}
  {
    hide Blank, ChainsMatch, NearInFrame;
    if m.chains != [] {
      var log, b := m.(chains := m.chains + [""]), Bytes(1000, 1000);
      ChainsMatchIff(m.chains, log.chains);
      PairRule(m, log, b, b);
      SameIsNear(1000);
      assert CheckStructuralRelayPair(m, log, b, b);
    }
    if log, d, e :| CheckStructuralRelayPair(m, log, d, e) {
      ChainsMatchIff(m.chains, log.chains);
    }
  }

  lemma SameIsNear(x: int)
    ensures NearInFrame(x, x)
  {
  }

  // ---------------------------------------------------------------------------------------------
  // The deduplicator
  // ---------------------------------------------------------------------------------------------

  /** The connections a frame confirms as relay duplicates. */
  ghost function ConfirmedIds(metas: Metas, deltas: Deltas): set<ConnId> {
    set id | id in metas && FrameGraph(metas, deltas).Confirmed(id)
  }

  /** Confirmations are one-to-one, and never touch an application connection. */
  lemma FrameConfirmationsAreOneToOne(metas: Metas, deltas: Deltas, c: ConnId, c': ConnId)
    requires c in ConfirmedIds(metas, deltas) && c' in ConfirmedIds(metas, deltas)
    ensures exists l, l' :: && FrameGraph(metas, deltas).ConfirmedPair(c, l)
                            && FrameGraph(metas, deltas).ConfirmedPair(c', l')
                            && (c == c' <==> l == l') && l !in ConfirmedIds(metas, deltas)
                            && CheckStructuralRelayPair(metas[c], metas[l], DeltaAt(deltas, c), DeltaAt(deltas, l))
  {
    var g := FrameGraph(metas, deltas);
    assert g.Valid();
    var l :| l in g.roles && g.ConfirmedPair(c, l);
    var l' :| l' in g.roles && g.ConfirmedPair(c', l');
    ConfirmedPairsAreInjective(g, c, l, c', l');
    assert l in g.Partners(c);
    assert (c, l) in g.edges;
    assert g.Partners(l) == {};
  }

  lemma MetasStep(conns: seq<Snapshot>, i: nat)
    requires DistinctIds(conns) && i < |conns|
    ensures conns[i].id !in MetasOf(conns[..i])
    ensures MetasOf(conns[..i + 1]) == MetasOf(conns[..i])[conns[i].id := conns[i].meta]
  {
    MetasOfMembers(conns[..i]);
    assert conns[..i + 1][..i] == conns[..i];
  }

  lemma RoleOfAttribution(m: Meta)
    ensures FrameRole(m).Candidate? <==> ClassifyInitialAttribution(m) == RelayCandidate
    ensures FrameRole(m).Logical? <==> ClassifyInitialAttribution(m) == KnownApplication
  {
  }

  ghost predicate SplitsFrame(metas: Metas, candidates: seq<ConnId>, logicals: seq<ConnId>) {
    && Distinct(candidates) && Distinct(logicals)
    && (forall id :: id in candidates <==> id in metas && FrameRole(metas[id]).Candidate?)
    && (forall id :: id in logicals <==> id in metas && FrameRole(metas[id]).Logical?)
  }

  method SplitFrame(conns: seq<Snapshot>) returns (candidates: seq<ConnId>, logicals: seq<ConnId>)
    requires DistinctIds(conns)
    ensures SplitsFrame(MetasOf(conns), candidates, logicals)
  {
    hide ClassifyInitialAttribution, FrameRole, MetasOf;
    candidates, logicals := [], [];
    assert MetasOf(conns[..0]) == map[] by { NoMetas(conns); }
    for i := 0 to |conns|
      invariant SplitsFrame(MetasOf(conns[..i]), candidates, logicals)
    {
      var c := conns[i];
      MetasStep(conns, i);
      RoleOfAttribution(c.meta);
      if ClassifyInitialAttribution(c.meta) == RelayCandidate {
        candidates := candidates + [c.id];
      } else if ClassifyInitialAttribution(c.meta) == KnownApplication {
        logicals := logicals + [c.id];
      }
    }
    assert conns[..|conns|] == conns;
  }

  lemma NoMetas(conns: seq<Snapshot>)
    ensures MetasOf(conns[..0]) == map[]
  {
  }

  /** A candidate with one match whose match has one candidate is a confirmed duplicate. */
  method PairsOff(ghost g: Graph<ConnId>, cand: ConnId, mine: seq<ConnId>, suitors: Lists<ConnId>) returns (pairs: bool)
    requires g.Valid() && Enumerates(mine, g.Partners(cand))
    requires forall l :: l in g.Partners(cand) ==> Enumerates(ListFor(suitors, l), g.Suitors(l))
    ensures pairs <==> g.Confirmed(cand)
  {
    SingletonList(mine, g.Partners(cand));
    pairs := false;
    if |mine| == 1 {
      assert mine[0] in g.Partners(cand);
      SingletonList(ListFor(suitors, mine[0]), g.Suitors(mine[0]));
      PartnerSuitor(g, cand, mine[0]);
      if |ListFor(suitors, mine[0])| == 1 {
        assert g.ConfirmedPair(cand, mine[0]);
        pairs := true;
      }
    }
  }

  /** The frame loops: exactly the candidates that pair off are confirmed. */
  method PerformFrameRelayDeduplication(conns: seq<Snapshot>, deltas: Deltas) returns (confirmed: set<ConnId>)
    requires DistinctIds(conns)
    ensures confirmed == ConfirmedIds(MetasOf(conns), deltas)
  {
    hide CheckStructuralRelayPair, FrameRole;
    var metas := MetasOf(conns);
    ghost var g := FrameGraph(metas, deltas);
    assert g.Valid();
    var candidates, logicals := SplitFrame(conns);
    confirmed := {};
    var matches := (c, l) => c in metas && l in metas
                             && CheckStructuralRelayPair(metas[c], metas[l], DeltaAt(deltas, c), DeltaAt(deltas, l));
    assert forall c, l :: c in candidates && l in logicals ==> (matches(c, l) <==> (c, l) in g.edges);
    var partners, suitors := CollectMatches(g, candidates, logicals, matches);
    for i := 0 to |candidates|
      invariant forall id :: id in confirmed <==> id in candidates[..i] && g.Confirmed(id)
    {
      var cand := candidates[i];
      assert cand in candidates && candidates[..i + 1] == candidates[..i] + [cand];
      var pairs := PairsOff(g, cand, ListFor(partners, cand), suitors);
      if pairs {
        confirmed := confirmed + {cand};
      }
    }
    assert candidates[..|candidates|] == candidates;
    forall id | id in metas && g.Confirmed(id) ensures id in candidates {
      var l :| l in g.roles && g.ConfirmedPair(id, l);
      assert l in g.Partners(id);
    }
  }
}
