/** Strict one-to-one matching between relay candidates and logical connections.

    The frame deduplicator (attribution.go) and the group reconciliation (accounting_classify.go)
    confirm pairs by the same rule: a candidate and a logical connection are a confirmed pair when
    each is the other's only match. This module states the rule on an arbitrary match graph and
    holds the list-building loops both share. */
module Matching {
  datatype Role = Logical | Candidate | Neither

  datatype AccountingClass = Unique | ConfirmedDuplicate | AmbiguousRelay | MissingAttribution

  /** An edge (c, l) says that candidate c matches logical connection l. */
  datatype Graph<K(==)> = Graph(roles: map<K, Role>, edges: set<(K, K)>) {
    ghost predicate Valid() {
      forall e :: e in edges ==> e.0 in roles && e.1 in roles && roles[e.0].Candidate? && roles[e.1].Logical?
    }

    function Partners(c: K): set<K> {
      set l | l in roles && (c, l) in edges
    }

    function Suitors(l: K): set<K> {
      set c | c in roles && (c, l) in edges
    }

    ghost predicate ConfirmedPair(c: K, l: K) {
      Partners(c) == {l} && Suitors(l) == {c}
    }

    ghost predicate Confirmed(c: K) {
      exists l :: l in roles && ConfirmedPair(c, l)
    }

    ghost function ClassOf(k: K): AccountingClass
      requires k in roles
    {
      match roles[k]
      case Logical => Unique
      case Neither => MissingAttribution
      case Candidate =>
        if Partners(k) == {} then MissingAttribution
        else if Confirmed(k) then ConfirmedDuplicate
        else AmbiguousRelay
    }

    ghost function Classes(): map<K, AccountingClass> {
      map k | k in roles :: ClassOf(k)
    }
  }

  // ---------------------------------------------------------------------------------------------
  // Confirmed pairs are a matching
  // ---------------------------------------------------------------------------------------------

  /** A confirmed candidate has one logical partner, that partner is classed unique, and no other
      candidate is confirmed against it. */
  lemma ConfirmedPairsAreInjective<K>(g: Graph<K>, c: K, l: K, c': K, l': K)
    requires g.Valid() && g.ConfirmedPair(c, l) && g.ConfirmedPair(c', l')
    ensures c == c' <==> l == l'
    ensures c in g.roles && g.ClassOf(c) == ConfirmedDuplicate
    ensures l in g.roles && g.ClassOf(l) == Unique
  {
    assert l in g.Partners(c);
    assert c in g.Suitors(l) && c' in g.Suitors(l');
  }

  /** The classes, said of the edges: a duplicate has one edge, to a connection with no other; a candidate
      with edges that is no duplicate is ambiguous; what has none, or no side, is unexplained. */
  lemma ClassIff<K>(g: Graph<K>, k: K)
    requires g.Valid() && k in g.roles
    ensures g.ClassOf(k) == Unique <==> g.roles[k].Logical?
    ensures g.ClassOf(k) == ConfirmedDuplicate
            <==> exists l :: && (k, l) in g.edges
                             && (forall x :: (k, x) in g.edges ==> x == l)
                             && (forall x :: (x, l) in g.edges ==> x == k)
    ensures g.ClassOf(k) == MissingAttribution <==> !g.roles[k].Logical? && forall l :: (k, l) !in g.edges
  {
    forall l ensures l in g.Partners(k) <==> (k, l) in g.edges {
    }
    forall l, x ensures x in g.Suitors(l) <==> (x, l) in g.edges {
    }
    if g.Confirmed(k) {
      var l :| l in g.roles && g.ConfirmedPair(k, l);
      assert (k, l) in g.edges by { assert l in g.Partners(k); }
    }
    if l :| (k, l) in g.edges && (forall x :: (k, x) in g.edges ==> x == l)
            && (forall x :: (x, l) in g.edges ==> x == k) {
      assert g.Partners(k) == {l} && g.Suitors(l) == {k};
      assert g.ConfirmedPair(k, l);
    }
    if g.roles[k].Candidate? && g.Partners(k) != {} {
      var l :| l in g.Partners(k);
      assert (k, l) in g.edges;
    }
  }

  ghost function Sum<K>(weight: K -> int, s: set<K>): int {
    if s == {} then 0
    else
      var k :| k in s;
      weight(k) + Sum(weight, s - {k})
  }

  lemma {:induction false} SumTake<K>(weight: K -> int, s: set<K>, k: K)
    requires k in s
    ensures Sum(weight, s) == weight(k) + Sum(weight, s - {k})
    decreases s
  {
    var p :| p in s && Sum(weight, s) == weight(p) + Sum(weight, s - {p});
    if p != k {
      SumTake(weight, s - {p}, k);
      SumTake(weight, s - {k}, p);
      assert s - {p} - {k} == s - {k} - {p};
    }
  }

  lemma {:induction false} SumNonNegative<K>(weight: K -> int, s: set<K>)
    requires forall k :: k in s ==> weight(k) >= 0
    ensures Sum(weight, s) >= 0
    decreases s
  {
    if s != {} {
      var k :| k in s;
      SumTake(weight, s, k);
      SumNonNegative(weight, s - {k});
    }
  }

  lemma {:induction false} SumAdds<K>(f: K -> int, g: K -> int, h: K -> int, s: set<K>)
    requires forall k :: k in s ==> h(k) == f(k) + g(k)
    ensures Sum(h, s) == Sum(f, s) + Sum(g, s)
    decreases s
  {
    if s != {} {
      var k :| k in s;
      SumTake(f, s, k);
      SumTake(g, s, k);
      SumTake(h, s, k);
      SumAdds(f, g, h, s - {k});
    }
  }

  lemma {:induction false} SumAtMost<K>(f: K -> int, g: K -> int, s: set<K>)
    requires forall k :: k in s ==> f(k) <= g(k)
    ensures Sum(f, s) <= Sum(g, s)
    decreases s
  {
    if s != {} {
      var k :| k in s;
      SumTake(f, s, k);
      SumTake(g, s, k);
      SumAtMost(f, g, s - {k});
    }
  }

  lemma {:induction false} SumPoint<K>(f: K -> int, s: set<K>, p: K)
    requires forall k :: k in s && k != p ==> f(k) == 0
    ensures Sum(f, s) == if p in s then f(p) else 0
    decreases s
  {
    if s != {} {
      var k :| k in s;
      SumTake(f, s, k);
      SumPoint(f, s - {k}, p);
    }
  }

  /** If every confirmed pair satisfies 4 * candidate < 5 * logical, the same bound holds for all the
      bytes deducted against all the bytes kept on logical connections. */
  lemma {:induction false} DeductionBound<K>(g: Graph<K>, weight: K -> int, deducted: set<K>, kept: set<K>)
    requires g.Valid()
    requires forall k :: k in kept ==> weight(k) >= 0
    requires forall c :: c in deducted ==> g.Confirmed(c)
    requires forall c, l :: c in deducted && g.ConfirmedPair(c, l) ==> l in kept && 4 * weight(c) <= 5 * weight(l)
    ensures 4 * Sum(weight, deducted) <= 5 * Sum(weight, kept)
    decreases deducted
  {
    if deducted == {} {
      SumNonNegative(weight, kept);
    } else {
      var c :| c in deducted;
      var l :| g.ConfirmedPair(c, l);
      SumTake(weight, deducted, c);
      SumTake(weight, kept, l);
      forall c', l' | c' in deducted - {c} && g.ConfirmedPair(c', l')
        ensures l' in kept - {l} && 4 * weight(c') <= 5 * weight(l')
      {
        ConfirmedPairsAreInjective(g, c, l, c', l');
      }
      DeductionBound(g, weight, deducted - {c}, kept - {l});
    }
  }

  // ---------------------------------------------------------------------------------------------
  // Classifying a part of the graph
  // ---------------------------------------------------------------------------------------------

  function Restrict<K>(g: Graph<K>, part: set<K>): Graph<K> {
    Graph(map k | k in g.roles && k in part :: g.roles[k],
          set e | e in g.edges && e.0 in part && e.1 in part)
  }

  ghost predicate NoBorderEdge<K>(g: Graph<K>, part: set<K>) {
    forall e :: e in g.edges ==> (e.0 in part <==> e.1 in part)
  }

  lemma RestrictNeighbours<K>(g: Graph<K>, part: set<K>, k: K)
    requires g.Valid() && k in part
    ensures Restrict(g, part).Valid()
    ensures Restrict(g, part).Partners(k) == g.Partners(k) * part
    ensures Restrict(g, part).Suitors(k) == g.Suitors(k) * part
  {
  }

  /** What the border must satisfy for a candidate's class to be decided inside `part`: it has no
      partner outside, or is already ambiguous inside; and a single inside partner that would confirm
      it has no suitor outside. */
  ghost predicate BorderHarmless<K>(g: Graph<K>, part: set<K>, c: K) {
    var inside := g.Partners(c) * part;
    if inside == {} then g.Partners(c) == {}
    else if exists l :: l in inside && inside == {l} && g.Suitors(l) * part == {c} then
      g.Partners(c) <= part && forall l :: l in inside ==> g.Suitors(l) <= part
    else true
  }

  lemma PartnerSuitor<K>(g: Graph<K>, c: K, l: K)
    requires g.Valid()
    ensures l in g.Partners(c) <==> c in g.Suitors(l)
  {
  }

  /** The exact condition under which classifying only a part of a group gives a member the class it
      has in the whole group. */
  lemma PartialClassExactIff<K>(g: Graph<K>, part: set<K>, k: K)
    requires g.Valid() && k in part && k in g.roles
    ensures Restrict(g, part).ClassOf(k) == g.ClassOf(k)
            <==> (g.roles[k].Candidate? ==> BorderHarmless(g, part, k))
  {
    var r := Restrict(g, part);
    if g.roles[k].Candidate? {
      RestrictNeighbours(g, part, k);
      var inside := g.Partners(k) * part;
      forall l | l in inside ensures r.Suitors(l) == g.Suitors(l) * part {
        RestrictNeighbours(g, part, l);
      }
      if l :| r.ConfirmedPair(k, l) {
        assert l in inside;
        assert g.Suitors(l) * part == {k};
        PartnerSuitor(g, k, l);
        if BorderHarmless(g, part, k) {
          assert g.ConfirmedPair(k, l);
        } else if l' :| g.ConfirmedPair(k, l') {
          assert false;
        }
      } else if inside != {} {
        if l :| g.ConfirmedPair(k, l) {
          assert inside == {l};
          PartnerSuitor(g, k, l);
          assert r.ConfirmedPair(k, l);
          assert false;
        }
        assert !r.Confirmed(k) && !g.Confirmed(k);
        if l :| inside == {l} && g.Suitors(l) * part == {k} {
          assert r.ConfirmedPair(k, l);
          assert false;
        }
      }
    }
  }

  /** In particular, when no match edge crosses the border, every inside class is final. */
  lemma PartialClassesAgree<K>(g: Graph<K>, part: set<K>)
    requires g.Valid() && NoBorderEdge(g, part)
    ensures forall k :: k in g.roles && k in part ==> Restrict(g, part).ClassOf(k) == g.ClassOf(k)
  {
    forall k | k in g.roles && k in part ensures Restrict(g, part).ClassOf(k) == g.ClassOf(k) {
      PartialClassExactIff(g, part, k);
      assert g.Partners(k) <= part;
    }
  }

  /** Members outside `part` keep the class they had in an earlier graph, as long as none of their
      edges came, went or crosses the border. */
  lemma OutsideClassesStable<K>(before: Graph<K>, after: Graph<K>, part: set<K>)
    requires before.Valid() && after.Valid() && NoBorderEdge(after, part)
    requires forall k :: k in after.roles && k !in part ==> k in before.roles && before.roles[k] == after.roles[k]
    requires forall e :: e in before.edges && (e.0 !in part || e.1 !in part) ==> e in after.edges
    requires forall e :: e in after.edges && (e.0 !in part || e.1 !in part) ==> e in before.edges
    ensures forall k :: k in after.roles && k !in part ==> before.ClassOf(k) == after.ClassOf(k)
  {
    forall k | k in after.roles && k !in part
      ensures before.Partners(k) == after.Partners(k) && before.Suitors(k) == after.Suitors(k)
    {
    }
    forall k | k in after.roles && k !in part ensures before.ClassOf(k) == after.ClassOf(k) {
      forall l ensures before.ConfirmedPair(k, l) <==> after.ConfirmedPair(k, l) {
        if before.Partners(k) == {l} {
          assert l in after.Partners(k);
          assert (k, l) in after.edges;
        }
      }
    }
  }

  /** A kept class stays right unless the suitors of a candidate's only partner turned from the
      candidate alone into several, or back. */
  ghost predicate SuitorsHarmless<K>(before: Graph<K>, after: Graph<K>, c: K) {
    forall l :: l in after.Partners(c) && after.Partners(c) == {l} ==>
        (before.Suitors(l) == {c} <==> after.Suitors(l) == {c})
  }

  /** The exact condition under which a member keeps its class between two graphs that give it the same
      role and partners. */
  lemma KeptClassExactIff<K>(before: Graph<K>, after: Graph<K>, k: K)
    requires before.Valid() && after.Valid() && k in before.roles && k in after.roles
             && before.roles[k] == after.roles[k]
    requires before.Partners(k) == after.Partners(k)
    ensures before.ClassOf(k) == after.ClassOf(k) <==> (after.roles[k].Candidate? ==> SuitorsHarmless(before, after, k))
  {
    if after.roles[k].Candidate? {
      forall l | l in after.Partners(k) && after.Partners(k) == {l}
        ensures before.Confirmed(k) <==> before.Suitors(l) == {k}
        ensures after.Confirmed(k) <==> after.Suitors(l) == {k}
      {
        SinglePartnerConfirmed(before, k, l);
        SinglePartnerConfirmed(after, k, l);
      }
      if !SuitorsHarmless(before, after, k) {
        var l :| l in after.Partners(k) && after.Partners(k) == {l}
            && !(before.Suitors(l) == {k} <==> after.Suitors(l) == {k});
      }
    }
  }

  lemma SinglePartnerConfirmed<K>(g: Graph<K>, c: K, l: K)
    requires g.Valid() && g.Partners(c) == {l}
    ensures g.Confirmed(c) <==> g.Suitors(l) == {c}
  {
    assert l in g.Partners(c);
    if g.Suitors(l) == {c} {
      assert g.ConfirmedPair(c, l);
    }
  }

  // ---------------------------------------------------------------------------------------------
  // The match lists, as the nested loops build them
  // ---------------------------------------------------------------------------------------------

  type Lists<K> = map<K, seq<K>>

  function ListFor<K>(lists: Lists<K>, k: K): seq<K> {
    if k in lists then lists[k] else []
  }

  ghost predicate Distinct<K>(s: seq<K>) {
    forall i, j :: 0 <= i < j < |s| ==> s[i] != s[j]
  }

  /** The list enumerates the set, each member once. */
  ghost predicate Enumerates<K>(list: seq<K>, s: set<K>) {
    Distinct(list) && (forall k :: k in list ==> k in s) && (forall k :: k in s ==> k in list)
  }

  function Elements<K>(s: seq<K>): set<K> {
    set k | k in s
  }

  lemma EnumeratesAppend<K>(list: seq<K>, s: set<K>, k: K)
    requires Enumerates(list, s) && k !in s
    ensures Enumerates(list + [k], s + {k})
  {
  }

  lemma SingletonList<K>(list: seq<K>, s: set<K>)
    requires Enumerates(list, s)
    ensures |list| == 0 <==> s == {}
    ensures |list| == 1 <==> exists k :: k in s && s == {k}
    ensures |list| == 1 ==> s == {list[0]}
  {
    if |list| > 0 {
      assert list[0] in s;
      if |list| > 1 {
        assert list[1] in s;
      }
    }
  }

  /** `lists` was built by appending, for every candidate in `done`, that candidate to each of its partners. */
  ghost predicate SuitorsSoFar<K>(g: Graph<K>, lists: Lists<K>, logs: set<K>, done: set<K>) {
    forall l :: l in logs ==> Enumerates(ListFor(lists, l), g.Suitors(l) * done)
  }

  /** The inner loop: one candidate against every logical connection. */
  method MatchOne<K(==)>(ghost g: Graph<K>, cand: K, logicals: seq<K>, matches: (K, K) -> bool,
                         ghost done: set<K>, before: Lists<K>)
    returns (mine: seq<K>, suitors: Lists<K>)
    requires Distinct(logicals) && cand !in done
    requires cand in g.roles && forall l :: l in logicals ==>
               l in g.roles && (matches(cand, l) <==> (cand, l) in g.edges)
    requires SuitorsSoFar(g, before, Elements(logicals), done)
    ensures Enumerates(mine, g.Partners(cand) * Elements(logicals))
    ensures SuitorsSoFar(g, suitors, Elements(logicals), done + {cand})
  {
    mine, suitors := [], before;
    for j := 0 to |logicals|
      invariant Enumerates(mine, g.Partners(cand) * Elements(logicals[..j]))
      invariant SuitorsSoFar(g, suitors, Elements(logicals[..j]), done + {cand})
      invariant forall l :: l in logicals[j..] ==> ListFor(suitors, l) == ListFor(before, l)
    {
      var log := logicals[j];
      ghost var seen := Elements(logicals[..j]);
      assert log !in seen;
      assert logicals[..j + 1] == logicals[..j] + [log];
      assert logicals[j..] == [log] + logicals[j + 1..];
      assert Elements(logicals[..j + 1]) == seen + {log};
      assert log in Elements(logicals);
      if matches(cand, log) {
        EnumeratesAppend(mine, g.Partners(cand) * seen, log);
        assert g.Partners(cand) * seen + {log} == g.Partners(cand) * (seen + {log});
        EnumeratesAppend(ListFor(before, log), g.Suitors(log) * done, cand);
        assert g.Suitors(log) * done + {cand} == g.Suitors(log) * (done + {cand});
        mine := mine + [log];
        suitors := suitors[log := ListFor(suitors, log) + [cand]];
      } else {
        assert g.Partners(cand) * seen == g.Partners(cand) * (seen + {log});
        assert g.Suitors(log) * done == g.Suitors(log) * (done + {cand});
      }
    }
    assert logicals[..|logicals|] == logicals;
  }

  /** The outer loop: the partners of every candidate and the suitors of every logical connection. */
  method CollectMatches<K(==)>(ghost g: Graph<K>, candidates: seq<K>, logicals: seq<K>, matches: (K, K) -> bool)
    returns (partners: Lists<K>, suitors: Lists<K>)
    requires g.Valid() && Distinct(candidates) && Distinct(logicals)
    requires forall k :: k in candidates <==> k in g.roles && g.roles[k].Candidate?
    requires forall k :: k in logicals <==> k in g.roles && g.roles[k].Logical?
    requires forall c, l :: c in candidates && l in logicals ==> (matches(c, l) <==> (c, l) in g.edges)
    ensures forall c :: c in candidates ==> Enumerates(ListFor(partners, c), g.Partners(c))
    ensures forall l :: l in logicals ==> Enumerates(ListFor(suitors, l), g.Suitors(l))
  {
    partners, suitors := map[], map[];
    for i := 0 to |candidates|
      invariant forall c :: c in candidates[..i] ==> Enumerates(ListFor(partners, c), g.Partners(c))
      invariant forall c :: c in candidates[i..] ==> c !in partners
      invariant SuitorsSoFar(g, suitors, Elements(logicals), Elements(candidates[..i]))
    {
      var cand := candidates[i];
      assert cand !in candidates[..i];
      assert candidates[..i + 1] == candidates[..i] + [cand];
      assert candidates[i..] == [cand] + candidates[i + 1..];
      var mine;
      mine, suitors := MatchOne(g, cand, logicals, matches, Elements(candidates[..i]), suitors);
      assert g.Partners(cand) * Elements(logicals) == g.Partners(cand);
      assert Elements(candidates[..i]) + {cand} == Elements(candidates[..i + 1]);
      if mine != [] {
        partners := partners[cand := mine];
      }
    }
    assert candidates[..|candidates|] == candidates;
    forall l | l in logicals ensures g.Suitors(l) * Elements(candidates) == g.Suitors(l) {
    }
  }
}
