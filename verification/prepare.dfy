/** The preparation phase of a chunk (accounting_v2.go, prepareIncrementalChunk), loop by loop,
    proved against the specification in Accounting. */
module Preparation {
  import opened Types
  import opened Matching
  import opened Classify
  import opened ConnState
  import opened Evidence
  import opened Closure
  import opened Derived
  import opened Accounting
  import opened Plan
  import opened Correction

  // ---------------------------------------------------------------------------------------------
  // Classification group by group
  // ---------------------------------------------------------------------------------------------

  method ListKeys(keys: set<ConnKey>) returns (list: seq<ConnKey>)
    ensures Enumerates(list, keys)
  {
    list := [];
    var todo := keys;
    while todo != {}
      invariant todo <= keys && Enumerates(list, keys - todo)
      decreases |todo|
    {
      var k :| k in todo;
      EnumeratesAppend(list, keys - todo, k);
      assert keys - todo + {k} == keys - (todo - {k});
      list := list + [k];
      todo := todo - {k};
    }
    assert keys - todo == keys;
  }

  function Pick(infos: Group, keys: seq<ConnKey>): seq<ConnInfo>
    requires forall k :: k in keys ==> k in infos
  {
    seq(|keys|, i requires 0 <= i < |keys| => infos[keys[i]])
  }

  lemma PickedGroup(infos: Group, part: set<ConnKey>, keys: seq<ConnKey>)
    requires Keyed(infos) && Enumerates(keys, part) && part <= infos.Keys
    ensures DistinctKeys(Pick(infos, keys))
    ensures GroupOf(Pick(infos, keys)).Keys == part
    ensures forall k :: k in part ==> GroupOf(Pick(infos, keys))[k] == infos[k]
  {
    var conns := Pick(infos, keys);
    forall i, j | 0 <= i < j < |conns| ensures conns[i].key != conns[j].key {
      assert keys[i] in infos && keys[j] in infos;
    }
    GroupOfMembers(conns);
    forall k | k in part ensures k in GroupOf(conns) && GroupOf(conns)[k] == infos[k] {
      var i :| 0 <= i < |keys| && keys[i] == k;
      assert conns[i] == infos[k] && conns[i] in conns;
    }
    forall k | k in GroupOf(conns) ensures k in part {
      var c := GroupOf(conns)[k];
      assert c.key == k && c in conns;
      var i :| 0 <= i < |conns| && conns[i] == c;
      assert keys[i] in infos;
    }
  }

  /** Groups do not interact: classifying a whole (session, epoch) group on its own gives its members
      the classes they have in the full match graph. */
  lemma GroupsClassifyApart(infos: Group, h: Group, part: set<ConnKey>)
    requires Keyed(infos) && part <= infos.Keys
    requires forall a, b :: a in part && b in infos && SameGroup(a, b) ==> b in part
    requires h.Keys == part && forall k :: k in part ==> h[k] == infos[k]
    ensures forall k :: k in part ==>
              GraphOf(h).Classes().Keys == part && GraphOf(h).Classes()[k] == GraphOf(infos).ClassOf(k)
  {
    hide Matches, IsCandidate, IsLogical, RoleOf;
    GraphOfPart(infos, h, part);
    GraphOfValid(infos);
    RolesAreKeys(infos);
    PartialClassesAgree(GraphOf(infos), part);
  }

  method ClassifyOneGroup(infos: Group, part: set<ConnKey>, first: ConnKey) returns (decided: ClassMap)
    requires Keyed(infos) && part <= infos.Keys
    requires forall k :: k in infos ==> (k in part <==> SameGroup(first, k))
    ensures decided.Keys == part && forall k :: k in part ==>
              k in GraphOf(infos).roles && decided[k] == GraphOf(infos).ClassOf(k)
  {
    hide Edge, RoleOf, Keyed, GraphOf;
    var keys := ListKeys(part);
    PickedGroup(infos, part, keys);
    GroupMembersShareGroup(infos, keys, first);
    var relations;
    decided, relations := ClassifyConnectionGroup(Pick(infos, keys));
    GroupsClassifyApart(infos, GroupOf(Pick(infos, keys)), part);
    RolesAreKeys(infos);
    RolesAreKeys(GroupOf(Pick(infos, keys)));
  }

  /** The affected groups one by one, each through the shared reconciliation. */
  method ClassifyByGroup(infos: Group) returns (classes: ClassMap)
    requires Keyed(infos)
    ensures classes == GraphOf(infos).Classes()
  {
    hide Keyed, GraphOf;
    classes := map[];
    var todo := infos.Keys;
    RolesAreKeys(infos);
    while todo != {}
      invariant todo <= infos.Keys && classes.Keys == infos.Keys - todo
      invariant forall a, b :: a in todo && b in infos && SameGroup(a, b) ==> b in todo
      invariant forall k :: k in classes ==> classes[k] == GraphOf(infos).ClassOf(k)
      decreases |todo|
    {
      var first :| first in todo;
      var part := set k | k in todo && SameGroup(first, k);
      assert first in part;
      var decided := ClassifyOneGroup(infos, part, first);
      classes := classes + decided;
      todo := todo - part;
    }
  }

  lemma GroupMembersShareGroup(infos: Group, keys: seq<ConnKey>, first: ConnKey)
    requires Keyed(infos) && forall k :: k in keys ==> k in infos && SameGroup(first, k)
    ensures forall a, b :: a in Pick(infos, keys) && b in Pick(infos, keys) ==> SameGroup(a.key, b.key)
  {
    var conns := Pick(infos, keys);
    forall a | a in conns ensures SameGroup(first, a.key) {
      var i :| 0 <= i < |conns| && conns[i] == a;
      assert keys[i] in keys;
    }
  }

  // ---------------------------------------------------------------------------------------------
  // Cutoff
  // ---------------------------------------------------------------------------------------------

  /** dirtyClosureCutoff. */
  method DirtyClosureCutoff(updates: Updates, dirty: Table, now: Time) returns (cutoff: Time)
    ensures CutoffComputed(dirty, updates, cutoff)
  {
    cutoff := ZERO_TIME;
    var todo := updates.Keys;
    while todo != {}
      invariant todo <= updates.Keys
      invariant (forall k :: k in updates ==> FirstObsOf(dirty, updates, k) > ZERO_TIME) ==>
                  && (todo == updates.Keys ==> cutoff == ZERO_TIME)
                  && (todo != updates.Keys ==> cutoff > ZERO_TIME)
                  && (todo != updates.Keys ==>
                      exists k :: k in updates && k !in todo && FirstObsOf(dirty, updates, k) == cutoff)
                  && (forall k :: k in updates && k !in todo ==> cutoff <= FirstObsOf(dirty, updates, k))
      decreases |todo|
    {
      var k :| k in todo;
      var t := FirstObsOf(dirty, updates, k);
      if cutoff == ZERO_TIME || t < cutoff {
        cutoff := t;
      }
      todo := todo - {k};
    }
    if cutoff == ZERO_TIME {
      cutoff := now;
    }
  }

  // ---------------------------------------------------------------------------------------------
  // The classification input
  // ---------------------------------------------------------------------------------------------

  function KnownRows(dirty: Generation, updates: Updates): Table {
    map k | k in updates && k in dirty.table :: ApplyTo(dirty.table[k], updates[k])
  }

  function PartnerRows(partners: Generation, updates: Updates, cutoff: Time): Table {
    map k | k in partners.table && PartnerRow(partners, updates, cutoff, k) :: partners.table[k]
  }

  function FreshRows(updates: Updates): Table {
    map k | k in updates :: Insert(updates[k])
  }

  lemma GatheredRow(dirty: Generation, partners: Generation, updates: Updates, cutoff: Time, k: ConnKey)
    ensures var closure := FreshRows(updates) + (PartnerRows(partners, updates, cutoff) + KnownRows(dirty, updates));
            && (k in closure <==> k in InputKeys(dirty, partners, updates, cutoff))
            && (k in closure ==> closure[k] == InputSummary(dirty, partners, updates, cutoff, k))
  {
    hide Retained, ApplyTo, Insert, Affected;
  }

  /** The closure map: merged dirty rows, then retained partners, then first-ever connections; a key
      that is already there is kept. */
  method GatherClosure(dirty: Generation, partners: Generation, updates: Updates, cutoff: Time)
    returns (closure: Table)
    ensures closure == map k | k in InputKeys(dirty, partners, updates, cutoff) ::
                         InputSummary(dirty, partners, updates, cutoff, k)
  {
    hide InputKeys, InputSummary, KnownRows, PartnerRows, FreshRows;
    closure := KnownRows(dirty, updates);
    closure := PartnerRows(partners, updates, cutoff) + closure;
    closure := FreshRows(updates) + closure;
    forall k ensures k in closure <==> k in InputKeys(dirty, partners, updates, cutoff) {
      GatheredRow(dirty, partners, updates, cutoff, k);
    }
    forall k | k in closure ensures closure[k] == InputSummary(dirty, partners, updates, cutoff, k) {
      GatheredRow(dirty, partners, updates, cutoff, k);
    }
  }

  /** The prior class per key, as the change detection compares it. */
  ghost predicate ListsChanges(list: seq<ClassChange>, changes: ClassMap, dirty: Generation, partners: Generation,
                               updates: Updates, cutoff: Time)
  {
    && (forall i, j :: 0 <= i < j < |list| ==> list[i].key != list[j].key)
    && (forall ch :: ch in list ==>
          ch.key in changes && ch.newClass == changes[ch.key]
              && ch.oldClass == PriorClass(dirty, partners, updates, cutoff, ch.key))
    && (forall k :: k in changes ==> exists ch :: ch in list && ch.key == k)
  }

  function ChangesAmong(keys: set<ConnKey>, classes: ClassMap, dirty: Generation, partners: Generation,
                        updates: Updates, cutoff: Time): ClassMap
  {
    map k | k in classes && k in keys
        && PriorClass(dirty, partners, updates, cutoff, k) != Some(classes[k]) :: classes[k]
  }

  lemma AppendChange(list: seq<ClassChange>, found: ClassMap, ch: ClassChange, dirty: Generation, partners: Generation,
                     updates: Updates, cutoff: Time)
    requires ListsChanges(list, found, dirty, partners, updates, cutoff) && ch.key !in found
    requires ch.oldClass == PriorClass(dirty, partners, updates, cutoff, ch.key)
    ensures ListsChanges(list + [ch], found[ch.key := ch.newClass], dirty, partners, updates, cutoff)
  {
    hide PriorClass;
    assert ch in list + [ch];
    assert forall c :: c in list ==> c in list + [ch];
  }

  method DetectChanges(classes: ClassMap, dirty: Generation, partners: Generation, updates: Updates, cutoff: Time)
    returns (list: seq<ClassChange>)
    ensures ListsChanges(list, ChangesAmong(classes.Keys, classes, dirty, partners, updates, cutoff), dirty, partners,
                         updates, cutoff)
  {
    hide PriorClass;
    list := [];
    ghost var done := {};
    var todo := classes.Keys;
    while todo != {}
      invariant todo <= classes.Keys && done == classes.Keys - todo
      invariant ListsChanges(list, ChangesAmong(done, classes, dirty, partners, updates, cutoff), dirty, partners,
                             updates, cutoff)
      decreases |todo|
    {
      var k :| k in todo;
      var prior := PriorClass(dirty, partners, updates, cutoff, k);
      ghost var found := ChangesAmong(done, classes, dirty, partners, updates, cutoff);
      if prior != Some(classes[k]) {
        assert ChangesAmong(done + {k}, classes, dirty, partners, updates, cutoff) == found[k := classes[k]];
        AppendChange(list, found, ClassChange(k, prior, classes[k]), dirty, partners, updates, cutoff);
        list := list + [ClassChange(k, prior, classes[k])];
      } else {
        assert ChangesAmong(done + {k}, classes, dirty, partners, updates, cutoff) == found;
      }
      done := done + {k};
      todo := todo - {k};
    }
    assert done == classes.Keys;
  }

  /** The classification input from the gathered rows. */
  method DescribeClosure(journal: seq<Event>, to: nat, closure: Table) returns (infos: Group)
    requires to <= |journal|
    ensures infos == map k | k in closure :: InfoOf(k, closure[k], FrameTime(journal[..to], k.session, k.epoch))
    ensures Keyed(infos)
  {
    hide FrameTime, EffectiveLastObs;
    infos := map k | k in closure :: InfoOf(k, closure[k], FrameTime(journal[..to], k.session, k.epoch));
  }

  /** The whole preparation phase. */
  method PrepareIncrementalChunk(journal: seq<Event>, from: nat, to: nat, dirty: Generation, partners: Generation,
                                 now: Time)
    returns (chunk: Chunk, changes: seq<ClassChange>, plan: AccountedPlan, cutoff: Time)
    requires from <= to <= |journal|
    ensures chunk == Prepare(journal, from, to, dirty, partners, cutoff)
    ensures ListsChanges(changes, chunk.changes, dirty, partners, chunk.updates, cutoff)
    ensures plan.rows == chunk.planned && PlanOk(plan)
    ensures CutoffComputed(dirty.table, chunk.updates, cutoff)
  {
    hide ListsChanges, CutoffComputed, PlanOk, InputKeys, InputSummary, InfoOf, GraphOf, FrameTime, Keyed, PriorClass;
    hide UpdatesOf, TrafficItems, PlanRows;
    var updates, traffic := StreamJournalRange(journal, from, to);
    cutoff := DirtyClosureCutoff(updates, dirty.table, now);
    var closure := GatherClosure(dirty, partners, updates, cutoff);
    var infos := DescribeClosure(journal, to, closure);
    assert infos == InputOf(journal, to, dirty, partners, updates, cutoff);
    var classes := ClassifyByGroup(infos);
    changes := DetectChanges(classes, dirty, partners, updates, cutoff);
    plan := BuildAccountedPlan(traffic, classes);
    chunk := Chunk(updates, infos, classes, ChangesAmong(classes.Keys, classes, dirty, partners, updates, cutoff),
                   plan.rows);
  }
}
