/** What confirmed duplicates may cost: the bytes a published generation deducts from a (session, epoch)
    group, against the bytes it keeps on the group's unique connections. */
module Deduction {
  import opened Types
  import opened Matching
  import opened Classify
  import opened ConnState
  import opened EventLog
  import opened Evidence
  import opened Closure
  import opened Derived
  import opened Accounting
  import opened Preparation
  import opened Protocol
  import EngineLog

  // ---------------------------------------------------------------------------------------------
  // Rows of a set of connections
  // ---------------------------------------------------------------------------------------------

  function RawWhere(rows: seq<AccountedRow>, keys: set<ConnKey>): Bytes {
    if rows == [] then NO_BYTES
    else
      var front, r := RawWhere(rows[..|rows| - 1], keys), rows[|rows| - 1];
      if r.key in keys then Bytes(front.up + r.raw.up, front.down + r.raw.down) else front
  }

  function AccountedWhere(rows: seq<AccountedRow>, keys: set<ConnKey>): Bytes {
    if rows == [] then NO_BYTES
    else
      var front, r := AccountedWhere(rows[..|rows| - 1], keys), rows[|rows| - 1];
      if r.key in keys then Bytes(front.up + r.accounted.up, front.down + r.accounted.down) else front
  }

  lemma {:induction false} RawSplits(rows: seq<AccountedRow>, keys: set<ConnKey>, k: ConnKey)
    requires k in keys
    ensures RawWhere(rows, keys).up == RawWhere(rows, {k}).up + RawWhere(rows, keys - {k}).up
    ensures RawWhere(rows, keys).down == RawWhere(rows, {k}).down + RawWhere(rows, keys - {k}).down
  {
    if rows != [] {
      RawSplits(rows[..|rows| - 1], keys, k);
    }
  }

  lemma {:induction false} NothingWhere(rows: seq<AccountedRow>)
    ensures RawWhere(rows, {}) == NO_BYTES
  {
    if rows != [] {
      NothingWhere(rows[..|rows| - 1]);
    }
  }

  function Weight(rows: seq<AccountedRow>, up: bool): ConnKey -> int {
    k => if up then RawWhere(rows, {k}).up else RawWhere(rows, {k}).down
  }

  lemma {:induction false} RawIsSum(rows: seq<AccountedRow>, keys: set<ConnKey>)
    ensures RawWhere(rows, keys) == Bytes(Sum(Weight(rows, true), keys), Sum(Weight(rows, false), keys))
    decreases keys
  {
    if keys == {} {
      NothingWhere(rows);
    } else {
      var k :| k in keys;
      RawSplits(rows, keys, k);
      RawIsSum(rows, keys - {k});
      SumTake(Weight(rows, true), keys, k);
      SumTake(Weight(rows, false), keys, k);
    }
  }

  /** A group's deducted bytes are the raw bytes of its confirmed duplicates; its other connections
      account all their bytes. */
  lemma {:induction false} DeductedAre(rows: seq<AccountedRow>, classes: ClassMap, keys: set<ConnKey>,
                                       duplicates: set<ConnKey>, kept: set<ConnKey>)
    requires forall r :: r in rows ==> r.accounted == AccountedBytes(ClassFor(classes, r.key), r.raw)
    requires forall k :: k in duplicates <==> k in keys && ClassFor(classes, k) == ConfirmedDuplicate
    requires forall k :: k in kept ==> ClassFor(classes, k) != ConfirmedDuplicate
    ensures RawWhere(rows, keys).up - AccountedWhere(rows, keys).up == RawWhere(rows, duplicates).up
    ensures RawWhere(rows, keys).down - AccountedWhere(rows, keys).down == RawWhere(rows, duplicates).down
    ensures AccountedWhere(rows, kept) == RawWhere(rows, kept)
  {
    if rows != [] {
      assert rows == rows[..|rows| - 1] + [rows[|rows| - 1]];
      DeductedAre(rows[..|rows| - 1], classes, keys, duplicates, kept);
    }
  }

  // ---------------------------------------------------------------------------------------------
  // A connection's rows carry its monitored bytes
  // ---------------------------------------------------------------------------------------------

  function TrafficSum(ds: seq<Draft>): Bytes {
    if ds == [] then NO_BYTES
    else
      var front, d := TrafficSum(ds[..|ds| - 1]), ds[|ds| - 1];
      Bytes(front.up + Traffic(d).up, front.down + Traffic(d).down)
  }

  lemma {:induction false} MonitoredIsSum(ds: seq<Draft>)
    requires ds != []
    ensures Legacy(ds).monitored == TrafficSum(ds)
  {
    var front := ds[..|ds| - 1];
    if front != [] {
      MonitoredIsSum(front);
    }
  }

  function ItemSum(items: seq<TrafficItem>, k: ConnKey): Bytes {
    if items == [] then NO_BYTES
    else
      var front, it := ItemSum(items[..|items| - 1], k), items[|items| - 1];
      if it.key == k then Bytes(front.up + it.body.delta.up, front.down + it.body.delta.down) else front
  }

  lemma ItemSumAppend(items: seq<TrafficItem>, it: TrafficItem, k: ConnKey)
    ensures ItemSum(items + [it], k)
            == if it.key == k then Bytes(ItemSum(items, k).up + it.body.delta.up,
                                         ItemSum(items, k).down + it.body.delta.down)
               else ItemSum(items, k)
  {
    assert (items + [it])[..|items + [it]| - 1] == items;
  }

  lemma NonzeroStep(front: seq<TrafficItem>, it: TrafficItem)
    ensures Nonzero(front + [it]) == if HasBytes(it) then Nonzero(front) + [it] else Nonzero(front)
  {
    assert (front + [it])[..|front + [it]| - 1] == front;
    assert Nonzero(front) + [] == Nonzero(front);
  }

  lemma {:induction false} NonzeroKeepsSum(items: seq<TrafficItem>, k: ConnKey)
    ensures ItemSum(Nonzero(items), k) == ItemSum(items, k)
  {
    hide ItemSum, Nonzero;
    if items == [] {
      assert Nonzero([]) == [] by { NothingNonzero(); }
    } else {
      var front, it := items[..|items| - 1], items[|items| - 1];
      assert items == front + [it];
      NonzeroKeepsSum(front, k);
      NonzeroStep(front, it);
      ItemSumAppend(front, it, k);
      if HasBytes(it) {
        ItemSumAppend(Nonzero(front), it, k);
      }
    }
  }

  lemma NothingNonzero()
    ensures Nonzero([]) == []
  {
  }

  lemma TrafficSumAppend(ds: seq<Draft>, d: Draft)
    ensures TrafficSum(ds + [d]) == Bytes(TrafficSum(ds).up + Traffic(d).up, TrafficSum(ds).down + Traffic(d).down)
  {
    assert (ds + [d])[..|ds + [d]| - 1] == ds;
  }

  lemma OneEventCarries(front: seq<Event>, ev: Event, k: ConnKey)
    requires ProperDelta(ev.body) && ItemSum(TrafficItems(front, 0), k) == TrafficSum(EventsOf(front, k))
    ensures ItemSum(TrafficItems(front + [ev], 0), k) == TrafficSum(EventsOf(front + [ev], k))
  {
    hide TrafficItems, EventsOf, ItemSum, TrafficSum;
    TrafficStep(front, ev, 0);
    EventsOfConcat(front, [ev], k);
    SingleEvent(ev, k);
    var items, mine := TrafficItems(front, 0), EventsOf(front, k);
    assert items + [] == items && mine + [] == mine;
    if IsTraffic(ev) {
      ItemSumAppend(items, TrafficItem(|front| + 1, KeyOf(ev), ev.body), k);
    }
    if Concerns(ev, k) {
      TrafficSumAppend(mine, ev.body);
    }
  }

  lemma SingleEvent(ev: Event, k: ConnKey)
    ensures EventsOf([ev], k) == if Concerns(ev, k) then [ev.body] else []
  {
    assert [ev][..0] == [];
  }

  lemma {:induction false} ItemsCarryTraffic(evs: seq<Event>, k: ConnKey)
    requires EngineLog.ProperLog(evs)
    ensures ItemSum(TrafficItems(evs, 0), k) == TrafficSum(EventsOf(evs, k))
    ensures TrafficSum(EventsOf(evs, k)).up >= 0 && TrafficSum(EventsOf(evs, k)).down >= 0
  {
    if evs != [] {
      var front, ev := evs[..|evs| - 1], evs[|evs| - 1];
      assert evs == front + [ev];
      ItemsCarryTraffic(front, k);
      assert ProperDelta(ev.body);
      OneEventCarries(front, ev, k);
      if Concerns(ev, k) {
        TrafficSumAppend(EventsOf(front, k), ev.body);
      }
    }
  }

  lemma {:induction false} RowsCarryItems(rows: seq<AccountedRow>, items: seq<TrafficItem>, classes: ClassMap,
                                          k: ConnKey)
    requires Ledger(rows, items, classes)
    ensures RawWhere(rows, {k}) == ItemSum(items, k)
  {
    if rows != [] {
      RowsCarryItems(rows[..|rows| - 1], items[..|items| - 1], classes, k);
      assert Books(rows[|rows| - 1], items[|items| - 1], classes);
    }
  }

  /** The rows of a connection carry exactly the bytes its summary says were monitored. */
  lemma RowsCarryMonitored(gen: Generation, journal: seq<Event>, k: ConnKey)
    requires GenOk(gen, journal) && EngineLog.ProperLog(journal) && k in gen.table
    ensures RawWhere(gen.rows, {k}) == gen.table[k].monitored
    ensures gen.table[k].monitored.up >= 0 && gen.table[k].monitored.down >= 0
  {
    hide Legacy, TrafficItems, Nonzero, RawTotal, AccountedTotal, Books;
    var evs := journal[..gen.published];
    assert forall ev :: ev in evs ==> ev in journal;
    RowsCarryItems(gen.rows, Items(journal, gen.published), gen.classes, k);
    NonzeroKeepsSum(TrafficItems(evs, 0), k);
    ItemsCarryTraffic(evs, k);
    MonitoredIsSum(EventsOf(evs, k));
  }

  // ---------------------------------------------------------------------------------------------
  // The bound
  // ---------------------------------------------------------------------------------------------

  function GroupKeys(gen: Generation, session: SessionId, epoch: nat): set<ConnKey> {
    set k | k in gen.table && k.session == session && k.epoch == epoch
  }

  function UniqueKeys(gen: Generation, session: SessionId, epoch: nat): set<ConnKey> {
    set k | k in GroupKeys(gen, session, epoch) && ClassFor(gen.classes, k) == Unique
  }

  function DuplicateKeys(gen: Generation, session: SessionId, epoch: nat): set<ConnKey> {
    set k | k in GroupKeys(gen, session, epoch) && ClassFor(gen.classes, k) == ConfirmedDuplicate
  }

  ghost function GroupInfos(gen: Generation, journal: seq<Event>, session: SessionId, epoch: nat): Group
    requires gen.published <= |journal|
  {
    map k | k in GroupKeys(gen, session, epoch) ::
      InfoOf(k, gen.table[k], FrameTime(journal[..gen.published], k.session, k.epoch))
  }

  /** The group's stored classes are those of its own match graph. */
  lemma GroupClasses(gen: Generation, journal: seq<Event>, session: SessionId, epoch: nat)
    requires GenOk(gen, journal) && gen.classes == FullClasses(journal[..gen.published])
    ensures var g := GroupInfos(gen, journal, session, epoch);
            && Keyed(g) && g.Keys == GroupKeys(gen, session, epoch) && GraphOf(g).roles.Keys == g.Keys
            && forall k :: k in g ==> ClassFor(gen.classes, k) == GraphOf(g).ClassOf(k)
  {
    hide Ledger, TableOf, GraphOf, FrameTime, EffectiveLastObs;
    var evs := journal[..gen.published];
    var infos, g := InfosOf(gen.table, evs), GroupInfos(gen, journal, session, epoch);
    RolesAreKeys(g);
    RolesAreKeys(infos);
    assert Keyed(infos);
    assert forall a, b :: a in g.Keys && b in infos && SameGroup(a, b) ==> b in g.Keys;
    GroupsClassifyApart(infos, g, g.Keys);
  }

  lemma SumsAgree(f: ConnKey -> int, g: ConnKey -> int, keys: set<ConnKey>)
    requires forall k :: k in keys ==> f(k) == g(k)
    ensures Sum(f, keys) == Sum(g, keys)
  {
    SumAtMost(f, g, keys);
    SumAtMost(g, f, keys);
  }

  /** 4 times the bytes a group's rows deduct is at most 5 times the bytes accounted on its unique
      connections, in both directions of traffic. */
  ghost predicate Bounded(gen: Generation, session: SessionId, epoch: nat) {
    var all, unique := GroupKeys(gen, session, epoch), UniqueKeys(gen, session, epoch);
    var raw, accounted := RawWhere(gen.rows, all), AccountedWhere(gen.rows, all);
    var kept := AccountedWhere(gen.rows, unique);
    4 * (raw.up - accounted.up) <= 5 * kept.up && 4 * (raw.down - accounted.down) <= 5 * kept.down
  }

  /** With the full rebuild's classes, the bytes a group's rows deduct are at most 5/4 of the bytes accounted
      on its unique connections, in both directions of traffic. */
  lemma GenerationDeductionBound(gen: Generation, journal: seq<Event>, session: SessionId, epoch: nat)
    requires GenOk(gen, journal) && EngineLog.ProperLog(journal)
    requires gen.classes == FullClasses(journal[..gen.published])
    ensures Bounded(gen, session, epoch)
  {
    hide GenOk, FullClasses, GroupInfos, RawWhere, AccountedWhere, Weight;
    var all, unique := GroupKeys(gen, session, epoch), UniqueKeys(gen, session, epoch);
    var duplicates := DuplicateKeys(gen, session, epoch);
    RowsAccount(gen, journal);
    DeductedAre(gen.rows, gen.classes, all, duplicates, unique);
    RawIsSum(gen.rows, duplicates);
    RawIsSum(gen.rows, unique);
    GroupWeights(gen, journal, session, epoch);
  }

  /** The bound of the group's match graph, said of the rows of its connections. */
  lemma GroupWeights(gen: Generation, journal: seq<Event>, session: SessionId, epoch: nat)
    requires GenOk(gen, journal) && EngineLog.ProperLog(journal)
    requires gen.classes == FullClasses(journal[..gen.published])
    ensures var unique, duplicates := UniqueKeys(gen, session, epoch), DuplicateKeys(gen, session, epoch);
            && 4 * Sum(Weight(gen.rows, true), duplicates) <= 5 * Sum(Weight(gen.rows, true), unique)
            && 4 * Sum(Weight(gen.rows, false), duplicates) <= 5 * Sum(Weight(gen.rows, false), unique)
  {
    hide GenOk, FullClasses, GroupInfos, GraphOf, InfoOf, RawWhere;
    var unique, duplicates := UniqueKeys(gen, session, epoch), DuplicateKeys(gen, session, epoch);
    RowsAccount(gen, journal);
    var g := GroupInfos(gen, journal, session, epoch);
    GroupClasses(gen, journal, session, epoch);
    forall k | k in GroupKeys(gen, session, epoch)
      ensures g[k].monitored == RawWhere(gen.rows, {k}) && g[k].monitored.up >= 0 && g[k].monitored.down >= 0
    {
      RowsCarryMonitored(gen, journal, k);
      GroupInfoMonitored(gen, journal, session, epoch, k);
    }
    GroupDeductionBound(g);
    assert duplicates == set k | k in g && GraphOf(g).ClassOf(k) == ConfirmedDuplicate;
    assert unique == set k | k in g && GraphOf(g).ClassOf(k) == Unique;
    var ups, downs := k => if k in g then g[k].monitored.up else 0, k => if k in g then g[k].monitored.down else 0;
    SumsAgree(ups, Weight(gen.rows, true), duplicates);
    SumsAgree(ups, Weight(gen.rows, true), unique);
    SumsAgree(downs, Weight(gen.rows, false), duplicates);
    SumsAgree(downs, Weight(gen.rows, false), unique);
  }

  lemma RowsAccount(gen: Generation, journal: seq<Event>)
    requires GenOk(gen, journal)
    ensures gen.published <= |journal|
    ensures forall r :: r in gen.rows ==> r.accounted == AccountedBytes(ClassFor(gen.classes, r.key), r.raw)
  {
    hide Ledger, TableOf, Items, RawTotal, AccountedTotal;
    LedgerAccounts(gen.rows, Items(journal, gen.published), gen.classes);
  }

  lemma GroupInfoMonitored(gen: Generation, journal: seq<Event>, session: SessionId, epoch: nat, k: ConnKey)
    requires gen.published <= |journal| && k in GroupKeys(gen, session, epoch)
    ensures k in GroupInfos(gen, journal, session, epoch)
    ensures GroupInfos(gen, journal, session, epoch)[k].monitored == gen.table[k].monitored
  {
  }

  /** Over every run of the chunk protocol whose commits are harmless, in every world and for every group. */
  lemma AlwaysDeductionBound(worlds: seq<World>, steps: seq<Step>, n: nat, session: SessionId, epoch: nat)
    requires Run(worlds, steps) && Init(worlds[0]) && n < |worlds| && FullyClassified(worlds[0])
    requires forall s :: s in worlds ==> AfterZero(s.journal)
    requires forall i :: 0 <= i < n && steps[i].Publish? ==> HarmlessCommit(worlds[i], worlds[i].At(steps[i].w))
    requires EngineLog.ProperLog(worlds[n].journal)
    ensures Bounded(worlds[n].gen, session, epoch)
  {
    hide GenOk, Run, Init, FullClasses, HarmlessCommit, AfterZero, EngineLog.ProperLog, RawWhere, AccountedWhere;
    AlwaysFullClassesIff(worlds, steps, n);
    AlwaysExactlyOnce(worlds, steps, n);
    assert FullyClassified(worlds[n]);
    GenerationDeductionBound(worlds[n].gen, worlds[n].journal, session, epoch);
  }
}
