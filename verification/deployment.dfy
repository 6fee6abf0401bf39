/** Whole deployments: collector sessions that come and go on one store, accounting workers that read and
    commit meanwhile, and the hourly index that follows the commits. */
module Deployment {
  import opened Types
  import opened Derived
  import opened Accounting
  import opened Hourly
  import opened HourlyIndex
  import opened Allocator
  import opened Correction
  import opened GenerationStore
  import opened Windows
  import opened Protocol
  import opened EngineHistories
  import Closure
  import Cut
  import Deduction
  import EngineLog
  import Evidence
  import Intervals
  import Journal

  // ---------------------------------------------------------------------------------------------
  // The hourly index over a run
  // ---------------------------------------------------------------------------------------------

  datatype IndexState = IndexState(cells: Cells, seen: Seen)

  /** The index beside each world: it follows every commit and rests otherwise. */
  ghost predicate IndexedRun(worlds: seq<World>, steps: seq<Step>, indexes: seq<IndexState>) {
    && Run(worlds, steps) && |indexes| == |worlds|
    && forall i :: 0 <= i < |steps| ==> IndexStep(worlds[i], steps[i], indexes[i], indexes[i + 1])
  }

  ghost predicate IndexStep(s: World, step: Step, index: IndexState, index': IndexState) {
    if step.Publish? then
      CanCommit(s, s.At(step.w))
      && IndexFollows(s.gen, ChunkOf(s.journal, s.At(step.w)), s.At(step.w).to, index.cells, index'.cells, index'.seen)
    else index' == index
  }

  /** An opened seed: accounted, fully classified, and with an exact index. */
  ghost predicate Opened(s: World, index: IndexState) {
    && Init(s) && FullyClassified(s)
    && IndexOk(index.cells, index.seen, s.gen.rows) && EstimatesCurrent(index.cells, s.gen.rows)
  }

  /** What the class changes of one step take back from a cell. */
  ghost function StepTakes(s: World, step: Step, key: AggKey): Bytes {
    if step.Publish? && CanCommit(s, s.At(step.w))
    then TakenBack(s.gen.rows, ChunkOf(s.journal, s.At(step.w)).changes, key) else NO_BYTES
  }

  ghost function TakenSoFar(worlds: seq<World>, steps: seq<Step>, n: nat, key: AggKey): Bytes
    requires n <= |steps| && |worlds| == |steps| + 1
  {
    if n == 0 then NO_BYTES
    else
      var before, last := TakenSoFar(worlds, steps, n - 1, key), StepTakes(worlds[n - 1], steps[n - 1], key);
      Bytes(before.up + last.up, before.down + last.down)
  }

  ghost predicate LeakFreeCommit(s: World, worker: Worker) {
    CanCommit(s, worker) && LeakFree(s.gen.rows, ChunkOf(s.journal, worker).changes)
  }

  lemma StepKeepsIndex(s: World, step: Step, s': World, index: IndexState, index': IndexState, key: AggKey)
    requires Next(s, step, s') && IndexStep(s, step, index, index') && !step.Refuse?
    requires IndexOk(index.cells, index.seen, s.gen.rows)
    ensures IndexOk(index'.cells, index'.seen, s'.gen.rows)
    ensures StaleGrows(index.cells, s.gen.rows, index'.cells, s'.gen.rows, key, StepTakes(s, step, key))
  {
    hide IndexOk, StaleAt, TakenBack, Prepare, Commit, CommitSucceeds, Closure.CutoffComputed, Cut.Evolves,
         Cut.FrameAlignedCut;
    if step.Publish? {
      var chunk := ChunkOf(s.journal, s.At(step.w));
      assert StaleBy(index.cells, s.gen.rows, index'.cells, s'.gen.rows, s.gen.rows, chunk.changes);
    }
  }

  /** Over every run from an opened seed the index stays in step with the rows, and the stale bytes of
      each cell are exactly what the class changes of all commits so far took back. */
  lemma {:induction false} StaleIsWhatWasTakenBack(worlds: seq<World>, steps: seq<Step>, indexes: seq<IndexState>,
                                                   n: nat, key: AggKey)
    requires IndexedRun(worlds, steps, indexes) && Opened(worlds[0], indexes[0]) && n < |worlds|
    ensures IndexOk(indexes[n].cells, indexes[n].seen, worlds[n].gen.rows)
    ensures StaleAt(indexes[n].cells, worlds[n].gen.rows, key) == TakenSoFar(worlds, steps, n, key)
  {
    hide GenOk, Sound, Next, IndexOk, IndexStep, StaleAt, StepTakes, FullyClassified, EstimatesCurrent;
    if n == 0 {
      CurrentIsNotStale(indexes[0].cells, worlds[0].gen.rows);
    } else {
      StaleIsWhatWasTakenBack(worlds, steps, indexes, n - 1, key);
      NeverRefused(worlds, steps, n - 1);
      var m := n - 1;
      assert Next(worlds[m], steps[m], worlds[m + 1]) && IndexStep(worlds[m], steps[m], indexes[m], indexes[m + 1]);
      StepKeepsIndex(worlds[m], steps[m], worlds[m + 1], indexes[m], indexes[m + 1], key);
    }
  }

  lemma StepTakesNothingIff(worlds: seq<World>, steps: seq<Step>, i: nat)
    requires Run(worlds, steps) && Init(worlds[0]) && i < |steps|
    ensures (steps[i].Publish? ==> LeakFreeCommit(worlds[i], worlds[i].At(steps[i].w)))
            <==> forall key :: StepTakes(worlds[i], steps[i], key) == NO_BYTES
    ensures forall key :: NonNegative(StepTakes(worlds[i], steps[i], key))
  {
    hide GenOk, Sound, LeakFree, TakenBack, Prepare, Commit, CommitSucceeds, Closure.CutoffComputed, Cut.Evolves;
    var s, step := worlds[i], steps[i];
    RunKeepsInv(worlds, steps, i);
    assert s in worlds && Next(s, step, worlds[i + 1]);
    if step.Publish? {
      var changes := ChunkOf(s.journal, s.At(step.w)).changes;
      LedgerHasNoNegatives(s.gen, s.journal);
      LeakFreeIff(s.gen.rows, changes);
      forall key ensures NonNegative(StepTakes(s, step, key)) {
        TakenBackIsNonNegative(s.gen.rows, changes, key);
      }
      if forall key :: StepTakes(s, step, key) == NO_BYTES {
        forall key ensures TakenBack(s.gen.rows, changes, key) == NO_BYTES {
          assert StepTakes(s, step, key) == NO_BYTES;
        }
      }
      if LeakFree(s.gen.rows, changes) {
        forall key ensures StepTakes(s, step, key) == NO_BYTES {
          assert TakenBack(s.gen.rows, changes, key) == NO_BYTES;
        }
      }
    }
  }

  /** Every commit of the first `n` steps passed the guard. */
  ghost predicate AllLeakFree(worlds: seq<World>, steps: seq<Step>, n: nat)
    requires n <= |steps| && |worlds| == |steps| + 1
  {
    forall i :: 0 <= i < n && steps[i].Publish? ==> LeakFreeCommit(worlds[i], worlds[i].At(steps[i].w))
  }

  lemma AllLeakFreeStep(worlds: seq<World>, steps: seq<Step>, m: nat)
    requires m < |steps| && |worlds| == |steps| + 1
    ensures AllLeakFree(worlds, steps, m + 1)
            <==> && AllLeakFree(worlds, steps, m)
                 && (steps[m].Publish? ==> LeakFreeCommit(worlds[m], worlds[m].At(steps[m].w)))
  {
    hide LeakFreeCommit;
  }

  lemma {:induction false} TakenIsNonNegative(worlds: seq<World>, steps: seq<Step>, n: nat, key: AggKey)
    requires |worlds| == |steps| + 1 && n <= |steps|
    requires Run(worlds, steps) && Init(worlds[0])
    ensures NonNegative(TakenSoFar(worlds, steps, n, key))
  {
    hide Run, Init, StepTakes;
    if n > 0 {
      TakenIsNonNegative(worlds, steps, n - 1, key);
      StepTakesNothingIff(worlds, steps, n - 1);
      assert NonNegative(StepTakes(worlds[n - 1], steps[n - 1], key));
    }
  }

  ghost predicate NothingTaken(worlds: seq<World>, steps: seq<Step>, n: nat)
    requires n <= |steps| && |worlds| == |steps| + 1
  {
    forall key :: TakenSoFar(worlds, steps, n, key) == NO_BYTES
  }

  lemma NothingTakenStep(worlds: seq<World>, steps: seq<Step>, m: nat)
    requires m < |steps| && |worlds| == |steps| + 1
    requires forall key :: NonNegative(TakenSoFar(worlds, steps, m, key))
    requires forall key :: NonNegative(StepTakes(worlds[m], steps[m], key))
    ensures NothingTaken(worlds, steps, m + 1)
            <==> NothingTaken(worlds, steps, m) && forall key :: StepTakes(worlds[m], steps[m], key) == NO_BYTES
  {
    hide StepTakes;
    if NothingTaken(worlds, steps, m + 1) {
      forall key
        ensures TakenSoFar(worlds, steps, m, key) == NO_BYTES && StepTakes(worlds[m], steps[m], key) == NO_BYTES
      {
        assert TakenSoFar(worlds, steps, m + 1, key) == NO_BYTES;
        assert NonNegative(TakenSoFar(worlds, steps, m, key)) && NonNegative(StepTakes(worlds[m], steps[m], key));
      }
    }
    if NothingTaken(worlds, steps, m) && forall key :: StepTakes(worlds[m], steps[m], key) == NO_BYTES {
      var n := m + 1;
      forall key ensures TakenSoFar(worlds, steps, n, key) == NO_BYTES {
        assert TakenSoFar(worlds, steps, m, key) == NO_BYTES && StepTakes(worlds[m], steps[m], key) == NO_BYTES;
      }
    }
  }

  lemma {:induction false} NothingTakenIff(worlds: seq<World>, steps: seq<Step>, n: nat)
    requires Run(worlds, steps) && Init(worlds[0]) && n < |worlds|
    ensures |worlds| == |steps| + 1
    ensures AllLeakFree(worlds, steps, n) <==> NothingTaken(worlds, steps, n)
  {
    hide Run, Init, LeakFreeCommit, StepTakes;
    RunIsLong(worlds, steps);
    if n > 0 {
      var m := n - 1;
      NothingTakenIff(worlds, steps, m);
      AllLeakFreeStep(worlds, steps, m);
      StepTakesNothingIff(worlds, steps, m);
      forall key ensures NonNegative(TakenSoFar(worlds, steps, m, key)) {
        TakenIsNonNegative(worlds, steps, m, key);
      }
      NothingTakenStep(worlds, steps, m);
    }
  }

  /** Over every run from an opened seed: the hourly index answers every aligned window query as the direct
      scan does exactly when every commit so far passed the guard and no row with an empty interval
      carries bytes. */
  lemma IndexAnswersIff(worlds: seq<World>, steps: seq<Step>, indexes: seq<IndexState>, n: nat)
    requires IndexedRun(worlds, steps, indexes) && Opened(worlds[0], indexes[0]) && n < |worlds|
    ensures |worlds| == |steps| + 1
    ensures AnswersForScan(indexes[n].cells, worlds[n].gen.rows)
            <==> AllLeakFree(worlds, steps, n) && EmptyIntervalsCarryNothing(worlds[n].gen.rows)
  {
    hide GenOk, Sound, Next, IndexOk, IndexStep, StaleAt, FullyClassified, EstimatesCurrent, AllLeakFree;
    hide AnswersForScan, EmptyIntervalsCarryNothing, TakenSoFar;
    NothingTakenIff(worlds, steps, n);
    RunKeepsInv(worlds, steps, n);
    assert worlds[n] in worlds;
    forall key
      ensures IndexOk(indexes[n].cells, indexes[n].seen, worlds[n].gen.rows)
      ensures StaleAt(indexes[n].cells, worlds[n].gen.rows, key) == TakenSoFar(worlds, steps, n, key)
    {
      StaleIsWhatWasTakenBack(worlds, steps, indexes, n, key);
    }
    StaleIsWhatWasTakenBack(worlds, steps, indexes, n, AggKey(0, Dim(TotalDim, "total"), Unknown));
    CurrentIsNotStale(indexes[n].cells, worlds[n].gen.rows);
    GenerationAnswersIff(worlds[n].gen, worlds[n].journal, indexes[n].cells, indexes[n].seen);
    if NothingTaken(worlds, steps, n) {
      forall key ensures StaleAt(indexes[n].cells, worlds[n].gen.rows, key) == NO_BYTES {
        assert TakenSoFar(worlds, steps, n, key) == NO_BYTES;
      }
    }
  }

  // ---------------------------------------------------------------------------------------------
  // Everything together
  // ---------------------------------------------------------------------------------------------

  /** A row of a clocked journal is spread over a non-empty interval, if over any. */
  lemma ClockedRowsAreSpread(gen: Generation, journal: seq<Event>)
    requires GenOk(gen, journal) && Intervals.ClockedLog(journal)
    ensures forall r :: r in gen.rows ==> !EmptyInterval(r.interval, r.exact)
  {
    hide Evidence.TableOf, Evidence.TrafficItems, Nonzero, RawTotal, AccountedTotal;
    var items := Items(journal, gen.published);
    Evidence.TrafficItemsCover(journal[..gen.published], 0);
    NonzeroMembers(Evidence.TrafficItems(journal[..gen.published], 0));
    forall i | 0 <= i < |gen.rows| ensures !EmptyInterval(gen.rows[i].interval, gen.rows[i].exact) {
      assert items[i] in items && Books(gen.rows[i], items[i], gen.classes);
      assert journal[items[i].seqno - 1] in journal;
    }
  }

  /** The worlds of a run are moments of one store history: `at` says which. */
  ghost predicate Deployed(worlds: seq<World>, steps: seq<Step>, ops: seq<Journal.Op>, at: seq<nat>,
                           feeds: map<SessionId, Cut.CollectorRun>)
  {
    && |worlds| == |steps| + 1 == |at|
    && Journal.History(ops) && StartsAscend(ops) && FedBy(Journal.Live(ops).journal, feeds)
    && (forall i :: 0 <= i < |worlds| ==> at[i] <= |ops| && ShowsStore(worlds[i], Journal.Live(ops[..at[i]])))
    && (forall i :: 0 <= i < |steps| ==>
          at[i] <= at[i + 1] && (steps[i].Grow? || at[i] == at[i + 1]) && StepsTo(worlds[i], steps[i], worlds[i + 1]))
  }

  ghost predicate ShowsStore(s: World, st: Journal.StoreState) {
    s.journal == st.journal && s.sessions == st.sessions
  }

  /** A step of a worker, or of the collector; what the collector may do is left to the store's history. */
  ghost predicate StepsTo(s: World, step: Step, s': World) {
    if step.Grow? then
      step == Grow(s'.journal, s'.sessions) && s' == s.(journal := s'.journal, sessions := s'.sessions)
    else Next(s, step, s')
  }

  lemma LaterMoments(ops: seq<Journal.Op>, i: nat, j: nat)
    requires Journal.History(ops) && i <= j <= |ops|
    ensures var a, b := Journal.Live(ops[..i]), Journal.Live(ops[..j]);
            Cut.Evolves(a.journal, a.sessions, b.journal, b.sessions)
  {
    hide Cut.Evolves, Journal.Live;
    Cut.PrefixIsHistory(ops, j);
    Cut.HistoriesEvolve(ops[..j], i);
    assert ops[..j][..i] == ops[..i];
  }

  /** Such worlds form a run of the protocol, over journals everything else can rely on: nothing about
      the journal is left to assume. */
  lemma DeploymentsRun(worlds: seq<World>, steps: seq<Step>, ops: seq<Journal.Op>, at: seq<nat>,
                       feeds: map<SessionId, Cut.CollectorRun>)
    requires Deployed(worlds, steps, ops, at, feeds)
    ensures Run(worlds, steps)
    ensures forall s :: s in worlds ==> Reliable(s.journal)
  {
    hide Journal.History, Journal.Live, StartsAscend, FedBy, Cut.Evolves, Reliable, Sound, Prepare, Commit,
         CommitSucceeds;
    forall s | s in worlds ensures Reliable(s.journal) && Sound(s.journal) {
      var i :| 0 <= i < |worlds| && worlds[i] == s;
      EngineHistoriesAreReliable(ops, feeds, at[i]);
      ReliableIsSound(s.journal);
    }
    forall i | 0 <= i < |steps| ensures Next(worlds[i], steps[i], worlds[i + 1]) {
      assert StepsTo(worlds[i], steps[i], worlds[i + 1]);
      assert ShowsStore(worlds[i], Journal.Live(ops[..at[i]]))
             && ShowsStore(worlds[i + 1], Journal.Live(ops[..at[i + 1]]));
      LaterMoments(ops, at[i], at[i + 1]);
    }
  }

  lemma ReliableIsSound(journal: seq<Event>)
    requires Reliable(journal)
    ensures Sound(journal) && Cut.WellFormed(journal) && Closure.AfterZero(journal)
    ensures EngineLog.ProperLog(journal) && Intervals.ClockedLog(journal)
  {
  }

  /** Whatever sessions came and went on the store, however their engines ended, and however workers
      interleaved with them, at every moment after an opened seed:
      the rows account for exactly the journal up to the published boundary,
      no boundary published so far splits a frame of the journal as it is now,
      the stored classes have always been the full rebuild's exactly when every commit was harmless,
      and the hourly index answers for the direct scan exactly when every commit passed the guard. */
  lemma DeploymentIsAccounted(worlds: seq<World>, steps: seq<Step>, ops: seq<Journal.Op>, at: seq<nat>,
                              feeds: map<SessionId, Cut.CollectorRun>, probes: seq<Cut.Probe>, indexes: seq<IndexState>,
                              n: nat)
    requires Deployed(worlds, steps, ops, at, feeds) && IndexedRun(worlds, steps, indexes)
    requires Opened(worlds[0], indexes[0]) && SeededByCuts(worlds[0], probes) && n < |worlds|
    ensures GenOk(worlds[n].gen, worlds[n].journal)
    ensures forall i :: 0 <= i <= n ==> Cut.Aligned(worlds[n].journal, worlds[i].gen.published)
    ensures (forall i :: 0 <= i <= n ==> FullyClassified(worlds[i]))
            <==> forall i :: 0 <= i < n && steps[i].Publish? ==> HarmlessCommit(worlds[i], worlds[i].At(steps[i].w))
    ensures AnswersForScan(indexes[n].cells, worlds[n].gen.rows) <==> AllLeakFree(worlds, steps, n)
  {
    hide GenOk, Run, Deployed, IndexedRun, IndexOk, FullyClassified, HarmlessCommit, AllLeakFree, AnswersForScan,
         SeededByCuts, Cut.Aligned, EstimatesCurrent, Reliable, Intervals.ClockedLog, Closure.AfterZero, EmptyInterval;
    DeploymentsRun(worlds, steps, ops, at, feeds);
    forall s | s in worlds ensures Cut.WellFormed(s.journal) && Closure.AfterZero(s.journal) {
      ReliableIsSound(s.journal);
    }
    assert worlds[n] in worlds;
    ReliableIsSound(worlds[n].journal);
    AlwaysExactlyOnce(worlds, steps, n);
    forall i | 0 <= i <= n ensures Cut.Aligned(worlds[n].journal, worlds[i].gen.published) {
      PublishedNeverSplitsFrame(worlds, steps, probes, i, n);
    }
    AlwaysFullClassesIff(worlds, steps, n);
    ClockedRowsAreSpread(worlds[n].gen, worlds[n].journal);
    IndexAnswersIff(worlds, steps, indexes, n);
  }

  /** And as long as every commit was harmless, no group has lost more than 5/4 of what its unique
      connections were accounted. */
  lemma DeploymentDeductionBound(worlds: seq<World>, steps: seq<Step>, ops: seq<Journal.Op>, at: seq<nat>,
                                 feeds: map<SessionId, Cut.CollectorRun>, n: nat, session: SessionId, epoch: nat)
    requires Deployed(worlds, steps, ops, at, feeds) && Init(worlds[0]) && FullyClassified(worlds[0]) && n < |worlds|
    requires forall i :: 0 <= i < n && steps[i].Publish? ==> HarmlessCommit(worlds[i], worlds[i].At(steps[i].w))
    ensures Deduction.Bounded(worlds[n].gen, session, epoch)
  {
    hide Run, Deployed, FullyClassified, HarmlessCommit, Reliable, Closure.AfterZero, EngineLog.ProperLog;
    DeploymentsRun(worlds, steps, ops, at, feeds);
    forall s | s in worlds ensures Closure.AfterZero(s.journal) {
      ReliableIsSound(s.journal);
    }
    assert worlds[n] in worlds;
    ReliableIsSound(worlds[n].journal);
    Deduction.AlwaysDeductionBound(worlds, steps, n, session, epoch);
  }
}
