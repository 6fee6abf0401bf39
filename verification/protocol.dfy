/** The optimistic chunk protocol (accounting_v2.go, advanceIncrementalChunk): any number of workers
    choose frame-aligned ranges and prepare chunks outside the writer lock, while the journal keeps
    growing, and commit them under an in-transaction recheck of the published boundary. */
module Protocol {
  import opened Types
  import opened Evidence
  import opened Closure
  import opened Derived
  import opened Accounting
  import Cut
  import Journal

  type Sessions = map<SessionId, Journal.Session>

  /** How far a worker has got. Capturing the boundary, probing for the cut and the two table reads of a
      preparation are separate steps and may see different states. */
  datatype Worker =
    | Idle
    | Begun(from: nat)
    | Captured(from: nat, boundary: nat)
    | Aligned(from: nat, to: nat)
    | HasDirty(from: nat, to: nat, dirty: Generation)
    | Prepared(from: nat, to: nat, dirty: Generation, partners: Generation, cutoff: Time)

  datatype World = World(journal: seq<Event>, sessions: Sessions, gen: Generation, workers: map<nat, Worker>) {
    function At(w: nat): Worker {
      if w in workers then workers[w] else Idle
    }

    function Put(w: nat, worker: Worker): World {
      this.(workers := workers[w := worker])
    }
  }

  /** Grow stands for anything the collector does to the store meanwhile. */
  datatype Step =
    | Grow(journal: seq<Event>, sessions: Sessions)
    | Begin(w: nat)
    | Capture(w: nat)
    | Align(w: nat, maxEvents: nat)
    | ReadDirty(w: nat)
    | ReadPartners(w: nat, cutoff: Time)
    | Publish(w: nat)
    | Refuse(w: nat)
    | Skip(w: nat)
    | Abort(w: nat)

  ghost function ChunkOf(journal: seq<Event>, worker: Worker): Chunk
    requires worker.Prepared? && worker.from <= worker.to <= |journal|
  {
    Prepare(journal, worker.from, worker.to, worker.dirty, worker.partners, worker.cutoff)
  }

  /** The writer transaction of a prepared worker that finds the boundary unmoved. */
  ghost predicate CanCommit(s: World, worker: Worker) {
    worker.Prepared? && worker.from <= worker.to <= |s.journal| && s.gen.published == worker.from
  }

  ghost predicate CanReadPartners(s: World, worker: Worker, cutoff: Time) {
    && worker.HasDirty? && worker.from <= worker.to <= |s.journal|
    && CutoffComputed(worker.dirty.table, UpdatesOf(s.journal[worker.from..worker.to]), cutoff)
  }

  ghost predicate Next(s: World, step: Step, s': World) {
    match step
    case Grow(journal, sessions) =>
      Cut.Evolves(s.journal, s.sessions, journal, sessions) && s' == World(journal, sessions, s.gen, s.workers)
    case Begin(w) => s.At(w).Idle? && s' == s.Put(w, Begun(s.gen.published))
    case Capture(w) => s.At(w).Begun? && s' == s.Put(w, Captured(s.At(w).from, |s.journal|))
    case Align(w, maxEvents) =>
      s.At(w).Captured?
      && var to := Cut.FrameAlignedCut(s.journal, s.sessions, s.At(w).from, s.At(w).boundary, maxEvents);
         s.At(w).from < to && s' == s.Put(w, Aligned(s.At(w).from, to))
    case ReadDirty(w) =>
      s.At(w).Aligned? && s' == s.Put(w, HasDirty(s.At(w).from, s.At(w).to, s.gen))
    case ReadPartners(w, cutoff) =>
      && CanReadPartners(s, s.At(w), cutoff)
      && s' == s.Put(w, Prepared(s.At(w).from, s.At(w).to, s.At(w).dirty, s.gen, cutoff))
    case Publish(w) =>
      && CanCommit(s, s.At(w))
      && CommitSucceeds(s.gen, ChunkOf(s.journal, s.At(w)), s.At(w).to)
      && s' == s.(gen := Commit(s.gen, ChunkOf(s.journal, s.At(w)), s.At(w).to), workers := s.workers[w := Idle])
    case Refuse(w) =>
      && CanCommit(s, s.At(w))
      && !CommitSucceeds(s.gen, ChunkOf(s.journal, s.At(w)), s.At(w).to)
      && s' == s.Put(w, Idle)
    case Skip(w) => s.At(w).Prepared? && s.gen.published != s.At(w).from && s' == s.Put(w, Idle)
    case Abort(w) => s' == s.Put(w, Idle)
  }

  // ---------------------------------------------------------------------------------------------
  // The inductive invariant
  // ---------------------------------------------------------------------------------------------

  /** A worker's reads are current for as long as the boundary it started from is: the boundary
      strictly grows with every commit, so it cannot come back. */
  ghost predicate WorkerOk(worker: Worker, gen: Generation, journal: seq<Event>) {
    match worker
    case Idle => true
    case Begun(from) => from <= gen.published
    case Captured(from, boundary) => from <= gen.published && from <= boundary <= |journal|
    case Aligned(from, to) => from <= gen.published && from < to <= |journal|
    case HasDirty(from, to, dirty) =>
      from <= gen.published && from < to <= |journal| && (gen.published == from ==> dirty == gen)
    case Prepared(from, to, dirty, partners, cutoff) =>
      from <= gen.published && from < to <= |journal|
      && (gen.published == from ==>
            dirty == gen && partners == gen && CutoffComputed(gen.table, UpdatesOf(journal[from..to]), cutoff))
  }

  ghost predicate Inv(s: World) {
    && GenOk(s.gen, s.journal)
    && forall w :: w in s.workers ==> WorkerOk(s.workers[w], s.gen, s.journal)
  }

  lemma JournalGrows(s: World, journal: seq<Event>)
    requires Inv(s) && s.journal <= journal
    ensures GenOk(s.gen, journal)
    ensures forall w :: w in s.workers ==> WorkerOk(s.workers[w], s.gen, journal)
  {
    hide GenOk, CutoffComputed;
    assert s.journal + journal[|s.journal|..] == journal;
    GenOkAfterAppend(s.gen, s.journal, journal[|s.journal|..]);
    forall w | w in s.workers ensures WorkerOk(s.workers[w], s.gen, journal) {
      var worker := s.workers[w];
      assert WorkerOk(worker, s.gen, s.journal);
      if worker.Prepared? {
        assert journal[worker.from..worker.to] == s.journal[worker.from..worker.to];
      }
    }
  }

  lemma CommitAdvances(s: World, w: nat)
    requires Inv(s) && Sound(s.journal) && CanCommit(s, s.At(w))
    ensures CommitSucceeds(s.gen, ChunkOf(s.journal, s.At(w)), s.At(w).to)
    ensures GenOk(Commit(s.gen, ChunkOf(s.journal, s.At(w)), s.At(w).to), s.journal)
    ensures s.gen.published < s.At(w).to
  {
    hide GenOk, Prepare, Commit, CommitSucceeds, Sound;
    assert WorkerOk(s.At(w), s.gen, s.journal);
    CommitKeepsGenOk(s.gen, s.journal, s.At(w).to, s.At(w).cutoff);
  }

  lemma WorkerAfterCommit(worker: Worker, gen: Generation, gen': Generation, journal: seq<Event>)
    requires WorkerOk(worker, gen, journal) && gen.published < gen'.published
    ensures WorkerOk(worker, gen', journal)
  {
  }

  lemma StepKeepsInv(s: World, step: Step, s': World)
    requires Inv(s) && Sound(s.journal) && Next(s, step, s')
    ensures Inv(s')
    ensures s.gen.published <= s'.gen.published
    ensures s.gen.published < s'.gen.published <==> step.Publish?
    ensures !step.Publish? ==> s'.gen == s.gen
    ensures !step.Refuse?
  {
    hide GenOk, Prepare, Commit, CommitSucceeds, Sound, CutoffComputed, Cut.MayWrite, Cut.FrameAlignedCut;
    match step
    case Grow(journal, _) =>
      JournalGrows(s, journal);
    case Publish(w) =>
      CommitAdvances(s, w);
      CommitPublishes(s.gen, ChunkOf(s.journal, s.At(w)), s.At(w).to);
      forall v | v in s'.workers ensures WorkerOk(s'.workers[v], s'.gen, s'.journal) {
        if v != w {
          WorkerAfterCommit(s.workers[v], s.gen, s'.gen, s.journal);
        }
      }
    case Refuse(w) =>
      CommitAdvances(s, w);
      assert false;
    case Align(w, maxEvents) =>
      assert WorkerOk(s.At(w), s.gen, s.journal);
      Cut.CutWithinBoundary(s.journal, s.sessions, s.At(w).from, s.At(w).boundary, maxEvents);
    case Capture(_) =>
      BoundaryWithinJournal(s.gen, s.journal);
    case Begin(_) =>
    case ReadDirty(_) =>
    case ReadPartners(_, _) =>
    case Skip(_) =>
    case Abort(_) =>
  }

  lemma BoundaryWithinJournal(gen: Generation, journal: seq<Event>)
    requires GenOk(gen, journal)
    ensures gen.published <= |journal|
  {
  }

  lemma CommitPublishes(gen: Generation, chunk: Chunk, to: nat)
    ensures Commit(gen, chunk, to).published == to
  {
  }

  // ---------------------------------------------------------------------------------------------
  // Runs
  // ---------------------------------------------------------------------------------------------

  ghost predicate Run(worlds: seq<World>, steps: seq<Step>) {
    && |worlds| == |steps| + 1
    && (forall i :: 0 <= i < |steps| ==> Next(worlds[i], steps[i], worlds[i + 1]))
    && (forall s :: s in worlds ==> Sound(s.journal))
  }

  /** A freshly activated generation, before any worker has begun. */
  ghost predicate Init(s: World) {
    GenOk(s.gen, s.journal) && s.workers == map[]
  }

  lemma {:induction false} RunKeepsInv(worlds: seq<World>, steps: seq<Step>, n: nat)
    requires Run(worlds, steps) && Init(worlds[0]) && n < |worlds|
    ensures Inv(worlds[n])
  {
    hide GenOk, WorkerOk, Sound, Next;
    if n > 0 {
      RunKeepsInv(worlds, steps, n - 1);
      assert worlds[n - 1] in worlds;
      StepKeepsInv(worlds[n - 1], steps[n - 1], worlds[n - 1 + 1]);
    }
  }

  /** Exactly-once accounting over every interleaving: in every reachable world the derived rows are
      exactly the nonzero New and Delta events up to the published boundary, with totals to match. */
  lemma AlwaysExactlyOnce(worlds: seq<World>, steps: seq<Step>, n: nat)
    requires Run(worlds, steps) && Init(worlds[0]) && n < |worlds|
    ensures GenOk(worlds[n].gen, worlds[n].journal)
    ensures forall i, j :: 0 <= i < j < |worlds[n].gen.rows| ==>
              worlds[n].gen.rows[i].seqno < worlds[n].gen.rows[j].seqno
    ensures forall r :: r in worlds[n].gen.rows ==> BooksEvent(r, worlds[n].journal, worlds[n].gen.published)
    ensures forall m :: 0 <= m < worlds[n].gen.published && IsTraffic(worlds[n].journal[m])
                        && worlds[n].journal[m].body.delta != NO_BYTES
                        ==> exists r :: r in worlds[n].gen.rows && r.seqno == m + 1
    ensures worlds[n].gen.accounted.AtMost(worlds[n].gen.raw)
  {
    hide Ledger, BooksEvent, TableOf, Items, RawTotal, AccountedTotal, IsTraffic, Next;
    RunKeepsInv(worlds, steps, n);
    assert worlds[n] in worlds;
    RowsAreExactlyTheTraffic(worlds[n].gen, worlds[n].journal);
    LedgerInvariant(worlds[n].gen, worlds[n].journal);
  }

  /** The published boundary never decreases, and stands still only while nothing commits. */
  lemma {:induction false} BoundaryNeverDecreases(worlds: seq<World>, steps: seq<Step>, i: nat, j: nat)
    requires Run(worlds, steps) && Init(worlds[0]) && i <= j < |worlds|
    ensures worlds[i].gen.published <= worlds[j].gen.published
    ensures worlds[i].gen.published == worlds[j].gen.published ==> worlds[i].gen == worlds[j].gen
    decreases j
  {
    hide GenOk, Prepare, Commit, CommitSucceeds, Sound, Next, Inv;
    if i < j {
      BoundaryNeverDecreases(worlds, steps, i, j - 1);
      RunKeepsInv(worlds, steps, j - 1);
      assert worlds[j - 1] in worlds;
      StepKeepsInv(worlds[j - 1], steps[j - 1], worlds[j - 1 + 1]);
    }
  }

  /** No step of any run is refused, and two commits never cover the same journal range: the later one
      starts at or after the end of the earlier one. */
  lemma CommittedRangesAreDisjoint(worlds: seq<World>, steps: seq<Step>, i: nat, j: nat)
    requires Run(worlds, steps) && Init(worlds[0]) && i < j < |steps|
    requires steps[i].Publish? && steps[j].Publish?
    ensures !steps[i].Refuse?
    ensures worlds[i].At(steps[i].w).Prepared? && worlds[j].At(steps[j].w).Prepared?
    ensures worlds[i].At(steps[i].w).to <= worlds[j].At(steps[j].w).from
  {
    hide GenOk, Prepare, CommitSucceeds;
    assert Next(worlds[i], steps[i], worlds[i + 1]) && Next(worlds[j], steps[j], worlds[j + 1]);
    CommitPublishes(worlds[i].gen, ChunkOf(worlds[i].journal, worlds[i].At(steps[i].w)), worlds[i].At(steps[i].w).to);
    BoundaryNeverDecreases(worlds, steps, i + 1, j);
  }

  lemma NeverRefused(worlds: seq<World>, steps: seq<Step>, n: nat)
    requires Run(worlds, steps) && Init(worlds[0]) && n < |steps|
    ensures !steps[n].Refuse?
  {
    RunKeepsInv(worlds, steps, n);
    assert worlds[n] in worlds;
    StepKeepsInv(worlds[n], steps[n], worlds[n + 1]);
  }

  // ---------------------------------------------------------------------------------------------
  // Full classes over whole runs
  // ---------------------------------------------------------------------------------------------

  /** The stored classes are the ones the legacy full rebuild computes at the published boundary. */
  ghost predicate FullyClassified(s: World) {
    s.gen.published <= |s.journal| && s.gen.classes == FullClasses(s.journal[..s.gen.published])
  }

  ghost predicate HarmlessCommit(s: World, worker: Worker) {
    CanCommit(s, worker) && HarmlessChunk(s.gen, s.journal, worker.to, worker.cutoff)
  }

  lemma PrefixKeepsFullClasses(journal: seq<Event>, later: seq<Event>, boundary: nat)
    requires boundary <= |journal| && journal <= later
    ensures FullClasses(later[..boundary]) == FullClasses(journal[..boundary])
  {
    assert later[..boundary] == journal[..boundary];
  }

  lemma CutoffAtCommit(gen: Generation, journal: seq<Event>, to: nat, cutoff: Time)
    requires GenOk(gen, journal) && Sound(journal) && AfterZero(journal) && gen.published <= to <= |journal|
    requires CutoffComputed(gen.table, UpdatesOf(journal[gen.published..to]), cutoff)
    ensures CutoffOk(gen.table, UpdatesOf(journal[gen.published..to]), cutoff)
  {
    hide CutoffComputed, CutoffOk, FrameOrdered, Ledger;
    SoundPrefix(journal, to);
    SplitJournal(journal, gen.published, to);
    assert forall ev :: ev in journal[..to] ==> ev in journal;
    ComputedCutoffIsOk(journal[..gen.published], journal[gen.published..to], cutoff);
  }

  lemma StepFullClassesIff(s: World, step: Step, s': World)
    requires Inv(s) && Inv(s') && Sound(s.journal) && AfterZero(s.journal) && Next(s, step, s')
    requires FullyClassified(s)
    ensures FullyClassified(s') <==> (step.Publish? ==> HarmlessCommit(s, s.At(step.w)))
  {
    hide Ledger, TableOf, FullClasses, HarmlessChunk, Sound, Prepare, Commit, CommitSucceeds, Items, RawTotal,
         AccountedTotal;
    hide AfterZero, CutoffOk, CutoffComputed, Cut.FrameAlignedCut, Cut.MayWrite;
    match step
    case Grow(journal, _) =>
      PrefixKeepsFullClasses(s.journal, journal, s.gen.published);
    case Publish(w) =>
      var worker := s.At(w);
      assert WorkerOk(worker, s.gen, s.journal);
      CutoffAtCommit(s.gen, s.journal, worker.to, worker.cutoff);
      CommitKeepsFullClassesIff(s.gen, s.journal, worker.to, worker.cutoff);
      CommitPublishes(s.gen, ChunkOf(s.journal, worker), worker.to);
    case Begin(_) =>
    case Capture(_) =>
    case Align(_, _) =>
    case ReadDirty(_) =>
    case ReadPartners(_, _) =>
    case Refuse(_) =>
    case Skip(_) =>
    case Abort(_) =>
  }

  /** Over a whole run that starts fully classified: the stored classes equal the full rebuild's in every
      world up to `n` exactly when every commit so far was harmless. */
  lemma {:induction false} AlwaysFullClassesIff(worlds: seq<World>, steps: seq<Step>, n: nat)
    requires Run(worlds, steps) && Init(worlds[0]) && n < |worlds| && FullyClassified(worlds[0])
    requires forall s :: s in worlds ==> AfterZero(s.journal)
    ensures (forall i :: 0 <= i <= n ==> FullyClassified(worlds[i]))
            <==> forall i :: 0 <= i < n && steps[i].Publish? ==> HarmlessCommit(worlds[i], worlds[i].At(steps[i].w))
  {
    hide GenOk, FullyClassified, HarmlessCommit, Sound, Next, Inv, AfterZero;
    if n > 0 {
      var s, step := worlds[n - 1], steps[n - 1];
      assert s in worlds && Next(s, step, worlds[n - 1 + 1]);
      AlwaysFullClassesIff(worlds, steps, n - 1);
      RunKeepsInv(worlds, steps, n - 1);
      RunKeepsInv(worlds, steps, n);
      if FullyClassified(s) {
        StepFullClassesIff(s, step, worlds[n]);
      }
    }
  }

  lemma RunIsLong(worlds: seq<World>, steps: seq<Step>)
    requires Run(worlds, steps)
    ensures |worlds| == |steps| + 1
  {
  }

  // ---------------------------------------------------------------------------------------------
  // Published boundaries never split a frame
  // ---------------------------------------------------------------------------------------------

  lemma StepEvolves(s: World, step: Step, s': World)
    requires Next(s, step, s')
    ensures Cut.Evolves(s.journal, s.sessions, s'.journal, s'.sessions)
  {
    hide Prepare, Commit, CommitSucceeds, CutoffComputed, Cut.FrameAlignedCut;
    if !step.Grow? {
      Cut.NothingEvolves(s.journal, s.sessions);
    }
  }

  lemma {:induction false} RunEvolves(worlds: seq<World>, steps: seq<Step>, i: nat, n: nat)
    requires Run(worlds, steps) && i <= n < |worlds|
    ensures Cut.Evolves(worlds[i].journal, worlds[i].sessions, worlds[n].journal, worlds[n].sessions)
    decreases n
  {
    hide Cut.Evolves, Next;
    if i == n {
      Cut.NothingEvolves(worlds[i].journal, worlds[i].sessions);
    } else {
      RunEvolves(worlds, steps, i, n - 1);
      StepEvolves(worlds[n - 1], steps[n - 1], worlds[n - 1 + 1]);
      Cut.EvolvesFurther(worlds[i].journal, worlds[i].sessions, worlds[n - 1].journal, worlds[n - 1].sessions,
                         worlds[n].journal, worlds[n].sessions);
    }
  }

  /** The boundary and every range a worker holds are aligned in `later`. */
  ghost predicate CutsAligned(s: World, later: seq<Event>) {
    && Cut.Aligned(later, s.gen.published)
    && forall w :: w in s.workers ==>
         && (s.workers[w].Begun? || s.workers[w].Captured? ==> Cut.Aligned(later, s.workers[w].from))
         && (s.workers[w].Aligned? || s.workers[w].HasDirty? || s.workers[w].Prepared? ==>
             Cut.Aligned(later, s.workers[w].to))
  }

  lemma StepKeepsCuts(s: World, step: Step, s': World, later: seq<Event>)
    requires Inv(s) && Next(s, step, s') && CutsAligned(s, later)
    requires Cut.Grows(s.journal, s.sessions, later)
    ensures CutsAligned(s', later)
  {
    hide GenOk, Prepare, CommitSucceeds, CutoffComputed, Cut.FrameAlignedCut, Cut.Grows, Cut.Aligned, Cut.Evolves;
    match step
    case Align(w, maxEvents) =>
      assert WorkerOk(s.At(w), s.gen, s.journal);
      Cut.CutNeverSplitsFrame(s.journal, s.sessions, later, s.At(w).from, s.At(w).boundary, maxEvents);
    case Publish(w) =>
      CommitPublishes(s.gen, ChunkOf(s.journal, s.At(w)), s.At(w).to);
    case Grow(_, _) =>
    case Begin(_) =>
    case Capture(_) =>
    case ReadDirty(_) =>
    case ReadPartners(_, _) =>
    case Refuse(_) =>
    case Skip(_) =>
    case Abort(_) =>
  }

  lemma {:induction false} RunKeepsCuts(worlds: seq<World>, steps: seq<Step>, i: nat, n: nat)
    requires Run(worlds, steps) && Init(worlds[0]) && i <= n < |worlds|
    requires Cut.WellFormed(worlds[n].journal) && Cut.Aligned(worlds[n].journal, worlds[0].gen.published)
    ensures CutsAligned(worlds[i], worlds[n].journal)
  {
    hide GenOk, Sound, Next, Inv, Cut.WellFormed, Cut.Aligned, Cut.MayWrite;
    if i > 0 {
      RunKeepsCuts(worlds, steps, i - 1, n);
      RunKeepsInv(worlds, steps, i - 1);
      RunEvolves(worlds, steps, i - 1, n);
      assert Next(worlds[i - 1], steps[i - 1], worlds[i - 1 + 1]);
      StepKeepsCuts(worlds[i - 1], steps[i - 1], worlds[i], worlds[n].journal);
    }
  }

  /** The seed's boundary was reached by a chain of cuts, each probed in an earlier state of this store. */
  ghost predicate SeededByCuts(s: World, probes: seq<Cut.Probe>) {
    && Cut.CutAfter(probes) == s.gen.published
    && (forall p :: p in probes ==>
          p.boundary <= |p.journal| && Cut.Evolves(p.journal, p.sessions, s.journal, s.sessions))
    && (forall i :: 0 <= i < |probes| ==> Cut.CutAfter(probes[..i]) <= probes[i].boundary)
  }

  lemma SeedStaysAligned(worlds: seq<World>, steps: seq<Step>, probes: seq<Cut.Probe>, n: nat)
    requires Run(worlds, steps) && n < |worlds| && SeededByCuts(worlds[0], probes) && Cut.WellFormed(worlds[n].journal)
    ensures Cut.Aligned(worlds[n].journal, worlds[0].gen.published)
  {
    hide Run, Cut.WellFormed, Cut.Aligned, Cut.MayWrite, Cut.FrameAlignedCut;
    RunEvolves(worlds, steps, 0, n);
    forall p | p in probes ensures Cut.Grows(p.journal, p.sessions, worlds[n].journal) {
      Cut.EvolvesFurther(p.journal, p.sessions, worlds[0].journal, worlds[0].sessions, worlds[n].journal,
                         worlds[n].sessions);
    }
    Cut.CutChainNeverSplits(probes, worlds[n].journal);
  }

  /** A published boundary never splits a frame: the boundary published in any world of a run, however
      the workers interleave with the growing journal, is frame-aligned in every later world. */
  lemma PublishedNeverSplitsFrame(worlds: seq<World>, steps: seq<Step>, probes: seq<Cut.Probe>, i: nat, n: nat)
    requires Run(worlds, steps) && Init(worlds[0]) && SeededByCuts(worlds[0], probes)
    requires i <= n < |worlds| && Cut.WellFormed(worlds[n].journal)
    ensures Cut.Aligned(worlds[n].journal, worlds[i].gen.published)
  {
    hide Run, Init, SeededByCuts, Cut.WellFormed, Cut.Aligned;
    SeedStaysAligned(worlds, steps, probes, n);
    RunKeepsCuts(worlds, steps, i, n);
  }
}
