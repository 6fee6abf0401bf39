/** Memory of recently disappeared connections (engine.go, recordDisappearedTombstone and
    takeDisappearedTombstone): a lookup table plus a FIFO that bounds it. The source compares tombstone
    identities; a serial number stands for the identity. */
module Tombstones {
  import opened Types

  const MAX_TOMBSTONES := 4096

  datatype Stone<T> = Stone(value: T, serial: nat)

  datatype Graveyard<T> = Graveyard(stones: map<ConnId, Stone<T>>, fifo: seq<(ConnId, nat)>, next: nat) {
    function Lookup(id: ConnId): Option<T> {
      if id in stones then Some(stones[id].value) else None
    }

    /** The FIFO holds the latest serials, and every kept stone is still queued under its own serial. */
    ghost predicate Queued() {
      && |fifo| <= next
      && (forall i :: 0 <= i < |fifo| ==> fifo[i].1 == next - |fifo| + i)
      && (forall id :: id in stones ==> next - |fifo| <= stones[id].serial < next
                                        && fifo[stones[id].serial - (next - |fifo|)].0 == id)
    }

    ghost predicate Valid() {
      Queued() && |fifo| <= MAX_TOMBSTONES
    }
  }

  function EmptyGraveyard<T>(): Graveyard<T> {
    Graveyard(map[], [], 0)
  }

  /** Dropping the oldest queue entry removes a stone only if the entry is the stone's own. */
  function Evict<T>(g: Graveyard<T>): Graveyard<T>
    requires g.fifo != []
  {
    var oldest := g.fifo[0];
    Graveyard(if oldest.0 in g.stones && g.stones[oldest.0].serial == oldest.1 then g.stones - {oldest.0} else g.stones,
              g.fifo[1..], g.next)
  }

  function Trim<T>(g: Graveyard<T>): Graveyard<T>
    decreases |g.fifo|
  {
    if |g.fifo| > MAX_TOMBSTONES then Trim(Evict(g)) else g
  }

  function Bury<T>(g: Graveyard<T>, id: ConnId, value: T): Graveyard<T> {
    Trim(Push(g, id, value))
  }

  function Push<T>(g: Graveyard<T>, id: ConnId, value: T): Graveyard<T> {
    Graveyard(g.stones[id := Stone(value, g.next)], g.fifo + [(id, g.next)], g.next + 1)
  }

  function Take<T>(g: Graveyard<T>, id: ConnId): Graveyard<T> {
    g.(stones := g.stones - {id})
  }

  function Clear<T>(g: Graveyard<T>): Graveyard<T> {
    Graveyard(map[], [], g.next)
  }

  lemma PushStaysQueued<T>(g: Graveyard<T>, id: ConnId, value: T)
    requires g.Queued()
    ensures Push(g, id, value).Queued()
  {
    var g' := Push(g, id, value);
    forall x | x in g'.stones
      ensures g'.next - |g'.fifo| <= g'.stones[x].serial < g'.next
              && g'.fifo[g'.stones[x].serial - (g'.next - |g'.fifo|)].0 == x
    {
      if x != id {
        assert x in g.stones;
      }
    }
  }

  /** Eviction removes exactly the stone recorded longest ago, if it is still the current one. */
  lemma EvictEffect<T>(g: Graveyard<T>)
    requires g.Queued() && g.fifo != []
    ensures Evict(g).Queued()
    ensures forall x :: x in Evict(g).stones <==> x in g.stones && g.stones[x].serial != g.next - |g.fifo|
    ensures forall x :: x in Evict(g).stones ==> Evict(g).stones[x] == g.stones[x]
  {
    var g' := Evict(g);
    forall x ensures x in g'.stones <==> x in g.stones && g.stones[x].serial != g.next - |g.fifo| {
    }
    forall x | x in g'.stones
      ensures g'.next - |g'.fifo| <= g'.stones[x].serial < g'.next
              && g'.fifo[g'.stones[x].serial - (g'.next - |g'.fifo|)].0 == x
    {
      var i := g.stones[x].serial - (g.next - |g.fifo|);
      assert g'.fifo[i - 1] == g.fifo[i];
    }
  }

  lemma BuryEffect<T>(g: Graveyard<T>, id: ConnId, value: T)
    requires g.Valid()
    ensures Bury(g, id, value).Valid() && Bury(g, id, value).next == g.next + 1
    ensures id in Bury(g, id, value).stones && Bury(g, id, value).stones[id] == Stone(value, g.next)
    ensures forall x :: x != id ==> (x in Bury(g, id, value).stones
                                     <==> x in g.stones && g.next - g.stones[x].serial < MAX_TOMBSTONES)
    ensures forall x :: x != id && x in Bury(g, id, value).stones ==> Bury(g, id, value).stones[x] == g.stones[x]
  {
    hide Evict, Graveyard<T>.Queued;
    var g0 := Push(g, id, value);
    PushStaysQueued(g, id, value);
    if |g0.fifo| > MAX_TOMBSTONES {
      EvictEffect(g0);
      assert |Evict(g0).fifo| == MAX_TOMBSTONES && Evict(g0).next == g0.next by { EvictShape(g0); }
      assert Trim(g0) == Evict(g0);
    }
    StonesAreQueued(g);
  }

  lemma EvictShape<T>(g: Graveyard<T>)
    requires g.fifo != []
    ensures |Evict(g).fifo| == |g.fifo| - 1 && Evict(g).next == g.next
  {
  }

  lemma StonesAreQueued<T>(g: Graveyard<T>)
    requires g.Queued()
    ensures forall x :: x in g.stones ==> g.next - |g.fifo| <= g.stones[x].serial < g.next
  {
  }

  /** The bound: never more stones than queue entries, never more entries than the cap. */
  lemma SizeIsBounded<T>(g: Graveyard<T>)
    requires g.Valid()
    ensures |g.stones| <= MAX_TOMBSTONES
  {
    KeysWithinQueue(g.stones.Keys, g.fifo);
    assert |g.stones| == |g.stones.Keys|;
  }

  lemma {:induction false} KeysWithinQueue(keys: set<ConnId>, fifo: seq<(ConnId, nat)>)
    requires forall id :: id in keys ==> exists i :: 0 <= i < |fifo| && fifo[i].0 == id
    ensures |keys| <= |fifo|
  {
    if fifo != [] {
      var front, last := fifo[..|fifo| - 1], fifo[|fifo| - 1];
      forall id | id in keys - {last.0} ensures exists i :: 0 <= i < |front| && front[i].0 == id {
        var i :| 0 <= i < |fifo| && fifo[i].0 == id;
        assert front[i].0 == id;
      }
      KeysWithinQueue(keys - {last.0}, front);
      assert keys <= (keys - {last.0}) + {last.0};
      assert |keys| <= |keys - {last.0}| + 1;
    } else if id :| id in keys {
      assert false;
    }
  }

  // ---------------------------------------------------------------------------------------------
  // What survives a history
  // ---------------------------------------------------------------------------------------------

  datatype Op<T> = Buried(id: ConnId, value: T) | Taken(id: ConnId) | Cleared

  function Replay<T>(history: seq<Op<T>>): Graveyard<T> {
    if history == [] then EmptyGraveyard()
    else
      var g := Replay(history[..|history| - 1]);
      match history[|history| - 1]
      case Buried(id, value) => Bury(g, id, value)
      case Taken(id) => Take(g, id)
      case Cleared => Clear(g)
  }

  /** The latest disappearance of `id`, unless it was consumed, the epoch was reset, or the cap was
      reached by newer recordings. */
  function Surviving<T>(history: seq<Op<T>>, id: ConnId, newer: nat): Option<T> {
    if history == [] then None
    else
      var front := history[..|history| - 1];
      match history[|history| - 1]
      case Buried(x, value) =>
        if x != id then Surviving(front, id, newer + 1) else if newer < 4096 then Some(value) else None
      case Taken(x) => if x == id then None else Surviving(front, id, newer)
      case Cleared => None
  }

  lemma {:induction false} ReplaySurvivors<T>(history: seq<Op<T>>, id: ConnId, newer: nat)
    ensures Replay(history).Valid()
    ensures Surviving(history, id, newer)
            == if id in Replay(history).stones
                  && Replay(history).next - 1 - Replay(history).stones[id].serial + newer < 4096
               then Some(Replay(history).stones[id].value) else None
  {
    if history != [] {
      var front := history[..|history| - 1];
      match history[|history| - 1]
      case Buried(x, value) =>
        ReplaySurvivors(front, id, newer + 1);
        BuryEffect(Replay(front), x, value);
      case Taken(_) =>
        ReplaySurvivors(front, id, newer);
      case Cleared =>
        ReplaySurvivors(front, id, newer);
    }
  }

  /** After any history, looking an ID up finds exactly its latest unconsumed disappearance; it is lost
      only by replacement, reset, or 4096 newer recordings, and never through a stale queue entry. */
  lemma LookupIsLatest<T>(history: seq<Op<T>>, id: ConnId)
    ensures Replay(history).Lookup(id) == Surviving(history, id, 0)
    ensures |Replay(history).stones| <= 4096
  {
    ReplaySurvivors(history, id, 0);
    SizeIsBounded(Replay(history));
  }

  // ---------------------------------------------------------------------------------------------
  // The mutable store
  // ---------------------------------------------------------------------------------------------

  class TombstoneStore<T> {
    var stones: map<ConnId, Stone<T>>
    var fifo: seq<(ConnId, nat)>
    var next: nat

    function Abs(): Graveyard<T>
      reads this
    {
      Graveyard(stones, fifo, next)
    }

    constructor ()
      ensures Abs() == EmptyGraveyard()
    {
      stones, fifo, next := map[], [], 0;
    }

    method Reset()
      modifies this
      ensures Abs() == Clear(old(Abs()))
    {
      stones, fifo := map[], [];
    }

    method RecordDisappeared(id: ConnId, value: T)
      modifies this
      ensures Abs() == Bury(old(Abs()), id, value)
    {
      stones := stones[id := Stone(value, next)];
      fifo := fifo + [(id, next)];
      next := next + 1;
      while |fifo| > MAX_TOMBSTONES
        invariant Trim(Abs()) == Bury(old(Abs()), id, value)
        decreases |fifo|
      {
        var oldest := fifo[0];
        ghost var before := Abs();
        fifo := fifo[1..];
        if oldest.0 in stones && stones[oldest.0].serial == oldest.1 {
          stones := stones - {oldest.0};
        }
        assert Abs() == Evict(before);
      }
    }

    method TakeDisappeared(id: ConnId) returns (found: Option<T>)
      modifies this
      ensures Abs() == Take(old(Abs()), id) && found == old(Abs()).Lookup(id)
    {
      found := Abs().Lookup(id);
      stones := stones - {id};
    }
  }
}
