/** Proportional allocation of a row's bytes over time (allocator.go) and its split into hour
    buckets (accounting_classify.go, allocateAccountedRowBuckets). */
module Allocator {
  import opened Types

  /** The big.Int arithmetic of the source is exact, so it is modelled on unbounded integers. */
  datatype IntervalAllocator = IntervalAllocator(start: Time, end: Time, total: int) {
    /** Cumulative share up to an instant. */
    function F(t: Time): int {
      if t <= start then 0
      else if t >= end then total
      else if total <= 0 then 0
      else total * (t - start) / (end - start)
    }

    function Allocate(winStart: Time, winEnd: Time): int {
      if winEnd <= winStart then 0
      else Max(F(winEnd) - F(winStart), 0)
    }
  }

  /** `share` of `total` is to `part` of `whole` as exactly as whole bytes allow: less than one byte off. */
  predicate InProportion(share: int, total: int, part: int, whole: int) {
    -whole < share * whole - total * part < whole
  }

  lemma DivideMonotone(a: int, b: int, d: int)
    requires 0 <= a <= b && d > 0
    ensures 0 <= a / d <= b / d
  {
    var q, r := a / d, b / d;
    QuotientOrder(q, r, a - d * q, b - d * r, d);
  }

  lemma QuotientOrder(q: int, r: int, x: int, y: int, d: int)
    requires 0 <= x < d && 0 <= y < d && d * q + x <= d * r + y
    ensures q <= r
  {
    assert d * (r + 1) == d * r + d;
    if r + 1 <= q {
      MultiplyMonotone(d, r + 1, q);
    }
  }

  lemma MultiplyMonotone(t: int, x: int, y: int)
    requires t >= 0 && x <= y
    ensures t * x <= t * y
  {
  }

  lemma ShareInside(t: int, x: int, y: int, d: int)
    requires t >= 0 && d > 0 && 0 <= x <= y <= d
    ensures 0 <= t * x / d <= t * y / d <= t
  {
    MultiplyMonotone(t, 0, x);
    MultiplyMonotone(t, x, y);
    MultiplyMonotone(t, y, d);
    DivideMonotone(t * x, t * y, d);
    DivideMonotone(t * y, t * d, d);
    assert t * d / d == t;
  }

  /** The cumulative share is the proportional one, rounded down: less than one byte is held back. */
  lemma CumulativeIsProportional(a: IntervalAllocator, t: Time)
    requires a.total >= 0 && a.start < a.end && a.start <= t <= a.end
    ensures 0 <= a.total * (t - a.start) - a.F(t) * (a.end - a.start) < a.end - a.start
  {
    var n, d := a.total * (t - a.start), a.end - a.start;
    if t == a.start {
      assert n == 0;
    } else if t < a.end {
      if a.total == 0 {
        assert n == 0;
      } else {
        assert n == d * (n / d) + n % d;
      }
    }
  }

  /** What a window inside the interval gets is its proportional part, to less than one byte either way. */
  lemma AllocationIsProportional(a: IntervalAllocator, s: Time, e: Time)
    requires a.total >= 0 && a.start < a.end && a.start <= s <= e <= a.end
    ensures InProportion(a.Allocate(s, e), a.total, e - s, a.end - a.start)
  {
    CumulativeIsProportional(a, s);
    CumulativeIsProportional(a, e);
    CumulativeIsMonotone(a, s, e);
    var d, fs, fe := a.end - a.start, a.F(s), a.F(e);
    assert (fe - fs) * d == fe * d - fs * d;
    assert a.total * (e - s) == a.total * (e - a.start) - a.total * (s - a.start);
  }

  /** The cumulative share of a non-negative total never goes down and stays between 0 and the total. */
  lemma CumulativeIsMonotone(a: IntervalAllocator, s: Time, t: Time)
    requires a.total >= 0 && s <= t
    ensures 0 <= a.F(s) <= a.F(t) <= a.total
  {
    if a.start < s && t < a.end {
      ShareInside(a.total, s - a.start, t - a.start, a.end - a.start);
    } else if a.start < s < a.end {
      ShareInside(a.total, s - a.start, s - a.start, a.end - a.start);
    } else if a.start < t < a.end {
      ShareInside(a.total, t - a.start, t - a.start, a.end - a.start);
    }
  }

  /** Adjacent windows add up, whatever the split point: no byte is lost or counted twice. */
  lemma AllocateIsAdditive(a: IntervalAllocator, s: Time, c: Time, e: Time)
    requires a.total >= 0 && s <= c <= e
    ensures a.Allocate(s, c) + a.Allocate(c, e) == a.Allocate(s, e)
    ensures a.Allocate(s, e) == a.F(e) - a.F(s)
  {
    CumulativeIsMonotone(a, s, c);
    CumulativeIsMonotone(a, c, e);
  }

  /** Parts of a window outside the interval contribute nothing. */
  lemma AllocateIgnoresOutside(a: IntervalAllocator, s: Time, e: Time)
    requires a.total >= 0 && a.start < a.end
    ensures a.Allocate(s, e) == a.Allocate(Max(s, a.start), Min(e, a.end))
    ensures s <= a.start && e >= a.end ==> a.Allocate(s, e) == a.total
  {
    if s < e {
      CumulativeIsMonotone(a, s, e);
    }
  }

  /** Negative totals are clamped away in every window: a correction that takes bytes back from an
      interval row allocates nothing anywhere. */
  lemma NegativeTotalAllocatesNothing(a: IntervalAllocator, s: Time, e: Time)
    requires a.total <= 0
    ensures a.Allocate(s, e) == 0
  {
  }

  // ---------------------------------------------------------------------------------------------
  // Hour buckets
  // ---------------------------------------------------------------------------------------------

  function Bucket(t: Time): Time {
    t - t % HOUR
  }

  predicate HourAligned(t: Time) {
    t % HOUR == 0
  }

  lemma BucketBounds(t: Time)
    ensures HourAligned(Bucket(t)) && Bucket(t) <= t < Bucket(t) + HOUR
  {
    assert t == HOUR * (t / HOUR) + t % HOUR;
    assert Bucket(t) == HOUR * (t / HOUR);
  }

  /** An aligned instant never separates an instant from its bucket. */
  lemma BucketRespectsAlignment(t: Time, w: Time)
    requires HourAligned(w)
    ensures w <= t <==> w <= Bucket(t)
    ensures t < w <==> Bucket(t) + HOUR <= w
  {
    BucketBounds(t);
    assert w == HOUR * (w / HOUR) && Bucket(t) == HOUR * (t / HOUR);
    if w <= t {
      DivideFloor(w, t);
      MultiplyMonotone(HOUR, w / HOUR, t / HOUR);
    } else {
      assert HOUR * (t / HOUR) < HOUR * (w / HOUR);
      assert t / HOUR + 1 <= w / HOUR;
      MultiplyMonotone(HOUR, t / HOUR + 1, w / HOUR);
    }
  }

  lemma DivideFloor(w: int, t: int)
    requires w <= t
    ensures w / HOUR <= t / HOUR
  {
    assert w == HOUR * (w / HOUR) + w % HOUR && t == HOUR * (t / HOUR) + t % HOUR;
  }

  datatype Allocation = Allocation(bucket: Time, bytes: Bytes, exact: bool)

  function BucketEnd(curr: Time, end: Time): Time
    ensures curr < end ==> curr < BucketEnd(curr, end) <= end
  {
    BucketBounds(curr);
    Min(Bucket(curr) + HOUR, end)
  }

  /** The share of the bucket that `curr` falls into. */
  function ShareAt(iv: Interval, bytes: Bytes, curr: Time): Allocation {
    Allocation(Bucket(curr),
               Bytes(IntervalAllocator(iv.start, iv.end, bytes.up).Allocate(curr, BucketEnd(curr, iv.end)),
                     IntervalAllocator(iv.start, iv.end, bytes.down).Allocate(curr, BucketEnd(curr, iv.end))),
               false)
  }

  /** The hourly shares from `curr` to the end of the interval. */
  function SharesFrom(iv: Interval, bytes: Bytes, curr: Time): seq<Allocation>
    decreases iv.end - curr
  {
    if curr >= iv.end then []
    else [ShareAt(iv, bytes, curr)] + SharesFrom(iv, bytes, BucketEnd(curr, iv.end))
  }

  /** Exact rows and rows without a usable interval land in the observation bucket. */
  function Allocations(at: Time, interval: Option<Interval>, exact: bool, bytes: Bytes): seq<Allocation> {
    if exact || interval.None? then [Allocation(Bucket(at), bytes, true)]
    else if interval.value.end <= interval.value.start then [Allocation(Bucket(at), bytes, false)]
    else SharesFrom(interval.value, bytes, interval.value.start)
  }

  // ---------------------------------------------------------------------------------------------
  // Shares are proportional
  // ---------------------------------------------------------------------------------------------

  /** How long an hour meets the interval. */
  function Overlap(bucket: Time, iv: Interval): int {
    Min(bucket + HOUR, iv.end) - Max(bucket, iv.start)
  }

  /** One share per hour the interval meets, each with its hour's part of both totals to less than a byte. */
  ghost predicate SpreadOver(allocations: seq<Allocation>, iv: Interval, bytes: Bytes) {
    && (forall i, j :: 0 <= i < j < |allocations| ==> allocations[i].bucket < allocations[j].bucket)
    && (forall b :: HourAligned(b) && Overlap(b, iv) > 0 ==> exists a :: a in allocations && a.bucket == b)
    && forall a :: a in allocations ==> FairShare(a, iv, bytes)
  }

  predicate FairShare(a: Allocation, iv: Interval, bytes: Bytes) {
    && HourAligned(a.bucket) && Overlap(a.bucket, iv) > 0 && !a.exact
    && InProportion(a.bytes.up, bytes.up, Overlap(a.bucket, iv), iv.end - iv.start)
    && InProportion(a.bytes.down, bytes.down, Overlap(a.bucket, iv), iv.end - iv.start)
  }

  /** `curr` stands where the walk over the interval stands: at its start, or at an hour boundary. */
  predicate OnWalk(iv: Interval, curr: Time) {
    iv.start <= curr && (curr == iv.start || HourAligned(curr) || curr >= iv.end)
  }

  lemma SameHour(b: Time, t: Time)
    requires HourAligned(b) && b <= t < b + HOUR
    ensures b == Bucket(t)
  {
    BucketRespectsAlignment(t, b);
    assert HourAligned(b + HOUR);
    BucketRespectsAlignment(t, b + HOUR);
  }

  lemma ShareIsFair(iv: Interval, bytes: Bytes, curr: Time)
    requires bytes.up >= 0 && bytes.down >= 0 && OnWalk(iv, curr) && curr < iv.end
    ensures FairShare(ShareAt(iv, bytes, curr), iv, bytes)
    ensures OnWalk(iv, BucketEnd(curr, iv.end))
    ensures Max(Bucket(curr), iv.start) == curr
  {
    hide IntervalAllocator.Allocate, InProportion;
    BucketBounds(curr);
    if HourAligned(curr) {
      SameHour(curr, curr);
    }
    assert HourAligned(Bucket(curr) + HOUR);
    var next := BucketEnd(curr, iv.end);
    AllocationIsProportional(IntervalAllocator(iv.start, iv.end, bytes.up), curr, next);
    AllocationIsProportional(IntervalAllocator(iv.start, iv.end, bytes.down), curr, next);
  }

  lemma {:induction false} SharesAreFair(iv: Interval, bytes: Bytes, curr: Time)
    requires bytes.up >= 0 && bytes.down >= 0 && OnWalk(iv, curr)
    ensures forall a :: a in SharesFrom(iv, bytes, curr) ==> FairShare(a, iv, bytes)
    ensures forall b :: HourAligned(b) && Overlap(b, iv) > 0 && Max(b, iv.start) >= curr ==>
                          exists a :: a in SharesFrom(iv, bytes, curr) && a.bucket == b
    decreases iv.end - curr
  {
    hide FairShare;
    if curr < iv.end {
      var next := BucketEnd(curr, iv.end);
      ShareIsFair(iv, bytes, curr);
      SharesAreFair(iv, bytes, next);
      BucketBounds(curr);
      var rest := SharesFrom(iv, bytes, next);
      assert SharesFrom(iv, bytes, curr) == [ShareAt(iv, bytes, curr)] + rest;
      forall b | HourAligned(b) && Overlap(b, iv) > 0 && Max(b, iv.start) >= curr
        ensures exists a :: a in SharesFrom(iv, bytes, curr) && a.bucket == b
      {
        if Max(b, iv.start) >= next {
          var a :| a in rest && a.bucket == b;
        } else {
          BucketRespectsAlignment(curr, b);
          SameHour(b, curr);
          assert ShareAt(iv, bytes, curr) in SharesFrom(iv, bytes, curr);
        }
      }
    }
  }

  /** A row with a non-empty interval is spread over exactly the hours it meets, proportionally. */
  lemma SpreadIsProportional(at: Time, iv: Interval, bytes: Bytes)
    requires bytes.up >= 0 && bytes.down >= 0 && iv.start < iv.end
    ensures SpreadOver(Allocations(at, Some(iv), false, bytes), iv, bytes)
  {
    hide FairShare;
    SharesAreFair(iv, bytes, iv.start);
    SharesHaveDistinctBuckets(iv, bytes, iv.start);
  }

  method AllocateAccountedRowBuckets(at: Time, interval: Option<Interval>, exact: bool, bytes: Bytes)
    returns (allocations: seq<Allocation>)
    ensures allocations == Allocations(at, interval, exact, bytes)
    ensures !exact && interval.Some? && interval.value.start < interval.value.end && bytes.up >= 0 && bytes.down >= 0
            ==> SpreadOver(allocations, interval.value, bytes)
    ensures exact || interval.None? ==> allocations == [Allocation(Bucket(at), bytes, true)]
  {
    hide SpreadOver;
    if exact || interval.None? {
      return [Allocation(Bucket(at), bytes, true)];
    }
    var iv := interval.value;
    if iv.end <= iv.start {
      return [Allocation(Bucket(at), bytes, false)];
    }
    var allocUp := IntervalAllocator(iv.start, iv.end, bytes.up);
    var allocDown := IntervalAllocator(iv.start, iv.end, bytes.down);
    allocations := [];
    var curr := iv.start;
    while curr < iv.end
      invariant curr <= iv.end
      invariant allocations + SharesFrom(iv, bytes, curr) == SharesFrom(iv, bytes, iv.start)
    {
      var bucket := Bucket(curr);
      var bucketEnd := bucket + HOUR;
      if bucketEnd > iv.end {
        bucketEnd := iv.end;
      }
      ghost var next := SharesFrom(iv, bytes, bucketEnd);
      assert bucketEnd == BucketEnd(curr, iv.end);
      var share := Allocation(bucket, Bytes(allocUp.Allocate(curr, bucketEnd), allocDown.Allocate(curr, bucketEnd)),
                              false);
      assert SharesFrom(iv, bytes, curr) == [share] + next;
      assert allocations + ([share] + next) == (allocations + [share]) + next;
      allocations := allocations + [share];
      curr := bucketEnd;
    }
    if bytes.up >= 0 && bytes.down >= 0 {
      SpreadIsProportional(at, iv, bytes);
    }
  }

  // ---------------------------------------------------------------------------------------------
  // Bucket sums are window totals
  // ---------------------------------------------------------------------------------------------

  /** What the hourly reader adds up for a window: the buckets starting inside it. */
  function WindowSum(allocations: seq<Allocation>, from: Time, to: Time): Bytes {
    if allocations == [] then NO_BYTES
    else
      var rest := WindowSum(allocations[1..], from, to);
      if from <= allocations[0].bucket < to
      then Bytes(allocations[0].bytes.up + rest.up, allocations[0].bytes.down + rest.down)
      else rest
  }

  /** What the direct scan computes for one row: an exact row counts when observed inside the window,
      an interval row by the allocator on the clipped window. */
  function DirectShare(at: Time, interval: Option<Interval>, exact: bool, bytes: Bytes, from: Time, to: Time): Bytes {
    if exact || interval.None? then
      if from <= at < to then bytes else NO_BYTES
    else
      var wStart := Max(interval.value.start, from);
      var wEnd := Min(interval.value.end, to);
      if wEnd <= wStart then NO_BYTES
      else
        Bytes(IntervalAllocator(interval.value.start, interval.value.end, bytes.up).Allocate(wStart, wEnd),
              IntervalAllocator(interval.value.start, interval.value.end, bytes.down).Allocate(wStart, wEnd))
  }

  /** The direct scan gives every window, aligned or not, its proportional part of a spread row. */
  lemma DirectShareIsProportional(at: Time, iv: Interval, bytes: Bytes, from: Time, to: Time)
    requires bytes.up >= 0 && bytes.down >= 0 && iv.start < iv.end
    ensures var part := Max(Min(iv.end, to) - Max(iv.start, from), 0);
            var share := DirectShare(at, Some(iv), false, bytes, from, to);
            && InProportion(share.up, bytes.up, part, iv.end - iv.start)
            && InProportion(share.down, bytes.down, part, iv.end - iv.start)
  {
    hide IntervalAllocator.Allocate;
    var s, e := Max(iv.start, from), Min(iv.end, to);
    if s < e {
      AllocationIsProportional(IntervalAllocator(iv.start, iv.end, bytes.up), s, e);
      AllocationIsProportional(IntervalAllocator(iv.start, iv.end, bytes.down), s, e);
    }
  }

  function ClippedFrom(iv: Interval, total: int, curr: Time, from: Time, to: Time): int {
    IntervalAllocator(iv.start, iv.end, total).Allocate(Max(curr, from), Min(iv.end, to))
  }

  /** One bucket is wholly inside or wholly outside an hour-aligned window. */
  lemma BucketInOrOut(iv: Interval, total: int, curr: Time, from: Time, to: Time)
    requires total >= 0 && iv.start <= curr < iv.end && HourAligned(from) && HourAligned(to)
    ensures ClippedFrom(iv, total, curr, from, to)
            == (if from <= Bucket(curr) < to
                then IntervalAllocator(iv.start, iv.end, total).Allocate(curr, BucketEnd(curr, iv.end)) else 0)
               + ClippedFrom(iv, total, BucketEnd(curr, iv.end), from, to)
  {
    var a := IntervalAllocator(iv.start, iv.end, total);
    var next := BucketEnd(curr, iv.end);
    BucketRespectsAlignment(curr, from);
    BucketRespectsAlignment(curr, to);
    if from <= curr < to {
      AllocateIsAdditive(a, curr, next, Min(iv.end, to));
    }
  }

  lemma {:induction false} SharesFillWindow(iv: Interval, bytes: Bytes, curr: Time, from: Time, to: Time)
    requires bytes.up >= 0 && bytes.down >= 0 && iv.start <= curr && HourAligned(from) && HourAligned(to)
    ensures WindowSum(SharesFrom(iv, bytes, curr), from, to)
            == Bytes(ClippedFrom(iv, bytes.up, curr, from, to), ClippedFrom(iv, bytes.down, curr, from, to))
    decreases iv.end - curr
  {
    if curr < iv.end {
      var next := BucketEnd(curr, iv.end);
      SharesFillWindow(iv, bytes, next, from, to);
      BucketInOrOut(iv, bytes.up, curr, from, to);
      BucketInOrOut(iv, bytes.down, curr, from, to);
      assert SharesFrom(iv, bytes, curr)[1..] == SharesFrom(iv, bytes, next);
    }
  }

  predicate EmptyInterval(interval: Option<Interval>, exact: bool) {
    !exact && interval.Some? && interval.value.end <= interval.value.start
  }

  /** For every hour-aligned window the hour buckets of a row add up to exactly what the direct scan
      attributes to the window, unless the row has an empty interval. */
  lemma BucketsAgreeWithDirectScan(at: Time, interval: Option<Interval>, exact: bool, bytes: Bytes, from: Time,
                                   to: Time)
    requires bytes.up >= 0 && bytes.down >= 0 && HourAligned(from) && HourAligned(to)
    requires !EmptyInterval(interval, exact)
    ensures WindowSum(Allocations(at, interval, exact, bytes), from, to)
              == DirectShare(at, interval, exact, bytes, from, to)
  {
    if exact || interval.None? {
      BucketRespectsAlignment(at, from);
      BucketRespectsAlignment(at, to);
      BucketBounds(at);
      assert WindowSum([Allocation(Bucket(at), bytes, true)][1..], from, to) == NO_BYTES;
    } else {
      SharesFillWindow(interval.value, bytes, interval.value.start, from, to);
    }
  }

  /** A row with an empty interval is seen by the index, in the hour of its observation, and never by
      the scan. */
  lemma EmptyIntervalOnlyInIndex(at: Time, interval: Option<Interval>, exact: bool, bytes: Bytes, from: Time, to: Time)
    requires HourAligned(from) && HourAligned(to) && EmptyInterval(interval, exact)
    ensures WindowSum(Allocations(at, interval, exact, bytes), from, to) == if from <= at < to then bytes else NO_BYTES
    ensures DirectShare(at, interval, exact, bytes, from, to) == NO_BYTES
  {
    BucketRespectsAlignment(at, from);
    BucketRespectsAlignment(at, to);
    BucketBounds(at);
    assert WindowSum([Allocation(Bucket(at), bytes, false)][1..], from, to) == NO_BYTES;
  }

  /** Over a window that covers the row, its buckets carry exactly its bytes. */
  lemma BucketsConserveBytes(at: Time, interval: Option<Interval>, exact: bool, bytes: Bytes, from: Time, to: Time)
    requires bytes.up >= 0 && bytes.down >= 0 && HourAligned(from) && HourAligned(to)
    requires from <= at < to && (interval.Some? ==> from <= interval.value.start && interval.value.end <= to)
    ensures WindowSum(Allocations(at, interval, exact, bytes), from, to) == bytes
  {
    BucketRespectsAlignment(at, from);
    BucketRespectsAlignment(at, to);
    BucketBounds(at);
    assert WindowSum([Allocation(Bucket(at), bytes, exact || interval.None?)][1..], from, to) == NO_BYTES;
    if !exact && interval.Some? && interval.value.start < interval.value.end {
      BucketsAgreeWithDirectScan(at, interval, exact, bytes, from, to);
    }
  }

  lemma {:induction false} ShareBucketsAreHours(iv: Interval, bytes: Bytes, curr: Time)
    ensures forall a :: a in SharesFrom(iv, bytes, curr) ==> HourAligned(a.bucket)
    decreases iv.end - curr
  {
    if curr < iv.end {
      BucketBounds(curr);
      ShareBucketsAreHours(iv, bytes, BucketEnd(curr, iv.end));
    }
  }

  /** Each share lies in its own bucket: bucket starts strictly increase. */
  lemma {:induction false} SharesHaveDistinctBuckets(iv: Interval, bytes: Bytes, curr: Time)
    ensures forall i, j :: 0 <= i < j < |SharesFrom(iv, bytes, curr)| ==>
                             SharesFrom(iv, bytes, curr)[i].bucket < SharesFrom(iv, bytes, curr)[j].bucket
    ensures forall a :: a in SharesFrom(iv, bytes, curr) ==> a.bucket >= Bucket(curr)
    decreases iv.end - curr
  {
    if curr < iv.end {
      var next := BucketEnd(curr, iv.end);
      SharesHaveDistinctBuckets(iv, bytes, next);
      BucketBounds(curr);
      if next < iv.end {
        assert next == Bucket(curr) + HOUR;
        BucketRespectsAlignment(next, next);
        assert Bucket(next) > Bucket(curr);
      }
    }
  }
}
