/**
periodic_recalc of ev.c in exact arithmetic.
*/
module PeriodicRecalc {
  const MIN_INTERVAL: real := 1.0 / 8192.0

  function Floor(x: real): (f: real)
    ensures f <= x < f + 1.0
  {
    x.Floor as real
  }

  function Clamped(interval: real): real {
    if interval > MIN_INTERVAL then interval else MIN_INTERVAL
  }

  /** Where the search for the next occurrence starts. */
  function Start(offset: real, interval: real, now: real): real {
    offset + Clamped(interval) * Floor((now - offset) / Clamped(interval))
  }

  /** x is `origin` plus a whole number of intervals. */
  ghost predicate OnGrid(x: real, origin: real, interval: real) {
    exists k: int :: x == GridPoint(origin, interval, k)
  }

  function GridPoint(origin: real, interval: real, k: int): real {
    origin + (k as real) * interval
  }

  /** The next occurrence: the first of the steps of one interval from the start that is after now. */
  function Occurrence(offset: real, interval: real, now: real): real
    requires interval > 0.0
  {
    var start := Start(offset, interval, now);
    GridPoint(start, interval, ((now - start) / interval).Floor + 1)
  }

  lemma QuotientBound(a: real, b: real, q: real)
    requires b > 0.0
    ensures q <= a / b ==> q * b <= a
    ensures q > a / b ==> q * b > a
    ensures q < a / b ==> q * b < a
    ensures q >= a / b ==> q * b >= a
  {
    var r := a / b;
    assert r * b == a;
    MulMono(q, r, b);
    MulMono(r, q, b);
  }

  lemma MulMono(x: real, y: real, b: real)
    requires b > 0.0
    ensures x <= y ==> x * b <= y * b
    ensures x < y ==> x * b < y * b
  {
    if x < y {
      assert (y - x) * b > 0.0;
    }
  }

  /** The start is never after now. */
  lemma StartIsPast(offset: real, interval: real, now: real)
    ensures Start(offset, interval, now) <= now < Start(offset, interval, now) + Clamped(interval)
  {
    var i := Clamped(interval);
    var f := Floor((now - offset) / i);
    QuotientBound(now - offset, i, f);
    QuotientBound(now - offset, i, f + 1.0);
    assert (f + 1.0) * i == f * i + i;
  }

  /** The next occurrence is after now, by at most one interval. */
  lemma OccurrenceIsNext(offset: real, interval: real, now: real)
    requires interval > 0.0
    ensures now < Occurrence(offset, interval, now) <= now + interval
  {
    var start := Start(offset, interval, now);
    var j := ((now - start) / interval).Floor;
    QuotientBound(now - start, interval, j as real);
    QuotientBound(now - start, interval, (j + 1) as real);
    assert (j + 1) as real * interval == j as real * interval + interval;
  }

  /** One step decides: k steps reach at most now, k + 1 steps are past it. */
  lemma StepsToOccurrence(offset: real, interval: real, now: real, k: int)
    requires interval > 0.0
    requires var start := Start(offset, interval, now);
      GridPoint(start, interval, k) <= now < GridPoint(start, interval, k + 1)
    ensures GridPoint(Start(offset, interval, now), interval, k + 1) == Occurrence(offset, interval, now)
  {
    var start := Start(offset, interval, now);
    var x := (now - start) / interval;
    QuotientBound(now - start, interval, k as real);
    QuotientBound(now - start, interval, (k + 1) as real);
    assert k as real <= x < (k + 1) as real;
    assert x.Floor == k;
  }

  /** The loop of periodic_recalc.  In exact arithmetic a step always moves, so the code's escape for
      a step that does not is never taken. */
  method Recalc(offset: real, interval: real, now: real) returns (at: real)
    requires interval > 0.0
    ensures at == Occurrence(offset, interval, now)
  {
    StartIsPast(offset, interval, now);
    ghost var start := Start(offset, interval, now);
    ghost var k := 0;
    ghost var last := ((now - start) / interval).Floor + 1;
    at := Start(offset, interval, now);
    assert at == GridPoint(start, interval, 0);
    while at <= now
      invariant at == GridPoint(start, interval, k)
      invariant k > 0 ==> GridPoint(start, interval, k - 1) <= now
      invariant k >= 0 && (at <= now ==> k < last)
      decreases last - k
    {
      var nat' := at + interval;
      assert nat' == GridPoint(start, interval, k + 1);
      at := nat';
      k := k + 1;
      QuotientBound(now - start, interval, k as real);
    }
    StepsToOccurrence(offset, interval, now, k - 1);
  }

  // ---------- The least point of the grid ----------

  ghost predicate LeastAfter(x: real, offset: real, interval: real, now: real) {
    && OnGrid(x, offset, interval) && now < x
    && forall k: int :: now < GridPoint(offset, interval, k) ==> x <= GridPoint(offset, interval, k)
  }

  /** On the grid, lying in (now, now + interval] is being the least point after now. */
  lemma GridGap(offset: real, interval: real, now: real, k: int)
    requires interval > 0.0 && now < GridPoint(offset, interval, k) <= now + interval
    ensures LeastAfter(GridPoint(offset, interval, k), offset, interval, now)
  {
    forall m: int | now < GridPoint(offset, interval, m)
      ensures GridPoint(offset, interval, k) <= GridPoint(offset, interval, m)
    {
      GridOrder(offset, interval, now, k, m);
    }
  }

  lemma GridOrder(offset: real, interval: real, now: real, k: int, m: int)
    requires interval > 0.0 && GridPoint(offset, interval, k) <= now + interval && now < GridPoint(offset, interval, m)
    ensures GridPoint(offset, interval, k) <= GridPoint(offset, interval, m)
  {
    var x, y := k as real, m as real;
    assert GridPoint(offset, interval, m) == offset + y * interval;
    assert GridPoint(offset, interval, k) == offset + x * interval;
    hide GridPoint;
    assert (x - 1.0) * interval == x * interval - interval;
    if m < k {
      MulMono(y, x - 1.0, interval);
    } else {
      MulMono(x, y, interval);
    }
  }

  /** periodic_recalc finds the least offset + k * interval after now if and only if its starting
      point is on that grid. */
  lemma OccurrenceIsLeastIff(offset: real, interval: real, now: real)
    requires interval > 0.0
    ensures LeastAfter(Occurrence(offset, interval, now), offset, interval, now) <==>
      OnGrid(Start(offset, interval, now), offset, interval)
  {
    var start, at := Start(offset, interval, now), Occurrence(offset, interval, now);
    var j := ((now - start) / interval).Floor + 1;
    OccurrenceIsNext(offset, interval, now);
    assert at == GridPoint(start, interval, j);
    hide Start, Occurrence, GridPoint;
    if OnGrid(start, offset, interval) {
      var k: int :| start == GridPoint(offset, interval, k);
      GridSteps(offset, interval, k, j);
      GridGap(offset, interval, now, k + j);
    }
    if OnGrid(at, offset, interval) {
      var k: int :| at == GridPoint(offset, interval, k);
      GridSteps(offset, interval, k, -j);
      GridSteps(start, interval, j, -j);
      assert start == GridPoint(offset, interval, k - j);
    }
  }

  lemma GridSteps(origin: real, interval: real, k: int, j: int)
    ensures GridPoint(GridPoint(origin, interval, k), interval, j) == GridPoint(origin, interval, k + j)
    ensures GridPoint(origin, interval, 0) == origin
  {
    assert (k + j) as real * interval == k as real * interval + j as real * interval;
  }

  /** From MIN_INTERVAL on it always is. */
  lemma OccurrenceIsLeast(offset: real, interval: real, now: real)
    requires interval >= MIN_INTERVAL
    ensures LeastAfter(Occurrence(offset, interval, now), offset, interval, now)
  {
    var k := ((now - offset) / interval).Floor;
    assert Start(offset, interval, now) == GridPoint(offset, interval, k);
    OccurrenceIsLeastIff(offset, interval, now);
  }

  /** Below it need not be: two thirds of MIN_INTERVAL, one MIN_INTERVAL after the offset. */
  lemma ShortIntervalMissesGrid()
    ensures var i := MIN_INTERVAL * 2.0 / 3.0;
      !LeastAfter(Occurrence(0.0, i, MIN_INTERVAL), 0.0, i, MIN_INTERVAL)
  {
    var i := MIN_INTERVAL * 2.0 / 3.0;
    assert (MIN_INTERVAL / MIN_INTERVAL).Floor == 1;
    assert Start(0.0, i, MIN_INTERVAL) == MIN_INTERVAL;
    forall k: int
      ensures MIN_INTERVAL != GridPoint(0.0, i, k)
    {
      assert MIN_INTERVAL == k as real * i ==> 3.0 == 2.0 * (k as real);
    }
    OccurrenceIsLeastIff(0.0, i, MIN_INTERVAL);
  }
}
