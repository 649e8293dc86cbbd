/** Aggregates of metric rows over time ranges, and the algebra the rollups rest on. */
module Totals {

  /** The primary key of every table: one row per metric and time (ms). */
  datatype Key = Key(metric: nat, ts: int)

  /** A rollup row; a raw sample is a row that stands for one sample. */
  datatype Row = Row(avg: real, min: real, max: real, count: nat)

  type Table = map<Key, Row>

  /** What a set of samples adds up to. */
  datatype Part = Empty | Part(sum: real, min: real, max: real, count: nat)

  function Min(a: real, b: real): real { if a <= b then a else b }

  function Max(a: real, b: real): real { if a >= b then a else b }

  function Plus(a: Part, b: Part): Part {
    if a.Empty? then b else if b.Empty? then a
    else Part(a.sum + b.sum, Min(a.min, b.min), Max(a.max, b.max), a.count + b.count)
  }

  function PartOf(r: Row): Part {
    Part(r.avg * r.count as real, r.min, r.max, r.count)
  }

  /** The row that stands for a part: SUM / COUNT, MIN, MAX, COUNT. */
  function RowOf(p: Part): Row {
    if p.Part? && p.count > 0 then Row(p.sum / p.count as real, p.min, p.max, p.count) else Row(0.0, 0.0, 0.0, 0)
  }

  function Cell(t: Table, metric: nat, ts: int): Part {
    if Key(metric, ts) in t then PartOf(t[Key(metric, ts)]) else Empty
  }

  /** SUM(avg * count), MIN(min), MAX(max), SUM(count) over one metric's rows in [from, to). */
  function Total(t: Table, metric: nat, from: int, to: int): (p: Part)
    decreases to - from
  {
    if to <= from then Empty else Plus(Total(t, metric, from, to - 1), Cell(t, metric, to - 1))
  }

  /** Every row stands for at least one sample. */
  ghost predicate Real(t: Table) {
    forall k :: k in t ==> t[k].count > 0
  }

  // ---- algebra -----------------------------------------------------------------------------

  lemma PlusAssociates(a: Part, b: Part, c: Part)
    ensures Plus(Plus(a, b), c) == Plus(a, Plus(b, c))
  {
  }

  lemma PlusCommutes(a: Part, b: Part)
    ensures Plus(a, b) == Plus(b, a)
  {
  }

  /** Averaging loses nothing: a row's mean times its count is the sum it was made from. */
  lemma RowRoundTrip(p: Part)
    requires p.Part? && p.count > 0
    ensures PartOf(RowOf(p)) == p
  {
    var n := p.count as real;
    assert p.sum / n * n == p.sum;
  }

  lemma {:induction false} TotalSplits(t: Table, metric: nat, a: int, b: int, c: int)
    requires a <= b <= c
    ensures Total(t, metric, a, c) == Plus(Total(t, metric, a, b), Total(t, metric, b, c))
    decreases c - b
  {
    if b < c {
      TotalSplits(t, metric, a, b, c - 1);
      PlusAssociates(Total(t, metric, a, b), Total(t, metric, b, c - 1), Cell(t, metric, c - 1));
    }
  }

  lemma {:induction false} TotalSame(t: Table, u: Table, metric: nat, a: int, b: int)
    requires forall ts :: a <= ts < b ==> Cell(t, metric, ts) == Cell(u, metric, ts)
    ensures Total(t, metric, a, b) == Total(u, metric, a, b)
    decreases b - a
  {
    if a < b { TotalSame(t, u, metric, a, b - 1); }
  }

  lemma {:induction false} TotalEmpty(t: Table, metric: nat, a: int, b: int)
    requires forall ts :: a <= ts < b ==> Key(metric, ts) !in t
    ensures Total(t, metric, a, b) == Empty
    decreases b - a
  {
    if a < b { TotalEmpty(t, metric, a, b - 1); }
  }

  lemma {:induction false} TotalCounts(t: Table, metric: nat, a: int, b: int)
    requires Real(t)
    ensures Total(t, metric, a, b).Part? ==> Total(t, metric, a, b).count > 0
    decreases b - a
  {
    if a < b { TotalCounts(t, metric, a, b - 1); }
  }

  /** A range holds a row exactly when its total is not empty. */
  lemma {:induction false} TotalFinds(t: Table, metric: nat, a: int, b: int, ts: int)
    requires a <= ts < b && Key(metric, ts) in t
    ensures Total(t, metric, a, b) != Empty
    decreases b - a
  {
    if ts < b - 1 { TotalFinds(t, metric, a, b - 1, ts); }
  }

  lemma {:induction false} TotalFound(t: Table, metric: nat, a: int, b: int) returns (ts: int)
    requires Total(t, metric, a, b) != Empty
    ensures a <= ts < b && Key(metric, ts) in t
    decreases b - a
  {
    if Key(metric, b - 1) in t { ts := b - 1; } else { ts := TotalFound(t, metric, a, b - 1); }
  }

  /** One row added to, the range's total grows by as much. */
  lemma {:induction false} TotalGrows(t: Table, u: Table, metric: nat, at: int, more: Part, a: int, b: int)
    requires a <= at < b
    requires forall ts :: ts != at ==> Cell(t, metric, ts) == Cell(u, metric, ts)
    requires Cell(u, metric, at) == Plus(Cell(t, metric, at), more)
    ensures Total(u, metric, a, b) == Plus(Total(t, metric, a, b), more)
    decreases b - a
  {
    if at == b - 1 {
      TotalSame(t, u, metric, a, b - 1);
      PlusAssociates(Total(t, metric, a, b - 1), Cell(t, metric, at), more);
    } else {
      TotalGrows(t, u, metric, at, more, a, b - 1);
      var (x, y) := (Total(t, metric, a, b - 1), Cell(t, metric, b - 1));
      PlusAssociates(x, more, y);
      PlusCommutes(more, y);
      PlusAssociates(x, y, more);
    }
  }

  // ---- buckets -----------------------------------------------------------------------------

  /** How time is cut into buckets: the start of the bucket of a time, and of the bucket after it. */
  datatype Grid = Grid(start: int -> int, next: int -> int)

  ghost predicate ValidGrid(g: Grid) {
    && (forall t {:trigger g.start(t)} :: g.start(t) <= t < g.next(g.start(t)))
    && (forall t, u {:trigger g.start(t), g.start(u)} ::
          g.start(t) <= u < g.next(g.start(t)) ==> g.start(u) == g.start(t))
  }

  /** `t` is where a bucket starts. */
  predicate Aligned(g: Grid, t: int) {
    g.start(t) == t
  }

  /** One bucket's samples. */
  function Bucket(src: Table, metric: nat, ts: int, g: Grid): Part {
    Total(src, metric, ts, g.next(ts))
  }

  lemma StartIsAligned(g: Grid, t: int)
    requires ValidGrid(g)
    ensures Aligned(g, g.start(t))
  {
    assert g.start(g.start(t)) == g.start(t);
  }

  lemma NextIsAligned(g: Grid, a: int)
    requires ValidGrid(g) && Aligned(g, a)
    ensures Aligned(g, g.next(a)) && a < g.next(a)
  {
    var n := g.next(a);
    assert g.start(a) == a;
    assert g.start(n - 1) == a;
    assert g.start(n) <= n;
  }

  /** A bucket start after another lies at or after its end. */
  lemma Apart(g: Grid, a: int, b: int)
    requires ValidGrid(g) && Aligned(g, a) && Aligned(g, b) && a < b
    ensures g.next(a) <= b
  {
    assert b < g.next(g.start(a)) ==> g.start(b) == g.start(a);
  }

  lemma StartGrows(g: Grid, a: int, b: int)
    requires ValidGrid(g) && a <= b
    ensures g.start(a) <= g.start(b)
  {
    assert g.start(b) <= a ==> g.start(a) == g.start(b);
  }

  /** The bucket before an aligned time ends there. */
  lemma Before(g: Grid, b: int) returns (a: int)
    requires ValidGrid(g) && Aligned(g, b)
    ensures a == g.start(b - 1) && Aligned(g, a) && a < b && g.next(a) == b
  {
    a := g.start(b - 1);
    StartIsAligned(g, b - 1);
    NextIsAligned(g, a);
    Apart(g, a, b);
  }

  /**
   If each row of `t` in [a, b) is its bucket's total of `src`, and every bucket with samples has
   one, then the two agree on the whole range.
   */
  lemma {:induction false} BucketsAddUp(t: Table, src: Table, metric: nat, g: Grid, a: int, b: int)
    requires ValidGrid(g) && a <= b && Aligned(g, a) && Aligned(g, b)
    requires forall ts :: a <= ts < b ==>
               Cell(t, metric, ts) == if Aligned(g, ts) then Bucket(src, metric, ts, g) else Empty
    ensures Total(t, metric, a, b) == Total(src, metric, a, b)
    decreases b - a
  {
    if a < b {
      var c := Before(g, b);
      StartGrows(g, a, b - 1);
      BucketsAddUp(t, src, metric, g, a, c);
      OneRow(t, metric, g, c);
      TotalSplits(t, metric, a, c, b);
      TotalSplits(src, metric, a, c, b);
    }
  }

  lemma OneRow(t: Table, metric: nat, g: Grid, c: int)
    requires ValidGrid(g) && Aligned(g, c)
    requires forall ts :: c < ts < g.next(c) && !Aligned(g, ts) ==> Cell(t, metric, ts) == Empty
    ensures Total(t, metric, c, g.next(c)) == Cell(t, metric, c)
  {
    forall ts | c < ts < g.next(c)
      ensures !Aligned(g, ts)
    {
      if Aligned(g, ts) { Apart(g, c, ts); }
    }
    NextIsAligned(g, c);
    TotalEmptyCells(t, metric, c + 1, g.next(c));
    TotalSplits(t, metric, c, c + 1, g.next(c));
    assert Total(t, metric, c, c + 1) == Plus(Total(t, metric, c, c), Cell(t, metric, c));
  }

  lemma {:induction false} TotalEmptyCells(t: Table, metric: nat, a: int, b: int)
    requires forall ts :: a <= ts < b ==> Cell(t, metric, ts) == Empty
    ensures Total(t, metric, a, b) == Empty
    decreases b - a
  {
    if a < b { TotalEmptyCells(t, metric, a, b - 1); }
  }

  // ---- fixed UTC-aligned buckets ---------------------------------------------------------------

  const MIN: int := 60_000
  const HOUR: int := 60 * MIN
  const DAY: int := 24 * HOUR

  /** The start of the fixed bucket of `step` ms that holds `ts`. */
  function Floor(ts: int, step: int): (start: int)
    requires step > 0
    ensures start <= ts < start + step
  {
    ts - ts % step
  }

  /** (ts / step) * step and start + step. */
  const MINUTES: Grid := Grid(ts => Floor(ts, MIN), start => start + MIN)
  const HOURS: Grid := Grid(ts => Floor(ts, HOUR), start => start + HOUR)

  lemma Multiples(k: int, step: int)
    requires step > 0
    ensures k >= 1 ==> k * step >= step
    ensures k <= -1 ==> k * step <= -step
  {
    if k >= 1 {
      assert k * step == step + (k - 1) * step && (k - 1) * step >= 0;
    }
    if k <= -1 {
      assert k * step == -step - (-k - 1) * step && (-k - 1) * step >= 0;
    }
  }

  lemma DivUnique(x: int, q: int, step: int)
    requires step > 0 && q * step <= x < q * step + step
    ensures x / step == q && x % step == x - q * step
  {
    var d := x / step;
    assert x == d * step + x % step;
    assert (d - q) * step == d * step - q * step;
    Multiples(d - q, step);
  }

  lemma FloorUnique(t: int, u: int, step: int)
    requires step > 0 && Floor(t, step) <= u < Floor(t, step) + step
    ensures Floor(u, step) == Floor(t, step)
  {
    var q := t / step;
    assert t == q * step + t % step;
    DivUnique(u, q, step);
  }

  lemma FixedGrids()
    ensures ValidGrid(MINUTES) && ValidGrid(HOURS)
  {
    forall t, u | MINUTES.start(t) <= u < MINUTES.next(MINUTES.start(t))
      ensures MINUTES.start(u) == MINUTES.start(t)
    {
      FloorUnique(t, u, MIN);
    }
    forall t, u | HOURS.start(t) <= u < HOURS.next(HOURS.start(t))
      ensures HOURS.start(u) == HOURS.start(t)
    {
      FloorUnique(t, u, HOUR);
    }
  }

  /** An hour begins on a minute. */
  lemma HoursOnMinutes(t: int)
    requires Aligned(HOURS, t)
    ensures Aligned(MINUTES, t)
  {
    var q := t / HOUR;
    assert t == q * HOUR == 60 * q * MIN;
    DivUnique(t, 60 * q, MIN);
  }
}
