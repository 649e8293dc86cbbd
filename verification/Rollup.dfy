/**
 Tiered rollups and pruning (packages/storage/src/rollup.ts): raw samples into minutes, minutes
 into hours, and minutes into local days; rows past their retention are deleted, but only what the
 next level covers. A table is a map from its primary key, a statement its effect on whole tables,
 and means are exact reals.
 */
module Rollup {
  import opened Results
  import opened Totals

  /** Charts stay under this many points. */
  const MAX_POINTS: nat := 1500

  datatype Level = Raw | Minute | Hour | Day

  datatype Keep = Forever | For(ms: int)

  datatype Policy = Policy(raw: Keep, minute: Keep, hour: Keep, day: Keep)

  /** A timezone cuts time into local days; they begin on a whole minute and last less than two of our days. */
  type Zone = Grid

  ghost predicate ValidZone(z: Zone) {
    && ValidGrid(z)
    && (forall t {:trigger z.start(t)} :: t - 2 * DAY < z.start(t) && Aligned(MINUTES, z.start(t)))
  }

  /** The tables housekeeping works on; `until` is rollup_progress. */
  datatype Tables = Tables(raw: map<Key, real>, minute: Table, hour: Table, day: Table, until: Option<int>)

  /** Raw samples as rows that stand for one sample each. */
  function Samples(raw: map<Key, real>): Table {
    map k | k in raw :: Row(raw[k], raw[k], raw[k], 1)
  }

  /** INSERT OR REPLACE of one raw sample. */
  function WithSample(t: Tables, metric: nat, ts: int, value: real): Tables {
    t.(raw := t.raw[Key(metric, ts) := value])
  }

  // ---- MIN and MAX over a table ------------------------------------------------------------

  /** A set of times that has an element has a largest one. */
  lemma {:induction false} HasLargest(s: set<int>, some: int)
    requires some in s
    ensures exists x :: x in s && forall y :: y in s ==> y <= x
    decreases s
  {
    if later :| later in s && later > some {
      HasLargest(s - {some}, later);
      var x :| x in s - {some} && forall y :: y in s - {some} ==> y <= x;
      assert x in s && x >= later;
      assert forall y :: y in s ==> y == some || y in s - {some};
    }
  }

  function Largest(s: set<int>): (x: int)
    requires exists y :: y in s
    ensures x in s && forall y :: y in s ==> y <= x
  {
    assert exists x :: x in s && forall y :: y in s ==> y <= x by {
      var y :| y in s;
      HasLargest(s, y);
    }
    var x :| x in s && forall y :: y in s ==> y <= x;
    x
  }

  /** SELECT MAX(ts) ... WHERE ts < end. */
  function NewestBefore(t: Table, end: int): (r: Option<int>)
    ensures r.None? ==> forall k :: k in t ==> k.ts >= end
    ensures r.Some? ==> r.value < end && (exists k :: k in t && k.ts == r.value)
                        && forall k :: k in t && k.ts < end ==> k.ts <= r.value
  {
    var s := set k | k in t && k.ts < end :: k.ts;
    assert forall k :: k in t && k.ts < end ==> k.ts in s;
    if exists y :: y in s then Some(Largest(s)) else None
  }

  /** SELECT MIN(ts). */
  function Oldest(t: Table): (r: Option<int>)
    ensures r.None? ==> forall k :: k !in t
    ensures r.Some? ==> (exists k :: k in t && k.ts == r.value) && forall k :: k in t ==> r.value <= k.ts
  {
    var s := set k | k in t :: -k.ts;
    assert forall k :: k in t ==> -k.ts in s;
    if exists y :: y in s then Some(-Largest(s)) else None
  }

  // ---- rolling up ----------------------------------------------------------------------------

  function Lesser(a: int, b: int): int { if a <= b then a else b }

  /** SELECT ... WHERE ts >= start AND ts < end GROUP BY metric, the bucket of ts. */
  function Grouped(src: Table, g: Grid, start: int, end: int): (t: Table) {
    map b | b in (set k | k in src && start <= k.ts < end :: Key(k.metric, g.start(k.ts))) ::
      RowOf(Total(src, b.metric, if b.ts < start then start else b.ts, Lesser(g.next(b.ts), end)))
  }

  /** After the level's newest bucket before `end`, or at the oldest source data. */
  function NextStart(t: Table, src: Table, g: Grid, end: int): Option<int> {
    var newest := NewestBefore(t, end);
    if newest.Some? then Some(g.next(newest.value))
    else
      var oldest := Oldest(src);
      if oldest.Some? then Some(g.start(oldest.value)) else None
  }

  /** INSERT OR REPLACE of the buckets that closed since the last run. */
  function RollLevel(t: Table, src: Table, g: Grid, end: int): Table {
    var start := NextStart(t, src, g, end);
    if start.Some? && start.value < end then t + Grouped(src, g, start.value, end) else t
  }

  /** ON CONFLICT: count-weighted mean, wider min and max, summed count. */
  function MergeRow(a: Row, b: Row): Row {
    var n := a.count + b.count;
    if n == 0 then a
    else Row((a.avg * a.count as real + b.avg * b.count as real) / n as real, Min(a.min, b.min), Max(a.max, b.max), n)
  }

  /** The minute rows of [from, to), added into the rows of local day `d`. */
  function MergeDay(day: Table, minute: Table, d: int, from: int, to: int): Table {
    day + map g | g in (set k | k in minute && from <= k.ts < to :: Key(k.metric, d)) ::
      var piece := RowOf(Total(minute, g.metric, from, to));
      if g in day then MergeRow(day[g], piece) else piece
  }

  /** [from, end) cut at local midnights, each piece into the row of the day it falls in. */
  ghost function FoldDays(day: Table, minute: Table, from: int, end: int, z: Zone): Table
    requires ValidZone(z)
    decreases end - from
  {
    if from >= end then day
    else
      var d := z.start(from);
      var to := if z.next(d) < end then z.next(d) else end;
      FoldDays(MergeDay(day, minute, d, from, to), minute, to, end, z)
  }

  /** Where daily rollups last stopped, else after the newest daily row, else at the oldest minute. */
  function NextDayStart(t: Tables, end: int, z: Zone): Option<int> {
    if t.until.Some? then t.until
    else NextStart(t.day, t.minute, z, end)
  }

  ghost function RollDays(t: Tables, end: int, z: Zone): Tables
    requires ValidZone(z)
  {
    var start := NextDayStart(t, end, z);
    if start.Some? && start.value < end
    then t.(day := FoldDays(t.day, t.minute, start.value, end, z), until := Some(end))
    else t
  }

  // ---- pruning --------------------------------------------------------------------------------

  function Since(t: Table, cutoff: int): Table {
    map k | k in t && k.ts >= cutoff :: t[k]
  }

  function RawSince(t: map<Key, real>, cutoff: int): map<Key, real> {
    map k | k in t && k.ts >= cutoff :: t[k]
  }

  function Kept(t: Table, now: int, keep: Keep): Table {
    if keep.For? then Since(t, now - keep.ms) else t
  }

  /** Rows past their retention go, as far as the next level covers them. */
  function Prune(t: Tables, now: int, keep: Policy, minutes: int, hours: int, days: int): Tables {
    t.(raw := if keep.raw.For? then RawSince(t.raw, Lesser(now - keep.raw.ms, minutes)) else t.raw,
       minute := if keep.minute.For? then Since(t.minute, Lesser(now - keep.minute.ms, Lesser(hours, days)))
           else t.minute,
       hour := Kept(t.hour, now, keep.hour),
       day := Kept(t.day, now, keep.day))
  }

  /** One housekeeping run. */
  ghost function Housekeep(t: Tables, now: int, keep: Policy, z: Zone): Tables
    requires ValidZone(z)
  {
    var minutes := MINUTES.start(now);
    var hours := HOURS.start(minutes);
    var days := z.start(minutes);
    var t1 := t.(minute := RollLevel(t.minute, Samples(t.raw), MINUTES, minutes));
    var t2 := t1.(hour := RollLevel(t1.hour, t1.minute, HOURS, hours));
    Prune(RollDays(t2, days, z), now, keep, minutes, hours, days)
  }

  // ---- the database ----------------------------------------------------------------------------

  class MetricsDb {
    var raw: map<Key, real>
    var minute: Table
    var hour: Table
    var day: Table
    var until: Option<int>

    ghost function Snapshot(): Tables
      reads this
    {
      Tables(raw, minute, hour, day, until)
    }

    constructor ()
      ensures Snapshot() == Tables(map[], map[], map[], map[], None)
    {
      raw, minute, hour, day, until := map[], map[], map[], map[], None;
    }

    method InsertSample(metric: nat, ts: int, value: real)
      modifies `raw
      ensures Snapshot() == WithSample(old(Snapshot()), metric, ts, value)
    {
      raw := raw[Key(metric, ts) := value];
    }

    /** Cuts [start, end) at local midnights, one upsert a piece, and records where it stopped. */
    method RollUpDays(start: int, end: int, z: Zone)
      requires ValidZone(z)
      modifies `day, `until
      ensures day == FoldDays(old(day), minute, start, end, z) && until == Some(end)
    {
      var from := start;
      while from < end
        invariant FoldDays(day, minute, from, end, z) == FoldDays(old(day), minute, start, end, z)
        decreases end - from
      {
        var d := z.start(from);
        var to := Lesser(z.next(d), end);
        day := MergeDay(day, minute, d, from, to);
        from := to;
      }
      until := Some(end);
    }

    method RollUpMinutes(end: int)
      modifies `minute
      ensures minute == RollLevel(old(minute), Samples(raw), MINUTES, end)
    {
      var start := NextStart(minute, Samples(raw), MINUTES, end);
      if start.Some? && start.value < end {
        minute := minute + Grouped(Samples(raw), MINUTES, start.value, end);
      }
    }

    method RollUpHours(end: int)
      modifies `hour
      ensures hour == RollLevel(old(hour), minute, HOURS, end)
    {
      var start := NextStart(hour, minute, HOURS, end);
      if start.Some? && start.value < end {
        hour := hour + Grouped(minute, HOURS, start.value, end);
      }
    }

    method RollUpDaily(end: int, z: Zone)
      requires ValidZone(z)
      modifies `day, `until
      ensures Snapshot() == RollDays(old(Snapshot()), end, z)
    {
      var start := NextDayStart(Tables(raw, minute, hour, day, until), end, z);
      if start.Some? && start.value < end {
        RollUpDays(start.value, end, z);
      }
    }

    method Delete(now: int, keep: Policy, minutes: int, hours: int, days: int)
      modifies this
      ensures Snapshot() == Prune(old(Snapshot()), now, keep, minutes, hours, days)
    {
      if keep.raw.For? { raw := RawSince(raw, Lesser(now - keep.raw.ms, minutes)); }
      if keep.minute.For? { minute := Since(minute, Lesser(now - keep.minute.ms, Lesser(hours, days))); }
      hour := Kept(hour, now, keep.hour);
      day := Kept(day, now, keep.day);
    }

    /** Where each level's last complete bucket ends. */
    method Ends(now: int, z: Zone) returns (minutes: int, hours: int, days: int)
      ensures minutes == MINUTES.start(now) && hours == HOURS.start(minutes) && days == z.start(minutes)
    {
      minutes := MINUTES.start(now);
      hours, days := HOURS.start(minutes), z.start(minutes);
    }

    /** Rolls complete buckets up and deletes data past its retention, in one transaction. */
    method RunHousekeeping(now: int, keep: Policy, z: Zone)
      requires ValidZone(z)
      modifies this
      ensures Snapshot() == Housekeep(old(Snapshot()), now, keep, z)
    {
      var minutes, hours, days := Ends(now, z);
      RollUpMinutes(minutes);
      RollUpHours(hours);
      RollUpDaily(days, z);
      Delete(now, keep, minutes, hours, days);
    }
  }
}
