/**
 Migration 3 (packages/storage/src/migrations.ts): daily rows move from UTC days to local ones. Kept UTC days
 stay; the rest is rebuilt from minute rows, and from hourly rows up to where minute rows take over.
 */
module Migration {
  import opened Results
  import opened Totals
  import opened Rollup
  import opened RollupHistory

  /** SELECT MAX(ts). */
  function Newest(t: Table): (r: Option<int>)
    ensures r.None? ==> forall k :: k !in t
    ensures r.Some? ==> (exists k :: k in t && k.ts == r.value) && forall k :: k in t ==> k.ts <= r.value
  {
    var s := set k | k in t :: k.ts;
    assert forall k :: k in t ==> k.ts in s;
    if exists y :: y in s then Some(Largest(s)) else None
  }

  /** Rows no later than `last`. */
  function UpTo(t: Table, last: int): Table { map k | k in t && k.ts <= last :: t[k] }

  /** Math.ceil(ts / HOUR) * HOUR */
  function HourCeiling(ts: int): int { if HOURS.start(ts) == ts then ts else HOURS.start(ts) + HOUR }

  /** Where the rebuild starts, where hourly rows stop standing in for minutes, and where it ends. */
  datatype Plan = Plan(start: int, hoursUntil: int, end: int)

  function PlanOf(minute: Table, hour: Table, kept: Table, first: int, last: int, z: Zone): Plan {
    var newestDay, firstHour, newestHour := Newest(kept), Oldest(hour), Newest(hour);
    var start := if newestDay.Some? then newestDay.value + DAY
                 else z.start(if firstHour.Some? then Lesser(first, firstHour.value) else first);
    var full := HourCeiling(first);
    var hoursUntil := if newestHour.Some? && newestHour.value + HOUR >= full then full else first;
    var minutesUntil := last + Totals.MIN;
    Plan(start, hoursUntil, Lesser(Greater(z.start(minutesUntil), hoursUntil), minutesUntil))
  }

  /** SUM(avg * count) / SUM(count) and so on, of both ranges together. */
  function Together(hour: Table, minute: Table, metric: nat, from: int, hoursTo: int, minutesFrom: int, to: int): Part {
    Plus(Total(hour, metric, from, hoursTo), Total(minute, metric, minutesFrom, to))
  }

  /** The hourly rows of [from, hoursTo) and the minute rows of [minutesFrom, to), added into local day `d`. */
  function MergeBoth(day: Table, hour: Table, minute: Table, d: int, from: int, hoursTo: int, minutesFrom: int,
                     to: int): Table {
    var metrics := (set k | k in hour && from <= k.ts < hoursTo :: Key(k.metric, d))
                   + (set k | k in minute && minutesFrom <= k.ts < to :: Key(k.metric, d));
    day + map g | g in metrics ::
      var piece := RowOf(Together(hour, minute, g.metric, from, hoursTo, minutesFrom, to));
      if g in day then MergeRow(day[g], piece) else piece
  }

  /** Hourly rows before `until` and minute rows from it on: no time is in both. */
  function Finer(hour: Table, minute: Table, until: int): Table {
    map k | k in hour.Keys + minute.Keys && (if k.ts < until then k in hour else k in minute) ::
      if k.ts < until then hour[k] else minute[k]
  }

  lemma FoldOn(was: Table, day: Table, src: Table, from: int, to: int, end: int, z: Zone)
    requires ValidZone(z) && from < end && to == Lesser(z.next(z.start(from)), end)
             && day == MergeDay(was, src, z.start(from), from, to)
    ensures FoldDays(day, src, to, end, z) == FoldDays(was, src, from, end, z)
  {
  }

  class OldDb {
    const minute: Table
    const hour: Table
    var day: Table
    var until: Option<int>

    constructor (minute: Table, hour: Table, day: Table)
      ensures this.minute == minute && this.hour == hour && this.day == day && until == None
    {
      this.minute, this.hour, this.day, until := minute, hour, day, None;
    }

    method MergePiece(d: int, from: int, to: int, hoursUntil: int)
      requires from <= to
      modifies `day
      ensures day == MergeDay(old(day), Finer(hour, minute, hoursUntil), d, from, to)
    {
      MergesAlike(day, hour, minute, d, from, to, hoursUntil);
      day := MergeBoth(day, hour, minute, d, from, Lesser(hoursUntil, to), Greater(from, hoursUntil), to);
    }

    /** The loop: one upsert a local day. */
    method RebuildDays(start: int, end: int, hoursUntil: int, z: Zone, ghost src: Table)
      requires ValidZone(z) && src == Finer(hour, minute, hoursUntil)
      modifies `day
      ensures day == FoldDays(old(day), src, start, end, z)
    {
      var from := start;
      while from < end
        invariant FoldDays(day, src, from, end, z) == FoldDays(old(day), src, start, end, z)
        decreases end - from
      {
        var d := z.start(from);
        var to := Lesser(z.next(d), end);
        ghost var was := day;
        MergePiece(d, from, to, hoursUntil);
        FoldOn(was, day, src, from, to, end, z);
        from := to;
      }
    }

    method Rebuild(p: Plan, z: Zone)
      requires ValidZone(z) && p.start < p.end
      modifies this
      ensures day == FoldDays(old(day), Finer(hour, minute, p.hoursUntil), p.start, p.end, z) && until == Some(p.end)
    {
      RebuildDays(p.start, p.end, p.hoursUntil, z, Finer(hour, minute, p.hoursUntil));
      until := Some(p.end);
    }

    /** The rebuild, once the daily rows that minute rows overlap are gone. */
    method RebuildAfter(z: Zone)
      requires ValidZone(z) && Oldest(minute).Some?
      modifies this
      ensures (day, until) == Replanned(minute, hour, old(day), old(until), PlanFor(minute, hour, old(day), z), z)
    {
      var newestDay := Newest(day);
      var p := PlanFor(minute, hour, day, z);
      if p.start >= p.end {
        if newestDay.Some? { until := Some(p.start); }
        return;
      }
      Rebuild(p, z);
    }

    method Migrate(z: Zone)
      requires ValidZone(z)
      modifies this
      ensures (day, until) == Migrated(minute, hour, old(day), old(until), z)
    {
      var first := Oldest(minute);
      if first.None? {
        var newestDay := Newest(day);
        if newestDay.Some? { until := Some(newestDay.value + DAY); }
        return;
      }
      day := KeptDays(minute, day);
      RebuildAfter(z);
    }
  }

  /** The UTC days that end before minute rows begin. */
  function KeptDays(minute: Table, day: Table): Table
    requires Oldest(minute).Some?
  {
    UpTo(day, Oldest(minute).value - DAY)
  }

  function PlanFor(minute: Table, hour: Table, kept: Table, z: Zone): Plan
    requires Oldest(minute).Some?
  {
    PlanOf(minute, hour, kept, Oldest(minute).value, Newest(minute).value, z)
  }

  /** The kept rows with the plan's ranges folded in, and where that stopped. */
  ghost function Replanned(minute: Table, hour: Table, kept: Table, until: Option<int>, p: Plan, z: Zone)
    : (Table, Option<int>)
    requires ValidZone(z)
  {
    if p.start >= p.end then (kept, if Newest(kept).Some? then Some(p.start) else until)
    else (FoldDays(kept, Finer(hour, minute, p.hoursUntil), p.start, p.end, z), Some(p.end))
  }

  /** The daily rows and the recorded progress after the migration. */
  ghost function Migrated(minute: Table, hour: Table, day: Table, until: Option<int>, z: Zone): (Table, Option<int>)
    requires ValidZone(z)
  {
    if Oldest(minute).None? then (day, if Newest(day).Some? then Some(Newest(day).value + DAY) else until)
    else Replanned(minute, hour, KeptDays(minute, day), until, PlanFor(minute, hour, KeptDays(minute, day), z), z)
  }

  // ---- the two ranges are one table's ------------------------------------------------------------------

  lemma TogetherIsFiner(hour: Table, minute: Table, metric: nat, from: int, to: int, until: int)
    requires from <= to
    ensures Together(hour, minute, metric, from, Lesser(until, to), Greater(from, until), to)
            == Total(Finer(hour, minute, until), metric, from, to)
  {
    var t := Finer(hour, minute, until);
    if until <= from {
      TotalSame(minute, t, metric, from, to);
    } else if to <= until {
      TotalSame(hour, t, metric, from, to);
    } else {
      TotalSplits(t, metric, from, until, to);
      TotalSame(hour, t, metric, from, until);
      TotalSame(minute, t, metric, until, to);
    }
  }

  lemma MergesAlike(day: Table, hour: Table, minute: Table, d: int, from: int, to: int, until: int)
    requires from <= to
    ensures MergeBoth(day, hour, minute, d, from, Lesser(until, to), Greater(from, until), to)
            == MergeDay(day, Finer(hour, minute, until), d, from, to)
  {
    SameMetrics(hour, minute, d, from, to, until);
    forall metric: nat
      ensures Together(hour, minute, metric, from, Lesser(until, to), Greater(from, until), to)
              == Total(Finer(hour, minute, until), metric, from, to)
    {
      TogetherIsFiner(hour, minute, metric, from, to, until);
    }
    SameMerges(day, hour, minute, d, from, Lesser(until, to), Greater(from, until), to, Finer(hour, minute, until));
  }

  lemma SameMerges(day: Table, hour: Table, minute: Table, d: int, from: int, hoursTo: int, minutesFrom: int, to: int,
                   t: Table)
    requires forall metric: nat ::
              Together(hour, minute, metric, from, hoursTo, minutesFrom, to)
              == Total(t, metric, from, to)
    requires (set k | k in hour && from <= k.ts < hoursTo :: Key(k.metric, d))
             + (set k | k in minute && minutesFrom <= k.ts < to :: Key(k.metric, d))
             == set k | k in t && from <= k.ts < to :: Key(k.metric, d)
    ensures MergeBoth(day, hour, minute, d, from, hoursTo, minutesFrom, to) == MergeDay(day, t, d, from, to)
  {
    var u, v := MergeBoth(day, hour, minute, d, from, hoursTo, minutesFrom, to), MergeDay(day, t, d, from, to);
    assert u.Keys == v.Keys;
    forall g | g in u
      ensures u[g] == v[g]
    {
      assert Together(hour, minute, g.metric, from, hoursTo, minutesFrom, to) == Total(t, g.metric, from, to);
    }
  }

  lemma SameMetrics(hour: Table, minute: Table, d: int, from: int, to: int, until: int)
    ensures (set k | k in hour && from <= k.ts < Lesser(until, to) :: Key(k.metric, d))
            + (set k | k in minute && Greater(from, until) <= k.ts < to :: Key(k.metric, d))
            == set k | k in Finer(hour, minute, until) && from <= k.ts < to :: Key(k.metric, d)
  {
    var t := Finer(hour, minute, until);
    assert forall k :: k in t && from <= k.ts < to <==>
      (k in hour && from <= k.ts < Lesser(until, to)) || (k in minute && Greater(from, until) <= k.ts < to);
  }

  // ---- each row into one day -----------------------------------------------------------------------------

  /** What [from, end) adds to the row of the local day that starts at `d`: its part of that day, and nothing else. */
  function DayPart(src: Table, metric: nat, from: int, end: int, z: Zone, d: int): Part {
    if Aligned(z, d) && d < end then Total(src, metric, Greater(from, d), Lesser(end, z.next(d))) else Empty
  }

  /** Folding adds to each daily row exactly what lies in its local day. */
  lemma {:induction false} EachDayGetsItsOwn(day: Table, src: Table, from: int, end: int, z: Zone, metric: nat, d: int)
    requires ValidZone(z) && Real(day) && Real(src) && from <= end
    ensures Real(FoldDays(day, src, from, end, z))
    ensures Cell(FoldDays(day, src, from, end, z), metric, d)
            == Plus(Cell(day, metric, d), DayPart(src, metric, from, end, z, d))
    decreases end - from
  {
    if from < end {
      var e := z.start(from);
      var to := Lesser(z.next(e), end);
      var u := MergeDay(day, src, e, from, to);
      MergeReal(day, src, e, from, to);
      MergeDayCell(day, src, e, from, to, metric, d);
      EachDayGetsItsOwn(u, src, to, end, z, metric, d);
      PartsOfDay(src, metric, from, to, end, z, d);
      PlusAssociates(Cell(day, metric, d), if d == e then Total(src, metric, from, to) else Empty,
                     DayPart(src, metric, to, end, z, d));
    } else {
      assert DayPart(src, metric, from, end, z, d) == Empty by {
        if Aligned(z, d) && d < end { NextIsAligned(z, d); }
      }
    }
  }

  lemma MergeReal(day: Table, src: Table, d: int, from: int, to: int)
    requires Real(day) && Real(src)
    ensures Real(MergeDay(day, src, d, from, to))
  {
    var u := MergeDay(day, src, d, from, to);
    forall k | k in u
      ensures u[k].count > 0
    {
      if k !in day || u[k] != day[k] {
        var s :| s in src && from <= s.ts < to && Key(s.metric, d) == k;
        TotalFinds(src, k.metric, from, to, s.ts);
        TotalCounts(src, k.metric, from, to);
      }
    }
  }

  /** The first piece is the day's own, as far as the day goes. */
  lemma PartsOfDay(src: Table, metric: nat, from: int, to: int, end: int, z: Zone, d: int)
    requires ValidZone(z) && from < end && to == Lesser(z.next(z.start(from)), end)
    ensures DayPart(src, metric, from, end, z, d) ==
            Plus(if d == z.start(from) then Total(src, metric, from, to) else Empty,
                 DayPart(src, metric, to, end, z, d))
  {
    var e := z.start(from);
    StartIsAligned(z, from);
    if Aligned(z, d) && d < e { Apart(z, d, e); }
    if Aligned(z, d) && d > e { Apart(z, e, d); }
  }

  /** Together the daily rows grow by exactly the range. */
  lemma {:induction false} FoldTotals(day: Table, src: Table, from: int, end: int, z: Zone, metric: nat, a: int, b: int)
    requires ValidZone(z) && Real(day) && Real(src) && from <= end <= b && a <= z.start(from)
    ensures Total(FoldDays(day, src, from, end, z), metric, a, b)
            == Plus(Total(day, metric, a, b), Total(src, metric, from, end))
    decreases end - from
  {
    if from < end {
      var d := z.start(from);
      var to := Lesser(z.next(d), end);
      var u := MergeDay(day, src, d, from, to);
      MergeReal(day, src, d, from, to);
      MergeDayTotal(day, src, d, from, to, metric, a, b);
      StartGrows(z, from, to);
      FoldTotals(u, src, to, end, z, metric, a, b);
      PlusAssociates(Total(day, metric, a, b), Total(src, metric, from, to), Total(src, metric, to, end));
      TotalSplits(src, metric, from, to, end);
    }
  }

  // ---- main results --------------------------------------------------------------------------------------

  /** The plan of a migration whose minute rows are not empty. */
  function TheirPlan(minute: Table, hour: Table, day: Table, z: Zone): Plan
    requires Oldest(minute).Some?
  {
    PlanFor(minute, hour, KeptDays(minute, day), z)
  }

  lemma MigratedIs(minute: Table, hour: Table, day: Table, until: Option<int>, z: Zone)
    requires ValidZone(z) && Oldest(minute).Some?
             && TheirPlan(minute, hour, day, z).start < TheirPlan(minute, hour, day, z).end
    ensures var p := TheirPlan(minute, hour, day, z);
            Migrated(minute, hour, day, until, z) ==
            (FoldDays(KeptDays(minute, day), Finer(hour, minute, p.hoursUntil), p.start, p.end, z), Some(p.end))
  {
  }

  lemma DayPartIs(hour: Table, minute: Table, metric: nat, p: Plan, z: Zone, d: int)
    requires ValidZone(z) && p.start < p.end
    ensures DayPart(Finer(hour, minute, p.hoursUntil), metric, p.start, p.end, z, d) ==
            if Aligned(z, d) && d < p.end && p.start < z.next(d) then
              var from, to := Greater(p.start, d), Lesser(p.end, z.next(d));
              Together(hour, minute, metric, from, Lesser(p.hoursUntil, to), Greater(from, p.hoursUntil), to)
            else Empty
  {
    if Aligned(z, d) && d < p.end && p.start < z.next(d) {
      NextIsAligned(z, d);
      TogetherIsFiner(hour, minute, metric, Greater(p.start, d), Lesser(p.end, z.next(d)), p.hoursUntil);
    }
  }

  lemma FinerReal(hour: Table, minute: Table, until: int)
    requires Real(hour) && Real(minute)
    ensures Real(Finer(hour, minute, until))
  {
  }

  /**
   Every hourly row of [start, min(hoursUntil, end)) and every minute row of [max(start, hoursUntil), end) is folded
   into exactly one daily row, that of its local day: each daily row is the kept one and its own day's rows.
   */
  lemma EachRowIntoItsDay(minute: Table, hour: Table, day: Table, until: Option<int>, z: Zone, metric: nat, d: int)
    requires ValidZone(z) && Real(minute) && Real(hour) && Real(day) && Oldest(minute).Some?
    requires TheirPlan(minute, hour, day, z).start < TheirPlan(minute, hour, day, z).end
    ensures var p, kept, v := TheirPlan(minute, hour, day, z), KeptDays(minute, day),
            Migrated(minute, hour, day, until, z);
            && v.1 == Some(p.end)
            && Cell(v.0, metric, d) ==
               if Aligned(z, d) && d < p.end && p.start < z.next(d) then
                 var from, to := Greater(p.start, d), Lesser(p.end, z.next(d));
                 Plus(Cell(kept, metric, d),
                     Together(hour, minute, metric, from, Lesser(p.hoursUntil, to), Greater(from, p.hoursUntil), to))
               else Cell(kept, metric, d)
  {
    var p, kept := TheirPlan(minute, hour, day, z), KeptDays(minute, day);
    MigratedIs(minute, hour, day, until, z);
    FinerReal(hour, minute, p.hoursUntil);
    EachDayGetsItsOwn(kept, Finer(hour, minute, p.hoursUntil), p.start, p.end, z, metric, d);
    DayPartIs(hour, minute, metric, p, z, d);
  }

  /** So nothing is lost: the daily rows add up to the kept ones and both ranges. */
  lemma MigrationAddsUp(minute: Table, hour: Table, day: Table, until: Option<int>, z: Zone, metric: nat, a: int,
                        b: int)
    requires ValidZone(z) && Real(minute) && Real(hour) && Real(day) && Oldest(minute).Some?
    requires var p := TheirPlan(minute, hour, day, z); p.start < p.end <= b && a <= z.start(p.start)
    ensures var p, v := TheirPlan(minute, hour, day, z), Migrated(minute, hour, day, until, z);
            Total(v.0, metric, a, b) ==
            Plus(Total(KeptDays(minute, day), metric, a, b),
                 Together(hour, minute, metric, p.start, Lesser(p.hoursUntil, p.end), Greater(p.start, p.hoursUntil),
                     p.end))
  {
    var p := TheirPlan(minute, hour, day, z);
    MigratedIs(minute, hour, day, until, z);
    FinerReal(hour, minute, p.hoursUntil);
    FoldTotals(KeptDays(minute, day), Finer(hour, minute, p.hoursUntil), p.start, p.end, z, metric, a, b);
    TogetherIsFiner(hour, minute, metric, p.start, p.end, p.hoursUntil);
  }

  lemma CeilingIs(ts: int)
    ensures ts <= HourCeiling(ts) < ts + HOUR && Aligned(HOURS, HourCeiling(ts))
  {
    FixedGrids();
    StartIsAligned(HOURS, ts);
    NextIsAligned(HOURS, HOURS.start(ts));
  }

  /**
   Nothing is counted twice: an hourly row that is folded ends before any minute row that is begins, and a kept UTC
   day ends before either, and before minute rows begin at all.
   */
  lemma NothingTwice(minute: Table, hour: Table, day: Table, z: Zone, h: Key, m: Key, c: Key)
    requires ValidZone(z) && Oldest(minute).Some? && (forall k :: k in hour ==> Aligned(HOURS, k.ts))
    ensures var p := TheirPlan(minute, hour, day, z);
            && (h in hour && p.start <= h.ts < Lesser(p.hoursUntil, p.end)
                && m in minute && Greater(p.start, p.hoursUntil) <= m.ts < p.end ==>
                  h.ts + HOUR <= m.ts)
            && (c in KeptDays(minute, day) ==>
                  && (p.start <= h.ts ==> c.ts + DAY <= h.ts) && (p.start <= m.ts ==> c.ts + DAY <= m.ts)
                  && (m in minute ==> c.ts + DAY <= m.ts))
  {
    var p, first := TheirPlan(minute, hour, day, z), Oldest(minute).value;
    CeilingIs(first);
    if h in hour && p.start <= h.ts < p.hoursUntil { HourEnds(hour, first, p.hoursUntil, h); }
  }

  /** An hourly row before `hoursUntil` also ends by then. */
  lemma HourEnds(hour: Table, first: int, hoursUntil: int, h: Key)
    requires h in hour && h.ts < hoursUntil && (forall k :: k in hour ==> Aligned(HOURS, k.ts))
    requires var full := HourCeiling(first);
             hoursUntil == if Newest(hour).Some? && Newest(hour).value + HOUR >= full then full else first
    ensures h.ts + HOUR <= hoursUntil
  {
    FixedGrids();
    CeilingIs(first);
    var full := HourCeiling(first);
    assert Aligned(HOURS, h.ts);
    NextIsAligned(HOURS, h.ts);
    if h.ts < full { Apart(HOURS, h.ts, full); }
    if h.ts + HOUR < full { Apart(HOURS, h.ts + HOUR, full); }
  }

  // ---- what the plan takes in ----------------------------------------------------------------------------

  /** The newest minute row ends at `until`. */
  ghost predicate MinutesEnd(minute: Table, until: int) {
    (exists k :: k in minute && k.ts + Totals.MIN == until) && forall k :: k in minute ==> k.ts + Totals.MIN <= until
  }

  /** The hour in which minute rows begin has an hourly row, or there is a later one. */
  ghost predicate HourStands(minute: Table, hour: Table, m: Key) {
    && (exists k :: k in minute && k.ts <= m.ts && HOURS.start(k.ts) < k.ts && HOURS.start(m.ts) == HOURS.start(k.ts))
    && (exists h :: h in hour && h.ts >= HOURS.start(m.ts))
  }

  /**
   No minute row is left out of the rebuild but those of a local day that has not ended: every other is folded, as
   itself or, in the broken hour in which minute rows begin, through the hourly rows.
   */
  lemma EveryMinuteIsTaken(minute: Table, hour: Table, day: Table, z: Zone, m: Key, until: int)
    requires ValidZone(z) && m in minute && MinutesEnd(minute, until) && Oldest(minute).Some?
    requires forall k :: k in hour ==> Aligned(HOURS, k.ts)
    ensures var p := TheirPlan(minute, hour, day, z);
            && p.start <= m.ts
            && (m.ts < p.end <==> z.next(z.start(m.ts)) <= until || m.ts < p.hoursUntil)
            && (m.ts < p.hoursUntil ==> HourStands(minute, hour, m))
  {
    var first := Oldest(minute).value;
    var p := TheirPlan(minute, hour, day, z);
    StartIsAligned(z, m.ts);
    assert Newest(minute).value + Totals.MIN == until;
    DayEnded(z, m.ts, until);
    StartBefore(minute, hour, day, z);
    if m.ts < p.hoursUntil { InBrokenHour(minute, hour, m, first, p.hoursUntil); }
  }

  lemma DayEnded(z: Zone, ts: int, until: int)
    requires ValidZone(z) && ts < until
    ensures ts < z.start(until) <==> z.next(z.start(ts)) <= until
  {
    StartIsAligned(z, ts);
    StartIsAligned(z, until);
    NextIsAligned(z, z.start(ts));
    if ts < z.start(until) { Apart(z, z.start(ts), z.start(until)); }
    if z.next(z.start(ts)) <= until { StartGrows(z, z.next(z.start(ts)), until); }
  }

  lemma StartBefore(minute: Table, hour: Table, day: Table, z: Zone)
    requires ValidZone(z) && Oldest(minute).Some?
    ensures TheirPlan(minute, hour, day, z).start <= Oldest(minute).value
    ensures forall h :: h in hour && h.ts < TheirPlan(minute, hour, day, z).start ==>
              exists c :: c in KeptDays(minute, day) && h.ts < c.ts + DAY
  {
    var first := Oldest(minute).value;
    StartIsAligned(z, first);
    if Oldest(hour).Some? { StartIsAligned(z, Lesser(first, Oldest(hour).value)); }
  }

  lemma InBrokenHour(minute: Table, hour: Table, m: Key, first: int, hoursUntil: int)
    requires m in minute && Oldest(minute) == Some(first) && m.ts < hoursUntil
    requires forall k :: k in hour ==> Aligned(HOURS, k.ts)
    requires var full := HourCeiling(first);
             hoursUntil == if Newest(hour).Some? && Newest(hour).value + HOUR >= full then full else first
    ensures HourStands(minute, hour, m)
  {
    CeilingIs(first);
    FixedGrids();
    var begin := HOURS.start(first);
    StartIsAligned(HOURS, first);
    assert hoursUntil == begin + HOUR && begin < first <= m.ts < begin + HOUR;
    StartGrows(HOURS, first, m.ts);
    StartIsAligned(HOURS, m.ts);
    NextIsAligned(HOURS, begin);
    if begin < HOURS.start(m.ts) { Apart(HOURS, begin, HOURS.start(m.ts)); }
    var h :| h in hour && h.ts == Newest(hour).value;
    assert h.ts >= begin;
  }

  /** An hourly row is left out only if a kept day covers it, or minute rows stand for its time. */
  lemma EveryHourIsTaken(minute: Table, hour: Table, day: Table, z: Zone, h: Key, until: int)
    requires ValidZone(z) && h in hour && MinutesEnd(minute, until) && Oldest(minute).Some?
    requires forall k :: k in hour ==> Aligned(HOURS, k.ts)
    ensures var p := TheirPlan(minute, hour, day, z);
            && (h.ts < p.start ==> exists c :: c in KeptDays(minute, day) && h.ts < c.ts + DAY)
            && (h.ts >= p.hoursUntil ==> exists k :: k in minute && k.ts < h.ts + HOUR)
            && (h.ts < p.hoursUntil ==> h.ts < p.end)
  {
    var p := TheirPlan(minute, hour, day, z);
    StartBefore(minute, hour, day, z);
    CeilingIs(Oldest(minute).value);
    if h.ts < p.hoursUntil { HourEnds(hour, Oldest(minute).value, p.hoursUntil, h); }
  }
}
