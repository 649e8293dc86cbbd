/** Daily rows made in one timezone: each describes exactly the samples of its local day. */
module DailyRows {
  import opened Results
  import opened Totals
  import opened Rollup
  import opened RowMeaning
  import opened RollupSafety
  import opened RollupHistory
  import opened RollupTheorems
  import opened Migration

  /** Each stored row is its local day's samples; the others, if `all` are kept, have none. */
  ghost predicate Days(day: Table, src: Table, z: Zone, until: int, all: bool) {
    && (forall k :: k in day ==> Aligned(z, k.ts) && k.ts < until && day[k].count > 0)
    && (forall m: nat, d: int {:trigger Cell(day, m, d)} :: Aligned(z, d) && d < until ==>
          Cell(day, m, d) == Bucket(src, m, d, z) || (!all && Key(m, d) !in day))
  }

  ghost predicate DaysSo(t: Tables, src: Table, z: Zone, all: bool) {
    t.until.Some? ==> Aligned(z, t.until.value) && Days(t.day, src, z, t.until.value, all)
  }

  ghost predicate DaysExact(w: World, z: Zone, all: bool) {
    DaysSo(w.t, w.Src(), z, all)
  }

  lemma DaysCarryOn(day: Table, s: Table, u: Table, z: Zone, until: int, all: bool)
    requires ValidZone(z) && Aligned(z, until) && Days(day, s, z, until, all) && SameBefore(s, u, until)
    ensures Days(day, u, z, until, all)
  {
    forall m: nat, d: int {:trigger Cell(day, m, d)} | Aligned(z, d) && d < until
      ensures Cell(day, m, d) == Bucket(u, m, d, z) || (!all && Key(m, d) !in day)
    {
      SameBucket(s, u, z, until, m, d);
    }
  }

  lemma InsertDays(w: World, z: Zone, all: bool, metric: nat, ts: int, value: real)
    requires Inv(w) && ValidZone(z) && DaysExact(w, z, all) && ts >= w.Minutes()
    ensures DaysExact(AfterInsert(w, metric, ts, value), z, all)
  {
    InsertIsLate(w, metric, ts, value);
    if w.t.until.Some? {
      DaysCarryOn(w.t.day, w.Src(), AfterInsert(w, metric, ts, value).Src(), z, w.t.until.value, all);
    }
  }

  // ---- folding on ----------------------------------------------------------------------------------------

  /** A day that the fold reaches gets all its minutes, and one before it nothing. */
  lemma FoldedDay(day: Table, minute: Table, src: Table, w: int, minutes: int, from: int, end: int, z: Zone, m: nat,
                  d: int)
    requires ValidZone(z) && Aligned(z, from) && Aligned(z, end) && from <= end <= minutes && Real(day) && Real(minute)
    requires ExactFrom(minute, src, MINUTES, w, minutes) && Real(src) && w <= from && Aligned(z, d) && d < end
    ensures Cell(FoldDays(day, minute, from, end, z), m, d)
            == if d < from then Cell(day, m, d) else Plus(Cell(day, m, d), Bucket(src, m, d, z))
  {
    EachDayGetsItsOwn(day, minute, from, end, z, m, d);
    Apart(z, d, end);
    NextIsAligned(z, d);
    if d < from {
      Apart(z, d, from);
    } else {
      assert Aligned(MINUTES, z.start(d)) && Aligned(MINUTES, z.start(z.next(d)));
      MinutesAddUp(minute, src, w, minutes, m, d, z.next(d));
    }
  }

  lemma {:induction false} FoldKeys(day: Table, minute: Table, from: int, end: int, z: Zone, k: Key)
    requires ValidZone(z) && k in FoldDays(day, minute, from, end, z)
    ensures k in day || (Aligned(z, k.ts) && k.ts < end)
    decreases end - from
  {
    if from < end {
      var d := z.start(from);
      var to := Lesser(z.next(d), end);
      StartIsAligned(z, from);
      FoldKeys(MergeDay(day, minute, d, from, to), minute, to, end, z, k);
    }
  }

  lemma FoldDaysExact(day: Table, minute: Table, src: Table, w: int, minutes: int, from: int, end: int, z: Zone,
                      all: bool)
    requires ValidZone(z) && Aligned(z, from) && Aligned(z, end) && from <= end <= minutes && Real(minute)
    requires ExactFrom(minute, src, MINUTES, w, minutes) && Real(src) && w <= from && Days(day, src, z, from, all)
    ensures Days(FoldDays(day, minute, from, end, z), src, z, end, all)
  {
    var u := FoldDays(day, minute, from, end, z);
    forall k | k in u
      ensures Aligned(z, k.ts) && k.ts < end && u[k].count > 0
    {
      FoldKeys(day, minute, from, end, z, k);
      EachDayGetsItsOwn(day, minute, from, end, z, k.metric, k.ts);
    }
    forall m: nat, d: int {:trigger Cell(u, m, d)} | Aligned(z, d) && d < end
      ensures Cell(u, m, d) == Bucket(src, m, d, z) || (!all && Key(m, d) !in u)
    {
      FoldedDay(day, minute, src, w, minutes, from, end, z, m, d);
      assert d >= from ==> Key(m, d) !in day;
    }
  }

  // ---- one run -------------------------------------------------------------------------------------------

  lemma NoDays(minute: Table, src: Table, minutes: int, start: int, z: Zone)
    requires ValidZone(z) && ExactFrom(minute, src, MINUTES, FLOOR, minutes) && NoneBefore(minute, start)
    requires start <= minutes && Aligned(z, start) && (forall k :: k in src ==> 0 <= k.ts)
    ensures Days(map[], src, z, start, true)
  {
    var none: Table := map[];
    forall m: nat, d: int {:trigger Cell(none, m, d)} | Aligned(z, d) && d < start
      ensures Cell(none, m, d) == Bucket(src, m, d, z)
    {
      NoneBeforeStart(minute, src, minutes, start, z, m, d);
    }
  }

  lemma FirstFoldExact(minute: Table, src: Table, minutes: int, start: int, days: int, none: Table, z: Zone)
    requires ValidZone(z) && 0 <= minutes && Real(src) && (forall k :: k in src ==> 0 <= k.ts)
    requires ExactFrom(minute, src, MINUTES, FLOOR, minutes) && Grounded(minute, src, MINUTES, minutes)
    requires Oldest(minute).Some? && start == z.start(Oldest(minute).value) && days == z.start(minutes) && start < days
    requires none == map[]
    ensures Days(FoldDays(none, minute, start, days, z), src, z, days, true)
  {
    var oldest := Oldest(minute).value;
    StartIsAligned(z, oldest);
    StartIsAligned(z, minutes);
    MinutesAreLate(minute, src, minutes, oldest);
    NoDays(minute, src, minutes, start, z);
    FoldDaysExact(none, minute, src, FLOOR, minutes, start, days, z, true);
  }

  lemma NoneBeforeStart(minute: Table, src: Table, minutes: int, start: int, z: Zone, m: nat, d: int)
    requires ValidZone(z) && ExactFrom(minute, src, MINUTES, FLOOR, minutes) && NoneBefore(minute, start)
    requires start <= minutes && Aligned(z, start) && (forall k :: k in src ==> 0 <= k.ts) && Aligned(z, d) && d < start
    ensures Bucket(src, m, d, z) == Empty
  {
    Apart(z, d, start);
    forall ts | d <= ts < z.next(d)
      ensures Key(m, ts) !in src
    {
      if Key(m, ts) in src {
        FixedGrids();
        assert Aligned(MINUTES, z.start(start));
        StartGrows(MINUTES, 0, ts);
        SampleHasMinute(minute, src, FLOOR, minutes, m, ts);
      }
    }
    TotalEmpty(src, m, d, z.next(d));
  }

  lemma RollDaysExact(t: Tables, src: Table, w: int, minutes: int, z: Zone, all: bool)
    requires ValidZone(z) && 0 <= minutes && Real(src)
    requires forall k :: k in src ==> 0 <= k.ts
    requires if t.until.None? then t.day == map[] && w == FLOOR else w <= t.until.value
    requires ExactFrom(t.minute, src, MINUTES, w, minutes) && Grounded(t.minute, src, MINUTES, minutes)
    requires DaysSo(t, src, z, all)
    ensures DaysSo(RollDays(t, z.start(minutes), z), src, z, all)
  {
    var days := z.start(minutes);
    StartIsAligned(z, minutes);
    if t.until.Some? {
      if t.until.value < days {
        FoldDaysExact(t.day, t.minute, src, w, minutes, t.until.value, days, z, all);
      }
    } else if Oldest(t.minute).Some? && z.start(Oldest(t.minute).value) < days {
      FirstFoldExact(t.minute, src, minutes, z.start(Oldest(t.minute).value), days, t.day, z);
    }
  }

  lemma KeptDays(day: Table, src: Table, z: Zone, until: int, all: bool, now: int, keep: Keep)
    requires Days(day, src, z, until, all) && (all ==> keep.Forever?)
    ensures Days(Kept(day, now, keep), src, z, until, all)
  {
    var u := Kept(day, now, keep);
    forall m: nat, d: int {:trigger Cell(u, m, d)} | Aligned(z, d) && d < until
      ensures Cell(u, m, d) == Bucket(src, m, d, z) || (!all && Key(m, d) !in u)
    {
      assert Cell(day, m, d) == Bucket(src, m, d, z) || (!all && Key(m, d) !in day);
    }
  }

  lemma RunDaysExact(w: World, now: int, keep: Policy, z: Zone, all: bool)
    requires Inv(w) && now >= w.now && ValidZone(z) && DaysExact(w, z, all) && (all ==> keep.day.Forever?)
    ensures DaysExact(AfterRun(w, now, keep, z), z, all)
  {
    var minutes, rolled := MINUTES.start(now), Rolled(w.t, now, z);
    RunMinutes(w, now);
    StartNotEarlier(w.now, now);
    var t2 := w.t.(minute := rolled.minute, hour := rolled.hour);
    RollDaysExact(t2, w.Src(), w.minuteFrom, minutes, z, all);
    if rolled.until.Some? { KeptDays(rolled.day, w.Src(), z, rolled.until.value, all, now, keep.day); }
  }

  // ---- every history ---------------------------------------------------------------------------------------

  ghost predicate OneZone(events: seq<Event>, z: Zone) {
    forall i :: 0 <= i < |events| && events[i].Run? ==> events[i].z == z
  }

  lemma NextDays(w: World, e: Event, z: Zone, all: bool)
    requires Inv(w) && ValidZone(z) && DaysExact(w, z, all) && Admissible(w, e)
    requires e.Run? ==> e.z == z && (all ==> e.keep.day.Forever?)
    ensures DaysExact(Next(w, e), z, all)
  {
    match e
    case Insert(metric, ts, value) => InsertDays(w, z, all, metric, ts, value);
    case Run(now, keep, _) => RunDaysExact(w, now, keep, z, all);
  }

  lemma Later(events: seq<Event>, z: Zone)
    requires events != []
    ensures OneZone(events, z) ==> OneZone(events[1..], z) && (events[0].Run? ==> events[0].z == z)
    ensures KeepsDays(events) ==> KeepsDays(events[1..]) && (events[0].Run? ==> events[0].keep.day.Forever?)
  {
  }

  lemma {:induction false} PlayDays(w: World, events: seq<Event>, z: Zone, all: bool)
    requires Inv(w) && ValidZone(z) && DaysExact(w, z, all) && Happens(w, events) && OneZone(events, z)
    requires all ==> KeepsDays(events)
    ensures Inv(Play(w, events)) && DaysExact(Play(w, events), z, all)
    decreases |events|
  {
    if events != [] {
      var e, later := events[0], events[1..];
      NextKeeps(w, e);
      NextDays(w, e, z, all);
      Later(events, z);
      PlayDays(Next(w, e), later, z, all);
    }
  }

  lemma DayDescribes(w: World, z: Zone, all: bool, k: Key)
    requires Inv(w) && ValidZone(z) && DaysExact(w, z, all) && k in w.t.day
    ensures Aligned(z, k.ts) && Describes(w.t.day[k], w.ever, k.metric, k.ts, z.next(k.ts))
  {
    assert Cell(w.t.day, k.metric, k.ts) == Bucket(w.Src(), k.metric, k.ts, z);
    TotalDescribes(w.ever, k.metric, k.ts, z.next(k.ts));
  }

  /**
   In one timezone, whatever the policies, each stored daily row counts the samples of exactly its local day, with their
   mean, least and greatest value; and with days kept for ever no day before `until` that has samples misses its row.
   */
  lemma DailyRowsDescribe(events: seq<Event>, z: Zone)
    requires ValidZone(z) && Happens(START, events) && OneZone(events, z)
    ensures var w := Play(START, events);
            forall k :: k in w.t.day ==>
              z.start(k.ts) == k.ts && Describes(w.t.day[k], w.ever, k.metric, k.ts, z.next(k.ts))
    ensures var w := Play(START, events);
            KeepsDays(events) && w.t.until.Some? ==>
              forall k :: k in w.ever && k.ts < w.t.until.value ==> Key(k.metric, z.start(k.ts)) in w.t.day
  {
    var w := Play(START, events);
    StartInv();
    PlayDays(START, events, z, false);
    forall k | k in w.t.day
      ensures Aligned(z, k.ts) && Describes(w.t.day[k], w.ever, k.metric, k.ts, z.next(k.ts))
    {
      DayDescribes(w, z, false, k);
    }
    if KeepsDays(events) && w.t.until.Some? {
      PlayDays(START, events, z, true);
      forall k | k in w.ever && k.ts < w.t.until.value
        ensures Key(k.metric, z.start(k.ts)) in w.t.day
      {
        var d := z.start(k.ts);
        StartIsAligned(z, k.ts);
        TotalFinds(w.Src(), k.metric, d, z.next(d), k.ts);
        assert Cell(w.t.day, k.metric, d) == Bucket(w.Src(), k.metric, d, z);
      }
    }
  }
}
