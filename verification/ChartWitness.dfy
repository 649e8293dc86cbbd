/** A chart that misses an hour: it reads hours as whole, though the last run deleted one of them. */
module ChartWitness {
  import opened Results
  import opened Totals
  import opened Rollup
  import opened RollupSafety
  import opened RollupHistory
  import opened RollupTheorems
  import opened RollupExactly
  import opened RollupWitness
  import opened Charts

  ghost predicate OneSample(w: World, s: int, v: real) {
    && Inv(w) && w.now == 0 && w.rawFrom == FLOOR && w.minuteFrom == FLOOR && w.hourFrom == FLOOR && w.t.until == None
    && w.ever == map[Key(0, s) := v] && w.t.day == map[]
  }

  lemma Sampled(s: int, v: real) returns (w: World)
    requires 0 <= s
    ensures w == AfterInsert(START, 0, s, v) && OneSample(w, s, v)
  {
    StartInv();
    assert START.Minutes() <= 0 by { FixedGrids(); }
    InsertKeeps(START, 0, s, v);
    w := AfterInsert(START, 0, s, v);
  }

  /** The tables after a run that cut the sample itself and its hour, but not yet its minute. */
  ghost predicate MinuteLeft(w: World, h: int, s: int) {
    && w.t.raw == map[] && w.t.hour == map[] && w.t.day == map[]
    && Key(0, s) in w.t.minute && (forall k :: k in w.t.minute ==> s <= k.ts)
    && Bucket(w.Src(), 0, h, HOURS) != Empty
  }

  /** The chart then answers in hours, and the hour is not there. */
  lemma AnswersHours(w: World, h: int, s: int, now: int, keep: Policy)
    requires MinuteLeft(w, h, s) && keep.raw == keep.minute == For(HOUR) && keep.hour.For?
    requires h <= s < now - HOUR && h < now - keep.hour.ms <= s
    ensures ChooseResolution(w.t, 0, h, now, now, keep) == Hour
  {
    var oldest := OldestTs(w.t, 0);
    assert Stored(w.t, Key(0, s));
    assert s <= oldest.value;
    assert Points(w.t.hour, 0, h, now) == {};
  }

  lemma HourIsLost(w: World, h: int, s: int, keep: Policy)
    requires MinuteLeft(w, h, s) && Aligned(HOURS, h)
    ensures !RowExact(w.t.hour, w.Src(), HOURS, 0, h)
  {
  }

  /** Rows have samples: there is a row for the one sample only. */
  lemma OnlyRow(t: Table, w: World, s: int, v: real, g: Grid, e: int, k: Key)
    requires OneSample(w, s, v) && ValidGrid(g) && Grounded(t, w.Src(), g, e) && k in t
    ensures k.ts == g.start(s)
  {
    var at := TotalFound(w.Src(), k.metric, k.ts, g.next(k.ts));
    assert Key(k.metric, at) in w.ever;
    assert g.start(k.ts) == k.ts;
  }

  lemma OnlyMinute(w: World, s: int, v: real, now: int)
    requires OneSample(w, s, v) && Aligned(MINUTES, s) && 0 <= s < MINUTES.start(now) && now >= 0
    ensures Key(0, s) in MinutesAfter(w.t, now) && forall k :: k in MinutesAfter(w.t, now) ==> k.ts == s
  {
    FixedGrids();
    FirstMinutes(w, Key(0, s), now);
    RunMinutes(w, now);
    forall k | k in MinutesAfter(w.t, now)
      ensures k.ts == s
    {
      OnlyRow(MinutesAfter(w.t, now), w, s, v, MINUTES, MINUTES.start(now), k);
    }
  }

  lemma OnlyHour(w: World, h: int, s: int, v: real, now: int)
    requires OneSample(w, s, v) && Aligned(HOURS, h) && h <= s < h + HOUR && now >= 0
    ensures Bucket(w.Src(), 0, h, HOURS) != Empty && forall k :: k in HoursAfter(w.t, now) ==> k.ts == h
  {
    FixedGrids();
    RunHours(w, now);
    TotalFinds(w.Src(), 0, h, HOURS.next(h), s);
    assert HOURS.start(h) == h;
    assert HOURS.start(s) == h;
    forall k | k in HoursAfter(w.t, now)
      ensures k.ts == h
    {
      OnlyRow(HoursAfter(w.t, now), w, s, v, HOURS, HOURS.start(MINUTES.start(now)), k);
    }
  }

  /** On the first day there are no closed days. */
  lemma NoDayYet(w: World, s: int, v: real, now: int, z: Zone)
    requires OneSample(w, s, v) && Aligned(MINUTES, s) && 0 <= s < MINUTES.start(now) && now >= 0 && ValidZone(z)
    requires z.start(MINUTES.start(now)) == 0
    ensures Rolled(w.t, now, z).day == map[]
  {
    OnlyMinute(w, s, v, now);
    RolledTables(w.t, now, z);
    var t := w.t.(minute := MinutesAfter(w.t, now), hour := HoursAfter(w.t, now));
    StartGrows(z, 0, s);
    assert z.start(0) == 0;
    NoDayStarts(t, 0, z, s);
    assert Rolled(w.t, now, z) == RollDays(t, 0, z);
  }

  lemma NoDayStarts(t: Tables, end: int, z: Zone, s: int)
    requires ValidZone(z) && t.until == None && t.day == map[] && end <= z.start(s)
             && forall k :: k in t.minute ==> k.ts == s
    ensures RollDays(t, end, z) == t
  {
  }

  lemma RunLeft(w: World, u: World, h: int, s: int, v: real, now: int, cut: int, minute: Table, to: int, hour: Table)
    requires OneSample(w, s, v) && 0 <= s < now - HOUR && h < cut
    requires Inv(u) && u.ever == w.ever && u.rawFrom == now - HOUR
    requires u.t.minute == Since(minute, to) && to <= 0 && Key(0, s) in minute && forall k :: k in minute ==> k.ts == s
    requires u.t.hour == Since(hour, cut) && forall k :: k in hour ==> k.ts == h
    requires u.t.day == map[] && Bucket(w.Src(), 0, h, HOURS) != Empty
    ensures MinuteLeft(u, h, s)
  {
    assert u.t.raw == map[];
    assert u.t.hour == map[];
  }

  /** How far the run deletes. */
  lemma DeletesTo(w: World, s: int, v: real, now: int, keep: Policy, z: Zone)
    requires OneSample(w, s, v) && ValidZone(z) && keep.raw == For(HOUR) && keep.day.Forever? && now > 0
    requires MINUTES.start(now) == now && z.start(now) == 0
    ensures var u := AfterRun(w, now, keep, z);
            u.rawFrom == now - HOUR && u.ever == w.ever && u.t.day == Rolled(w.t, now, z).day
    ensures MinuteCut(now, keep.minute, z) <= 0
  {
    RawGoes(w, now, keep, z);
  }

  lemma RawGoes(w: World, now: int, keep: Policy, z: Zone)
    requires ValidZone(z) && keep.raw.For? && keep.day.Forever?
    ensures var u := AfterRun(w, now, keep, z);
            u.rawFrom == Greater(w.rawFrom, RawCut(now, keep.raw)) && u.ever == w.ever
                && u.t.day == Rolled(w.t, now, z).day
  {
  }

  lemma FirstTables(w: World, s: int, v: real, now: int, keep: Policy, z: Zone) returns (u: World)
    requires OneSample(w, s, v) && ValidZone(z) && Aligned(MINUTES, s) && 0 <= s < now
    requires MINUTES.start(now) == now && z.start(now) == 0
    requires keep.raw == For(HOUR) && keep.minute.For? && keep.hour.For? && keep.day.Forever?
    ensures u == AfterRun(w, now, keep, z) && Inv(u) && u.rawFrom == now - HOUR && u.ever == w.ever && u.t.day == map[]
    ensures u.t.minute == Since(MinutesAfter(w.t, now), MinuteCut(now, keep.minute, z))
            && MinuteCut(now, keep.minute, z) <= 0
    ensures u.t.hour == Since(HoursAfter(w.t, now), HourCut(now, keep.hour))
  {
    u := AfterRun(w, now, keep, z);
    RunKeeps(w, now, keep, z);
    AfterRunTables(w, now, keep, z);
    NoDayYet(w, s, v, now, z);
    DeletesTo(w, s, v, now, keep, z);
  }

  /** The first run after a sample at `s`, a whole minute into its hour. */
  lemma RunLeavesMinute(w: World, h: int, s: int, v: real, now: int, keep: Policy, z: Zone, cut: int)
    requires OneSample(w, s, v) && ValidZone(z) && Aligned(HOURS, h) && Aligned(MINUTES, s)
             && 0 <= h < cut <= s < h + HOUR
    requires MINUTES.start(now) == now && z.start(now) == 0 && s < now - HOUR
    requires keep.raw == For(HOUR) && keep.minute == For(HOUR) && keep.hour == For(now - cut) && keep.day.Forever?
    ensures MinuteLeft(AfterRun(w, now, keep, z), h, s)
  {
    var u := FirstTables(w, s, v, now, keep, z);
    OnlyMinute(w, s, v, now);
    OnlyHour(w, h, s, v, now);
    var to := MinuteCut(now, keep.minute, z);
    RunLeft(w, u, h, s, v, now, HourCut(now, keep.hour), MinutesAfter(w.t, now), to, HoursAfter(w.t, now));
  }

  /** A chart from the hour of the sample on, drawn at the time of the run. */
  lemma MissesTheHour(h: int, s: int, v: real, now: int, keep: Policy, z: Zone, cut: int)
    requires ValidZone(z) && Aligned(HOURS, h) && Aligned(MINUTES, s) && 0 <= h < cut <= s < h + HOUR
    requires MINUTES.start(now) == now && z.start(now) == 0 && s < now - HOUR
    requires keep.raw == For(HOUR) && keep.minute == For(HOUR) && keep.hour == For(now - cut) && keep.day.Forever?
    ensures var events := [Insert(0, s, v), Run(now, keep, z)];
            && Happens(START, events)
            && var w := Play(START, events);
               && w.now == now && HourLost(w, 0, h, keep.hour) && !RowExact(w.t.hour, w.Src(), HOURS, 0, h)
               && ChooseResolution(w.t, 0, h, now, now, keep) == Hour
  {
    var w := Sampled(s, v);
    RunLeavesMinute(w, h, s, v, now, keep, z, cut);
    var u := AfterRun(w, now, keep, z);
    AnswersHours(u, h, s, now, keep);
    HourIsLost(u, h, s, keep);
    TwoEvents(START, Insert(0, s, v), Run(now, keep, z));
  }

  lemma OneRun(e: Event, f: Event, keep: Policy, z: Zone)
    requires e.Insert? && f.Run? && f.keep == keep && f.z == z
    ensures OnePolicy([e, f], keep, z)
  {
  }

  lemma HoursAt(w: World, now: int)
    requires w.now == now && MINUTES.start(now) == now == HOURS.start(now)
    ensures w.Hours() == now
  {
  }

  lemma TheMorning(h: int, s: int, now: int)
    requires h == 10 * HOUR && s == h + 30 * MIN && now == h + 2 * HOUR
    ensures Aligned(HOURS, h) && Aligned(MINUTES, s)
    ensures MINUTES.start(now) == now == HOURS.start(now) && DAYS.start(now) == 0
  {
    DivUnique(h, 10, HOUR);
    DivUnique(s, 10 * 60 + 30, MIN);
    DivUnique(now, 12 * 60, MIN);
    DivUnique(now, 12, HOUR);
    DivUnique(now, 0, DAY);
  }

  /**
   A sample at 10:30 and a run at 12:00 that keeps raw and minutes for an hour, hours for an hour and three
   quarters: the sample's minute stays until its day closes, so the oldest row, 10:30, is later than the hours'
   cutoff, 10:15. A chart of 10:00 to 12:00 is answered in hours, and the hour of 10:00 has been deleted.
   */
  lemma ChartMissesHour(v: real, h: int, s: int, now: int, keep: Policy)
    requires h == 10 * HOUR && s == h + 30 * MIN && now == h + 2 * HOUR
    requires keep == Policy(For(HOUR), For(HOUR), For(105 * MIN), Forever)
    ensures var events := [Insert(0, s, v), Run(now, keep, DAYS)];
            && Happens(START, events) && OnePolicy(events, keep, DAYS)
            && var w := Play(START, events);
               && w.now == now == w.Hours() && HourLost(w, 0, h, keep.hour)
               && ChooseResolution(w.t, 0, h, now, now, keep) == Hour
               && !RowExact(w.t.hour, w.Src(), HOURS, 0, h)
  {
    TheMorning(h, s, now);
    DaysAreLocal();
    MissesTheHour(h, s, v, now, keep, DAYS, h + 15 * MIN);
    OneRun(Insert(0, s, v), Run(now, keep, DAYS), keep, DAYS);
    HoursAt(Play(START, [Insert(0, s, v), Run(now, keep, DAYS)]), now);
  }
}
