/** A retention lengthened between two runs: the run that makes an hour's row anew from half of its samples. */
module RollupWitness {
  import opened Results
  import opened Totals
  import opened Rollup
  import opened RollupSafety
  import opened RollupHistory
  import opened RollupTheorems
  import opened RollupExactly

  /** A timezone whose days are those of the epoch. */
  const DAYS: Zone := Grid(ts => Floor(ts, DAY), start => start + DAY)

  lemma DaysAreLocal()
    ensures ValidZone(DAYS)
  {
    forall t, u | DAYS.start(t) <= u < DAYS.next(DAYS.start(t))
      ensures DAYS.start(u) == DAYS.start(t)
    {
      FloorUnique(t, u, DAY);
    }
    forall t
      ensures Aligned(MINUTES, DAYS.start(t))
    {
      DayOnMinutes(t);
    }
  }

  lemma DayOnMinutes(t: int)
    ensures Aligned(MINUTES, Floor(t, DAY))
  {
    var q := t / DAY;
    assert Floor(t, DAY) == q * DAY == 1440 * q * MIN;
    DivUnique(q * DAY, 1440 * q, MIN);
  }

  lemma FirstEvent(w: World, e: Event, rest: seq<Event>)
    requires Admissible(w, e) && Happens(Next(w, e), rest)
    ensures Happens(w, [e] + rest) && Play(w, [e] + rest) == Play(Next(w, e), rest)
    ensures ExactThroughout(w, [e] + rest) <==> Exact(w) && ExactThroughout(Next(w, e), rest)
  {
    assert ([e] + rest)[1..] == rest;
  }

  /** Two samples of one hour, half an hour apart, are all there is. */
  ghost predicate TwoSamples(w: World, a: int, b: int, v: real) {
    && Inv(w) && Exact(w) && w.now == 0 && w.rawFrom == FLOOR && w.minuteFrom == FLOOR && w.hourFrom == FLOOR
    && w.ever == map[Key(0, a) := v, Key(0, b) := v]
  }

  lemma Inserted(a: int, b: int, v: real) returns (w: World)
    requires 0 <= a < b
    ensures w == AfterInsert(AfterInsert(START, 0, a, v), 0, b, v) && TwoSamples(w, a, b, v)
  {
    StartInv();
    assert Exact(START);
    assert START.Minutes() <= 0 by { FixedGrids(); }
    InsertKeeps(START, 0, a, v);
    InsertExact(START, 0, a, v);
    var u := AfterInsert(START, 0, a, v);
    InsertKeeps(u, 0, b, v);
    InsertExact(u, 0, b, v);
    w := AfterInsert(u, 0, b, v);
  }

  /** All that a first run leaves: the later minute's row and its sample. */
  ghost predicate HalfLeft(w: World, h: int, a: int, b: int) {
    && Inv(w) && Exact(w) && Key(0, a) in w.ever && Key(0, b) in w.ever
    && Key(0, a) !in w.t.raw && Key(0, MINUTES.start(a)) !in w.t.minute && Key(0, MINUTES.start(b)) in w.t.minute
    && NewestBefore(w.t.hour, h + HOUR) == None
  }

  /** The hours begin again at the hour of the oldest minute left. */
  lemma HourIsMadeAgain(t: Tables, h: int, x: int, now: int)
    requires Key(0, x) in t.minute && h <= x < h + HOUR && Aligned(HOURS, h) && NewestBefore(t.hour, h + HOUR) == None
    requires HOURS.start(MINUTES.start(now)) == h + HOUR && (forall k :: k in t.minute ==> Aligned(MINUTES, k.ts))
    ensures RollsHour(t, now, h)
  {
    FixedGrids();
    StartIsAligned(MINUTES, now);
    RolledRows(t.minute, Samples(t.raw), MINUTES, MINUTES.start(now), Key(0, x));
    RestartsBy(t.hour, MinutesAfter(t, now), HOURS, h + HOUR, h, x);
  }

  lemma RestartsBy(t: Table, source: Table, g: Grid, end: int, h: int, x: int)
    requires ValidGrid(g) && Aligned(g, h) && h <= x < g.next(h) && h < end
    requires Key(0, x) in source && NewestBefore(t, end) == None
    ensures Rolls(t, source, g, end, h)
  {
    var oldest := Oldest(source).value;
    assert g.start(h) == h;
    assert g.start(x) == h;
    StartGrows(g, oldest, x);
  }

  lemma HalfIsTorn(w: World, h: int, a: int, b: int, now: int)
    requires HalfLeft(w, h, a, b) && Aligned(HOURS, h) && h <= a < b < h + HOUR
    requires HOURS.start(MINUTES.start(now)) == h + HOUR && MINUTES.start(a) != MINUTES.start(b)
    ensures TornHour(w, now, 0, h) && Counted(w.t, now, 0, b) && !Counted(w.t, now, 0, a)
  {
    FixedGrids();
    HoursOnMinutes(h);
    StartGrows(MINUTES, h, b);
    HourIsMadeAgain(w.t, h, MINUTES.start(b), now);
    assert Counted(w.t, now, 0, b);
    assert !Counted(w.t, now, 0, a);
  }

  /** One row of a range is its total. */
  lemma OneTotal(t: Table, m: nat, a: int, b: int, ts: int)
    requires a <= ts < b && forall x :: a <= x < b && x != ts ==> Key(m, x) !in t
    ensures Total(t, m, a, b) == Cell(t, m, ts)
  {
    TotalEmpty(t, m, a, ts);
    TotalEmpty(t, m, ts + 1, b);
    TotalSplits(t, m, a, ts, b);
    TotalSplits(t, m, ts, ts + 1, b);
    assert Total(t, m, ts, ts + 1) == Plus(Total(t, m, ts, ts), Cell(t, m, ts));
  }

  lemma OneCounts(t: Table, a: int, b: int, ts: int)
    requires a <= ts < b && Key(0, ts) in t && t[Key(0, ts)].count == 1
    requires forall k :: k in t && a <= k.ts < b ==> k.ts == ts
    ensures Total(t, 0, a, b).Part? && Total(t, 0, a, b).count == 1
  {
    OneTotal(t, 0, a, b, ts);
  }

  lemma TwoCount(t: Table, a: int, b: int, end: int, first: int)
    requires a <= first < b < end && Key(0, first) in t && Key(0, b) in t
    requires t[Key(0, first)].count == 1 && t[Key(0, b)].count == 1
    requires forall k :: k in t ==> k.ts == first || k.ts == b
    ensures Total(t, 0, a, end).Part? && Total(t, 0, a, end).count == 2
  {
    OneCounts(t, a, b, first);
    OneCounts(t, b, end, b);
    TotalSplits(t, 0, a, b, end);
  }

  /** An hour row that a run makes is made of the samples that its minutes count. */
  lemma MadeOf(w: World, now: int, m: nat, h: int)
    requires Inv(w) && Exact(w) && now >= w.now && Aligned(HOURS, h) && RollsHour(w.t, now, h)
    requires Bucket(Samples(Counts(w, now)), m, h, HOURS) != Empty
    ensures Key(m, h) in HoursAfter(w.t, now)
    ensures HoursAfter(w.t, now)[Key(m, h)] == RowOf(Bucket(Samples(Counts(w, now)), m, h, HOURS))
  {
    FixedGrids();
    StartIsAligned(HOURS, MINUTES.start(now));
    HourCounts(w, now, m, h);
    RolledRows(w.t.hour, MinutesAfter(w.t, now), HOURS, HOURS.start(MINUTES.start(now)), Key(m, h));
  }

  /** The hour has two samples, of which the run counts one. */
  lemma HalfIsCounted(w: World, h: int, a: int, b: int, v: real, now: int)
    requires w.ever == map[Key(0, a) := v, Key(0, b) := v] && h <= a < b < h + HOUR
    requires Counted(w.t, now, 0, b) && !Counted(w.t, now, 0, a)
    ensures Total(w.Src(), 0, h, h + HOUR).Part? && Total(w.Src(), 0, h, h + HOUR).count == 2
    ensures var p := Total(Samples(Counts(w, now)), 0, h, h + HOUR); p.Part? && p.count == 1
  {
    TwoCount(w.Src(), h, b, h + HOUR, a);
    OnlyOneCounted(w, a, b, v, now);
    OneCounts(Samples(Counts(w, now)), h, h + HOUR, b);
  }

  lemma OnlyOneCounted(w: World, a: int, b: int, v: real, now: int)
    requires w.ever == map[Key(0, a) := v, Key(0, b) := v] && a < b
    requires Counted(w.t, now, 0, b) && !Counted(w.t, now, 0, a)
    ensures Key(0, b) in Counts(w, now) && forall k :: k in Counts(w, now) ==> k == Key(0, b)
  {
  }

  /** The second run makes a row of the hour, of which it counts one sample and not the other. */
  lemma SecondRun(w: World, h: int, a: int, b: int, now: int, keep: Policy, z: Zone)
    requires HalfLeft(w, h, a, b) && now >= w.now && ValidZone(z)
    requires Aligned(HOURS, h) && h <= a < b < h + HOUR && MINUTES.start(a) != MINUTES.start(b)
    requires HOURS.start(MINUTES.start(now)) == h + HOUR && KeptFrom(keep.hour, HourCut(now, keep.hour), h)
    ensures !Exact(AfterRun(w, now, keep, z))
  {
    HalfIsTorn(w, h, a, b, now);
    RunExactIff(w, now, keep, z);
    assert Tears(w, now, keep, z);
  }

  /** The hour's row stands for one sample, and the hour has two. */
  ghost predicate HalfStored(w: World, h: int) {
    && Key(0, h) in w.t.hour && w.t.hour[Key(0, h)].count == 1
    && Bucket(w.Src(), 0, h, HOURS).Part? && Bucket(w.Src(), 0, h, HOURS).count == 2
  }

  lemma SecondRow(w: World, h: int, a: int, b: int, v: real, now: int, keep: Policy, z: Zone)
    requires HalfLeft(w, h, a, b) && w.ever == map[Key(0, a) := v, Key(0, b) := v] && now >= w.now && ValidZone(z)
    requires Aligned(HOURS, h) && h <= a < b < h + HOUR && MINUTES.start(a) != MINUTES.start(b)
    requires HOURS.start(MINUTES.start(now)) == h + HOUR && KeptFrom(keep.hour, HourCut(now, keep.hour), h)
    ensures HalfStored(AfterRun(w, now, keep, z), h)
  {
    HalfIsTorn(w, h, a, b, now);
    HalfIsCounted(w, h, a, b, v, now);
    MadeOf(w, now, 0, h);
    AfterRunTables(w, now, keep, z);
  }

  /** A first run keeps every row exact. */
  lemma FirstIsExact(w: World, now: int, keep: Policy, z: Zone)
    requires Inv(w) && now >= w.now && ValidZone(z) && w.minuteFrom == FLOOR && w.hourFrom == FLOOR
    ensures Inv(AfterRun(w, now, keep, z)) && Exact(AfterRun(w, now, keep, z))
  {
    var u := AfterRun(w, now, keep, z);
    FixedGrids();
    RunKeeps(w, now, keep, z);
    RunWatches(w, now, keep, z);
    ExactRows(u.t.minute, u.Src(), MINUTES, u.minuteFrom, u.Minutes());
    ExactRows(u.t.hour, u.Src(), HOURS, u.hourFrom, u.Hours());
  }

  /** Where a retention that reaches back to `cut`, within the last closed hour, deletes up to. */
  lemma CutsAt(now: int, keep: Keep, z: Zone, end: int, cut: int)
    requires keep == For(now - cut) && HOURS.start(MINUTES.start(now)) == end == z.start(MINUTES.start(now))
             && cut <= end
    ensures RawCut(now, keep) == cut && MinuteCut(now, keep, z) == cut && HourCut(now, keep) == cut
  {
    FixedGrids();
    assert HOURS.start(MINUTES.start(now)) <= MINUTES.start(now);
  }

  lemma FirstMinutes(w: World, k: Key, now: int)
    requires Inv(w) && w.minuteFrom == FLOOR && now >= w.now && k in w.ever && k.ts < MINUTES.start(now)
    ensures Key(k.metric, MINUTES.start(k.ts)) in MinutesAfter(w.t, now)
  {
    FixedGrids();
    RunMinutes(w, now);
    StartGrows(MINUTES, 0, k.ts);
    SampleHasMinute(MinutesAfter(w.t, now), w.Src(), FLOOR, MINUTES.start(now), k.metric, k.ts);
  }

  lemma NoHourLeft(w: World, now: int, h: int, cut: int)
    requires Inv(w) && now >= w.now && HOURS.start(MINUTES.start(now)) == h + HOUR && Aligned(HOURS, h) && h < cut
    ensures NewestBefore(Since(HoursAfter(w.t, now), cut), h + HOUR) == None
  {
    FixedGrids();
    RunHours(w, now);
    forall k | k in HoursAfter(w.t, now)
      ensures k.ts <= h
    {
      if h < k.ts { Apart(HOURS, h, k.ts); }
    }
  }

  /** The first run, under a retention that reaches into the hour: only what came after is left. */
  lemma FirstRun(w: World, h: int, a: int, b: int, v: real, now: int, keep: Policy, z: Zone, cut: int)
    requires TwoSamples(w, a, b, v) && now >= 0 && ValidZone(z) && Aligned(HOURS, h) && h <= a < cut <= MINUTES.start(b)
    requires HOURS.start(MINUTES.start(now)) == h + HOUR == z.start(MINUTES.start(now)) && b < h + HOUR
    requires keep.raw == keep.minute == keep.hour == For(now - cut)
    ensures HalfLeft(AfterRun(w, now, keep, z), h, a, b)
  {
    FixedGrids();
    FirstIsExact(w, now, keep, z);
    CutsAt(now, keep.raw, z, h + HOUR, cut);
    AfterRunTables(w, now, keep, z);
    FirstMinutes(w, Key(0, b), now);
    NoHourLeft(w, now, h, cut);
    RunLeaves(w, AfterRun(w, now, keep, z), h, a, b, cut, MinutesAfter(w.t, now), HoursAfter(w.t, now));
  }

  lemma RunLeaves(w: World, u: World, h: int, a: int, b: int, cut: int, minute: Table, hour: Table)
    requires Key(0, a) in w.ever && Key(0, b) in w.ever && u.ever == w.ever && a < cut <= MINUTES.start(b)
    requires Inv(u) && Exact(u) && u.rawFrom == cut
    requires u.t.minute == Since(minute, cut) && u.t.hour == Since(hour, cut)
    requires Key(0, MINUTES.start(b)) in minute && NewestBefore(Since(hour, cut), h + HOUR) == None
    ensures HalfLeft(u, h, a, b)
  {
    FixedGrids();
  }

  lemma TwoEvents(w: World, e: Event, f: Event)
    requires Admissible(w, e) && Admissible(Next(w, e), f)
    ensures Happens(w, [e, f]) && Play(w, [e, f]) == Next(Next(w, e), f)
    ensures ExactThroughout(w, [e, f]) ==> Exact(Next(Next(w, e), f))
  {
    FirstEvent(Next(w, e), f, []);
    FirstEvent(w, e, [f]);
    assert [f] + [] == [f] && [e] + [f] == [e, f];
  }

  /** Four events in a row. */
  lemma FourEvents(w: World, e: Event, f: Event, u: World, last: seq<Event>, v: World)
    requires Admissible(w, e) && Admissible(Next(w, e), f) && u == Next(Next(w, e), f)
    requires Happens(u, last) && Play(u, last) == v && (ExactThroughout(u, last) ==> Exact(v)) && |last| == 2
    ensures Happens(w, [e, f, last[0], last[1]]) && Play(w, [e, f, last[0], last[1]]) == v
    ensures ExactThroughout(w, [e, f, last[0], last[1]]) ==> Exact(v)
  {
    FirstEvent(Next(w, e), f, last);
    FirstEvent(w, e, [f] + last);
    assert [e] + ([f] + last) == [e, f, last[0], last[1]];
  }

  lemma HalfOfAnHour(h: int, a: int, b: int, v: real, now: int, keep: Policy, later: int, longer: Policy, z: Zone,
                     cut: int)
    requires ValidZone(z) && Aligned(HOURS, h) && 0 <= h <= a < cut <= MINUTES.start(b) && b < h + HOUR
    requires HOURS.start(MINUTES.start(now)) == h + HOUR == z.start(MINUTES.start(now)) && 0 <= now <= later
    requires keep.raw == keep.minute == keep.hour == For(now - cut)
    requires HOURS.start(MINUTES.start(later)) == h + HOUR && KeptFrom(longer.hour, HourCut(later, longer.hour), h)
    ensures var events := [Insert(0, a, v), Insert(0, b, v), Run(now, keep, z), Run(later, longer, z)];
            Happens(START, events) && !ExactThroughout(START, events) && HalfStored(Play(START, events), h)
  {
    FixedGrids();
    var w := Inserted(a, b, v);
    FirstRun(w, h, a, b, v, now, keep, z, cut);
    SecondRun(AfterRun(w, now, keep, z), h, a, b, later, longer, z);
    SecondRow(AfterRun(w, now, keep, z), h, a, b, v, later, longer, z);
    var u := AfterRun(AfterRun(w, now, keep, z), later, longer, z);
    TwoEvents(w, Run(now, keep, z), Run(later, longer, z));
    FourEvents(START, Insert(0, a, v), Insert(0, b, v), w, [Run(now, keep, z), Run(later, longer, z)], u);
  }

  const ONE_HOUR: Keep := For(HOUR)

  /** 23:00:01, 23:30, 00:05 and 00:06 of the epoch's first night. */
  lemma TheNight(h: int)
    requires h == 23 * HOUR
    ensures Aligned(HOURS, h) && MINUTES.start(h + 30 * MIN) == h + 30 * MIN
    ensures HOURS.start(MINUTES.start(h + 65 * MIN)) == h + HOUR && HOURS.start(MINUTES.start(h + 66 * MIN)) == h + HOUR
    ensures DAYS.start(MINUTES.start(h + 65 * MIN)) == h + HOUR
  {
    DivUnique(h, 23, HOUR);
    DivUnique(h + 30 * MIN, 23 * 60 + 30, MIN);
    DivUnique(h + 65 * MIN, 23 * 60 + 65, MIN);
    DivUnique(h + 66 * MIN, 23 * 60 + 66, MIN);
    DivUnique(h + 65 * MIN, 24, HOUR);
    DivUnique(h + 66 * MIN, 24, HOUR);
    DivUnique(h + 65 * MIN, 1, DAY);
  }

  /**
   Samples at 23:00:01 and 23:30, a run at 00:05 that keeps everything but days for an hour, and a run at 00:06
   that keeps hours for a year: the second run finds no hours, begins at the oldest minute left, 23:30, and
   makes the row of 23:00 from it alone.
   */
  lemma LongerRetentionTears(v: real, h: int)
    requires h == 23 * HOUR
    ensures var events := [Insert(0, h + 1000, v), Insert(0, h + 30 * MIN, v),
                           Run(h + 65 * MIN, Policy(ONE_HOUR, ONE_HOUR, ONE_HOUR, Forever), DAYS),
                           Run(h + 66 * MIN, Policy(ONE_HOUR, ONE_HOUR, For(365 * DAY), Forever), DAYS)];
            Happens(START, events) && !ExactThroughout(START, events) && HalfStored(Play(START, events), h)
  {
    TheNight(h);
    DaysAreLocal();
    HalfOfAnHour(h, h + 1000, h + 30 * MIN, v, h + 65 * MIN, Policy(ONE_HOUR, ONE_HOUR, ONE_HOUR, Forever),
                 h + 66 * MIN, Policy(ONE_HOUR, ONE_HOUR, For(365 * DAY), Forever), DAYS, h + 5 * MIN);
  }
}
