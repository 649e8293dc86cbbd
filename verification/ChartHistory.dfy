/** Charts after any history of policies: exactly when one is whole, and that only a longer cut before it matters. */
module ChartHistory {
  import opened Results
  import opened Totals
  import opened Rollup
  import opened RollupSafety
  import opened RollupHistory
  import opened RollupTheorems
  import opened RollupExactly
  import opened RollupTears
  import opened RollupWitness
  import opened Charts
  import opened ChartWitness

  /** The table has a row of the metric at or before this time. */
  predicate Begins(t: Table, m: nat, ts: int) { exists k :: k in t && k.metric == m && k.ts <= ts }

  /** A closed bucket that has samples. */
  predicate Filled(src: Table, g: Grid, m: nat, ts: int) { Aligned(g, ts) && Bucket(src, m, ts, g) != Empty }

  // ---- one level -----------------------------------------------------------------------------------------

  /** A stored sample is one that comes no earlier than the metric's oldest. */
  lemma RawShows(w: World, m: nat, ts: int)
    requires Inv(w) && Key(m, ts) in w.ever
    ensures Key(m, ts) in w.t.raw <==> Begins(Samples(w.t.raw), m, ts)
    ensures Key(m, ts) in w.t.raw ==> w.t.raw[Key(m, ts)] == w.ever[Key(m, ts)]
  {
    if Key(m, ts) in w.t.raw { assert Key(m, ts) in Samples(w.t.raw); }
  }

  /** A level without holes and with exact rows shows a filled bucket if and only if it begins there or before. */
  lemma LevelShows(t: Table, src: Table, g: Grid, e: int, m: nat, ts: int)
    requires ValidGrid(g) && Aligned(g, e) && ts < e && Solid(t, src, g, e) && RowsExact(t, src, g)
             && Grounded(t, src, g, e)
    ensures RowExact(t, src, g, m, ts) <==> Filled(src, g, m, ts) ==> Begins(t, m, ts)
  {
    if Filled(src, g, m, ts) && Begins(t, m, ts) { FilledHasRow(t, src, g, e, m, ts); }
  }

  lemma FilledHasRow(t: Table, src: Table, g: Grid, e: int, m: nat, ts: int)
    requires ValidGrid(g) && Aligned(g, e) && ts < e && Solid(t, src, g, e)
    requires Filled(src, g, m, ts) && Begins(t, m, ts)
    ensures Key(m, ts) in t
  {
    var r :| r in t && r.metric == m && r.ts <= ts;
    var at := TotalFound(src, m, ts, g.next(ts));
    Apart(g, ts, e);
    assert g.start(ts) == ts;
    assert g.start(at) == ts;
    if r.ts < ts { assert Has(t, g, Key(m, at)); } else { assert r == Key(m, ts); }
  }

  // ---- a whole chart ---------------------------------------------------------------------------------------

  /** Every sample, or every closed bucket, of the window is there as it should be. */
  ghost predicate Whole(w: World, level: Level, m: nat, from: int, to: int) {
    match level
    case Raw => forall ts :: from <= ts <= to && Key(m, ts) in w.ever ==>
                  Key(m, ts) in w.t.raw && w.t.raw[Key(m, ts)] == w.ever[Key(m, ts)]
    case Minute => forall ts :: from <= ts <= to && ts < w.Minutes() ==> RowExact(w.t.minute, w.Src(), MINUTES, m, ts)
    case Hour => forall ts :: from <= ts <= to && ts < w.Hours() ==> RowExact(w.t.hour, w.Src(), HOURS, m, ts)
    case Day => true
  }

  /** The level begins no later than what there is to see in the window. */
  ghost predicate BeginsInTime(w: World, level: Level, m: nat, from: int, to: int) {
    match level
    case Raw => forall ts :: from <= ts <= to && Key(m, ts) in w.ever ==> Begins(Samples(w.t.raw), m, ts)
    case Minute => forall ts :: from <= ts <= to && ts < w.Minutes() && Filled(w.Src(), MINUTES, m, ts) ==>
                     Begins(w.t.minute, m, ts)
    case Hour => forall ts :: from <= ts <= to && ts < w.Hours() && Filled(w.Src(), HOURS, m, ts) ==>
                   Begins(w.t.hour, m, ts)
    case Day => true
  }

  lemma MinuteShows(w: World, m: nat, ts: int)
    requires Inv(w) && NoHoles(w) && Exact(w) && ts < w.Minutes()
    ensures RowExact(w.t.minute, w.Src(), MINUTES, m, ts) <==>
              Filled(w.Src(), MINUTES, m, ts) ==> Begins(w.t.minute, m, ts)
  {
    FixedGrids();
    Ends(w);
    LevelShows(w.t.minute, w.Src(), MINUTES, w.Minutes(), m, ts);
  }

  lemma HourShows(w: World, m: nat, ts: int)
    requires Inv(w) && NoHoles(w) && Exact(w) && ts < w.Hours()
    ensures RowExact(w.t.hour, w.Src(), HOURS, m, ts) <==> Filled(w.Src(), HOURS, m, ts) ==> Begins(w.t.hour, m, ts)
  {
    FixedGrids();
    Ends(w);
    LevelShows(w.t.hour, w.Src(), HOURS, w.Hours(), m, ts);
  }

  lemma WholeIff(w: World, level: Level, m: nat, from: int, to: int)
    requires Inv(w) && NoHoles(w) && Exact(w)
    ensures Whole(w, level, m, from, to) <==> BeginsInTime(w, level, m, from, to)
  {
    match level
    case Raw => forall ts | Key(m, ts) in w.ever { RawShows(w, m, ts); }
    case Minute => forall ts | ts < w.Minutes() { MinuteShows(w, m, ts); }
    case Hour => forall ts | ts < w.Hours() { HourShows(w, m, ts); }
    case Day =>
  }

  /** A run before has deleted further at this level than the chart's own retention would. */
  predicate CutFurther(w: World, level: Level, keep: Policy, now: int) {
    match level
    case Raw => !Uncut(w.rawFrom, keep.raw, now)
    case Minute => !Uncut(w.minuteFrom, keep.minute, now)
    case Hour => !Uncut(w.hourFrom, keep.hour, now)
    case Day => false
  }

  /** The hour that the chart's cutoff falls into is in its window. */
  ghost predicate CutsAnHour(keep: Policy, from: int, to: int, now: int) {
    exists ts :: from <= ts <= to && CutThrough(ts, now, keep.hour)
  }

  lemma UncutIsWhole(w: World, keep: Policy, m: nat, from: int, to: int, now: int)
    requires Inv(w) && Marks(w)
    ensures var level := ChooseResolution(w.t, m, from, to, now, keep);
            CutFurther(w, level, keep, now) || (level.Hour? && CutsAnHour(keep, from, to, now))
            || Whole(w, level, m, from, to)
  {
    match ChooseResolution(w.t, m, from, to, now, keep)
    case Raw =>
      if Uncut(w.rawFrom, keep.raw, now) {
        forall ts | from <= ts && Key(m, ts) in w.ever { RawComplete(w, keep, m, from, now, ts); }
      }
    case Minute =>
      if Uncut(w.minuteFrom, keep.minute, now) {
        forall ts | from <= ts < w.Minutes() { MinutesComplete(w, keep, m, from, now, ts); }
      }
    case Hour =>
      if Uncut(w.hourFrom, keep.hour, now) && !CutsAnHour(keep, from, to, now) {
        forall ts | from <= ts <= to && ts < w.Hours() { HoursComplete(w, keep, m, from, now, ts); }
      }
    case Day =>
  }

  /**
   A chart of any retention, after any history of policies and timezones that keeps days for ever and rows exact, is
   whole if and only if its level begins no later than what there is to see in the window; and it is, unless an earlier
   run deleted further than the chart's retention would, or the chart is of hours and its cutoff falls into one.
   */
  lemma ChartsExactly(events: seq<Event>, keep: Policy, m: nat, from: int, to: int, now: int)
    requires Happens(START, events) && KeepsDays(events) && Exact(Play(START, events))
    ensures var w := Play(START, events); var level := ChooseResolution(w.t, m, from, to, now, keep);
            && (Whole(w, level, m, from, to) <==> BeginsInTime(w, level, m, from, to))
            && (!Whole(w, level, m, from, to) ==>
                  CutFurther(w, level, keep, now) || (level.Hour? && CutsAnHour(keep, from, to, now)))
  {
    var w := Play(START, events);
    StartInv();
    PlayNoHoles(START, events);
    PlayMarks(START, events);
    WholeIff(w, ChooseResolution(w.t, m, from, to, now, keep), m, from, to);
    UncutIsWhole(w, keep, m, from, to, now);
  }

  // ---- a retention lengthened before a chart ------------------------------------------------------------------

  /** The chart's own cutoff is no later than its window, so raw samples answer; but they are gone. */
  lemma AnswersRaw(w: World, h: int, s: int, now: int, longer: Policy)
    requires MinuteLeft(w, h, s) && longer.raw.For? && now - longer.raw.ms <= h
    ensures ChooseResolution(w.t, 0, h, now, now, longer) == Raw
  {
    assert Points(Samples(w.t.raw), 0, h, now) == {};
  }

  /**
   The run of ChartMissesHour, which keeps raw samples for an hour, and a chart of 10:00 to 12:00 that is drawn when
   they are kept for two: it is answered in raw samples, of which that of 10:30 has been deleted.
   */
  lemma LongerRetentionMisses(v: real, h: int, s: int, now: int, keep: Policy, longer: Policy)
    requires h == 10 * HOUR && s == h + 30 * MIN && now == h + 2 * HOUR
    requires keep == Policy(For(HOUR), For(HOUR), For(105 * MIN), Forever) && longer == keep.(raw := For(2 * HOUR))
    ensures var events := [Insert(0, s, v), Run(now, keep, DAYS)];
            && Happens(START, events)
            && var w := Play(START, events);
               && ChooseResolution(w.t, 0, h, now, now, longer) == Raw && CutFurther(w, Raw, longer, now)
               && Key(0, s) in w.ever && !Whole(w, Raw, 0, h, now)
  {
    TheMorning(h, s, now);
    DaysAreLocal();
    var w := Sampled(s, v);
    RunLeavesMinute(w, h, s, v, now, keep, DAYS, h + 15 * MIN);
    RawGoes(w, now, keep, DAYS);
    AnswersRaw(AfterRun(w, now, keep, DAYS), h, s, now, longer);
    TwoEvents(START, Insert(0, s, v), Run(now, keep, DAYS));
  }
}
