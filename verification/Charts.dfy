/** Which resolution a chart reads, and why it never shows a hole that pruning made. */
module Charts {
  import opened Results
  import opened Totals
  import opened Rollup
  import opened RollupSafety
  import opened RollupHistory
  import opened RollupTheorems

  function TimesOf(t: Table, metric: nat): set<int> {
    set k | k in t && k.metric == metric :: -k.ts
  }

  predicate Stored(t: Tables, k: Key) {
    k in t.raw || k in t.minute || k in t.hour || k in t.day
  }

  /** The oldest timestamp the metric has at any resolution. */
  function OldestTs(t: Tables, metric: nat): (r: Option<int>)
    ensures forall k: Key :: Stored(t, k) && k.metric == metric ==> r.Some? && r.value <= k.ts
    ensures r.Some? ==> exists k: Key :: Stored(t, k) && k.metric == metric && k.ts == r.value
  {
    var s := TimesOf(Samples(t.raw), metric) + TimesOf(t.minute, metric) + TimesOf(t.hour, metric)
        + TimesOf(t.day, metric);
    assert forall k: Key :: Stored(t, k) && k.metric == metric ==> -k.ts in s by {
      forall k: Key | Stored(t, k) && k.metric == metric
        ensures -k.ts in s
      {
        if k in t.raw { assert k in Samples(t.raw); }
      }
    }
    if exists y :: y in s then Some(-Largest(s)) else None
  }

  function Points(t: Table, metric: nat, from: int, to: int): set<Key> {
    set k | k in t && k.metric == metric && from <= k.ts <= to
  }

  predicate Complete(from: int, oldest: Option<int>, now: int, keep: Keep) {
    keep.Forever? || from >= now - keep.ms || (oldest.Some? && oldest.value >= now - keep.ms)
  }

  /** The finest resolution whole in [from, to] with at most MAX_POINTS rows there. */
  function ChooseResolution(t: Tables, metric: nat, from: int, to: int, now: int, keep: Policy): Level {
    var oldest := OldestTs(t, metric);
    if Complete(from, oldest, now, keep.raw) && |Points(Samples(t.raw), metric, from, to)| <= MAX_POINTS then Raw
    else if Complete(from, oldest, now, keep.minute) && |Points(t.minute, metric, from, to)| <= MAX_POINTS then Minute
    else if Complete(from, oldest, now, keep.hour) && |Points(t.hour, metric, from, to)| <= MAX_POINTS then Hour
    else Day
  }

  // ---- daily rows mark every minute that was folded ---------------------------------------------

  predicate Marked(day: Table, m: nat, ts: int) {
    exists k :: k in day && k.metric == m && k.ts <= ts
  }

  /** Every minute with samples before `until` has a daily row at or before it. */
  ghost predicate DaysMark(day: Table, src: Table, until: int) {
    forall m: nat, ts: int {:trigger Bucket(src, m, ts, MINUTES)} ::
      Aligned(MINUTES, ts) && ts < until && Bucket(src, m, ts, MINUTES) != Empty ==> Marked(day, m, ts)
  }

  ghost predicate Marks(w: World) {
    w.t.until.Some? ==> DaysMark(w.t.day, w.Src(), w.t.until.value)
  }

  lemma MarkedGrows(day: Table, u: Table, m: nat, ts: int)
    requires Marked(day, m, ts) && day.Keys <= u.Keys
    ensures Marked(u, m, ts)
  {
    var k :| k in day && k.metric == m && k.ts <= ts;
    assert k in u;
  }

  lemma {:induction false} FoldMarks(day: Table, minute: Table, from: int, end: int, z: Zone)
    requires ValidZone(z)
    ensures day.Keys <= FoldDays(day, minute, from, end, z).Keys
    ensures forall k :: k in minute && from <= k.ts < end ==>
             Marked(FoldDays(day, minute, from, end, z), k.metric, k.ts)
    decreases end - from
  {
    if from < end {
      var d := z.start(from);
      var to := Lesser(z.next(d), end);
      var u := MergeDay(day, minute, d, from, to);
      var v := FoldDays(u, minute, to, end, z);
      FoldMarks(u, minute, to, end, z);
      forall k | k in minute && from <= k.ts < end
        ensures Marked(v, k.metric, k.ts)
      {
        if k.ts < to {
          assert Key(k.metric, d) in u;
          assert Marked(u, k.metric, k.ts);
          MarkedGrows(u, v, k.metric, k.ts);
        }
      }
    }
  }

  lemma RolledMarks(t: Tables, lost: nat -> Part, src: Table, w: int, minutes: int, before: int, z: Zone)
    requires ValidZone(z) && Real(src) && DaysOk(t, lost, src, w, before) && before <= minutes
    requires ExactFrom(t.minute, src, MINUTES, w, minutes) && Grounded(t.minute, src, MINUTES, minutes)
    requires forall k :: k in src ==> 0 <= k.ts
    requires t.until.Some? ==> DaysMark(t.day, src, t.until.value)
    ensures var u := RollDays(t, z.start(minutes), z);
            u.until.Some? ==> DaysMark(u.day, src, u.until.value)
  {
    var days := z.start(minutes);
    var start := NextDayStart(t, days, z);
    if start.Some? && start.value < days {
      var u := FoldDays(t.day, t.minute, start.value, days, z);
      FoldMarks(t.day, t.minute, start.value, days, z);
      forall m: nat, ts: int | Aligned(MINUTES, ts) && ts < days && Bucket(src, m, ts, MINUTES) != Empty
        ensures Marked(u, m, ts)
      {
        if t.until.Some? && ts < start.value {
          MarkedGrows(t.day, u, m, ts);
        } else {
          FoldedMinute(t, lost, src, w, minutes, before, m, ts);
        }
      }
    }
  }

  /** A minute that the daily level has not passed is stored. */
  lemma FoldedMinute(t: Tables, lost: nat -> Part, src: Table, w: int, minutes: int, before: int, m: nat, ts: int)
    requires DaysOk(t, lost, src, w, before) && ExactFrom(t.minute, src, MINUTES, w, minutes)
    requires (t.until.Some? ==> t.until.value <= ts) && ts < minutes && forall k :: k in src ==> 0 <= k.ts
    requires Aligned(MINUTES, ts) && Bucket(src, m, ts, MINUTES) != Empty
    ensures Key(m, ts) in t.minute
  {
    var at := TotalFound(src, m, ts, MINUTES.next(ts));
    assert Key(m, at) in src;
    assert RowExact(t.minute, src, MINUTES, m, ts);
  }

  lemma RunMarks(w: World, now: int, keep: Policy, z: Zone)
    requires Inv(w) && Marks(w) && now >= w.now && ValidZone(z) && keep.day.Forever?
    ensures Marks(AfterRun(w, now, keep, z))
  {
    var minutes := MINUTES.start(now);
    var rolled := Rolled(w.t, now, z);
    RunMinutes(w, now);
    StartNotEarlier(w.now, now);
    var t2 := w.t.(minute := rolled.minute, hour := rolled.hour);
    RolledMarks(t2, w.lost, w.Src(), w.minuteFrom, minutes, w.Minutes(), z);
  }

  lemma InsertMarks(w: World, metric: nat, ts: int, value: real)
    requires Inv(w) && Marks(w) && ts >= w.Minutes()
    ensures Marks(AfterInsert(w, metric, ts, value))
  {
    var v := AfterInsert(w, metric, ts, value);
    FixedGrids();
    InsertIsLate(w, metric, ts, value);
    if w.t.until.Some? {
      var u := w.t.until.value;
      forall m: nat, x: int | Aligned(MINUTES, x) && x < u && Bucket(v.Src(), m, x, MINUTES) != Empty
        ensures Marked(v.t.day, m, x)
      {
        assert SameBefore(w.Src(), v.Src(), u);
        SameBucket(w.Src(), v.Src(), MINUTES, u, m, x);
        assert Bucket(w.Src(), m, x, MINUTES) != Empty;
      }
    }
  }

  lemma {:induction false} PlayMarks(w: World, events: seq<Event>)
    requires Inv(w) && Marks(w) && Happens(w, events) && KeepsDays(events)
    ensures Marks(Play(w, events))
    decreases |events|
  {
    if events != [] {
      NextKeeps(w, events[0]);
      match events[0]
      case Insert(metric, ts, value) =>
        InsertMarks(w, metric, ts, value);
        PlayMarks(Next(w, events[0]), events[1..]);
      case Run(now, keep, z) =>
        RunMarks(w, now, keep, z);
        PlayMarks(Next(w, events[0]), events[1..]);
    }
  }

  // ---- completeness ----------------------------------------------------------------------------

  /** A bucket whose minute was rolled up still shows in some table, at or before its start. */
  lemma StillShows(w: World, m: nat, ts: int)
    requires Inv(w) && Marks(w) && Aligned(MINUTES, ts) && ts < w.Minutes()
    requires Bucket(w.Src(), m, ts, MINUTES) != Empty
    ensures Key(m, ts) in w.t.minute || Marked(w.t.day, m, ts)
  {
    if w.minuteFrom <= ts {
      assert RowExact(w.t.minute, w.Src(), MINUTES, m, ts);
    } else {
      var at := TotalFound(w.Src(), m, ts, MINUTES.next(ts));
      assert Key(m, at) in w.Src();
    }
  }

  lemma OldestIsBefore(w: World, m: nat, ts: int)
    requires Inv(w) && Marks(w) && Aligned(MINUTES, ts) && ts < w.Minutes()
    requires Bucket(w.Src(), m, ts, MINUTES) != Empty
    ensures var oldest := OldestTs(w.t, m); oldest.Some? && oldest.value <= ts
  {
    StillShows(w, m, ts);
    if Key(m, ts) in w.t.minute {
      assert Stored(w.t, Key(m, ts));
    } else {
      var k :| k in w.t.day && k.metric == m && k.ts <= ts;
      assert Stored(w.t, k);
    }
  }

  // ---- the hour that the last run's cutoff fell into ---------------------------------------------

  /** The cutoff falls inside the hour that starts at `ts`. */
  predicate CutThrough(ts: int, now: int, keep: Keep) {
    keep.For? && ts < now - keep.ms < ts + HOUR
  }

  /** The hour has samples, and begins before the cutoff of the last run. */
  predicate HourLost(w: World, m: nat, ts: int, keep: Keep) {
    Aligned(HOURS, ts) && Bucket(w.Src(), m, ts, HOURS) != Empty && keep.For? && ts < w.now - keep.ms
  }

  /** Hours are deleted up to the cutoff of the last run, if there was one. */
  ghost predicate LastCut(w: World, keep: Keep) {
    w.hourFrom == Raised(FLOOR, keep, HourCut(w.now, keep)) || (w.now == 0 && w.hourFrom == FLOOR)
  }

  lemma {:induction false} PlayCuts(w: World, events: seq<Event>, keep: Policy, z: Zone)
    requires Inv(w) && LastCut(w, keep.hour) && Happens(w, events) && OnePolicy(events, keep, z)
    ensures LastCut(Play(w, events), keep.hour)
    decreases |events|
  {
    if events != [] {
      NextKeeps(w, events[0]);
      PlayCuts(Next(w, events[0]), events[1..], keep, z);
    }
  }

  /** Of the closed hours, exactly those that begin before the last run's cutoff miss their rows. */
  lemma HourExactIff(w: World, keep: Keep, m: nat, ts: int)
    requires Inv(w) && AllWatched(w) && LastCut(w, keep) && ts < w.Hours()
    ensures RowExact(w.t.hour, w.Src(), HOURS, m, ts) <==> !HourLost(w, m, ts, keep)
  {
    if w.hourFrom <= ts {
      assert RowExact(w.t.hour, w.Src(), HOURS, m, ts);
      if HourLost(w, m, ts, keep) { EarlyHours(w, m, ts); }
    } else {
      assert Key(m, ts) !in w.t.hour;
      if Bucket(w.Src(), m, ts, HOURS) != Empty { HourAfterFloor(w, m, ts); }
    }
  }

  /** No hour closes before time begins. */
  lemma EarlyHours(w: World, m: nat, ts: int)
    requires Inv(w) && Aligned(HOURS, ts) && Bucket(w.Src(), m, ts, HOURS) != Empty && ts < w.Hours()
    ensures w.now > 0
  {
    FixedGrids();
    Ends(w);
    var at := TotalFound(w.Src(), m, ts, HOURS.next(ts));
    assert Key(m, at) in w.ever;
    Apart(HOURS, ts, w.Hours());
  }

  /**
   Chart completeness: under one policy that keeps days for ever, whenever the chart is drawn, if
   the answer is raw then every sample ever inserted in the window is there; if it is minutes, every
   closed minute of the window that has samples has its exact row; if it is hours, a closed hour that
   has samples has its exact row if and only if it begins no earlier than the last run's cutoff, and
   only the hour that the chart's own cutoff falls into can begin earlier; and the window has at most
   MAX_POINTS rows.
   */
  lemma ChartsAreComplete(events: seq<Event>, keep: Policy, z: Zone, m: nat, from: int, to: int, now: int, ts: int)
    requires Happens(START, events) && OnePolicy(events, keep, z) && keep.day.Forever?
    requires now >= Play(START, events).now && from <= ts <= to
    ensures var w := Play(START, events);
            match ChooseResolution(w.t, m, from, to, now, keep)
            case Raw =>
              (Key(m, ts) in w.ever ==> Key(m, ts) in w.t.raw && w.t.raw[Key(m, ts)] == w.ever[Key(m, ts)])
              && |Points(Samples(w.t.raw), m, from, to)| <= MAX_POINTS
            case Minute =>
              (ts < w.Minutes() ==> RowExact(w.t.minute, w.Src(), MINUTES, m, ts))
              && |Points(w.t.minute, m, from, to)| <= MAX_POINTS
            case Hour =>
              (ts < w.Hours() ==>
                 && (RowExact(w.t.hour, w.Src(), HOURS, m, ts) <==> !HourLost(w, m, ts, keep.hour))
                 && (HourLost(w, m, ts, keep.hour) ==> CutThrough(ts, now, keep.hour)))
              && |Points(w.t.hour, m, from, to)| <= MAX_POINTS
            case Day => true
  {
    StartInv();
    PlayKeeps(START, events);
    OnePolicyIsSteady(START, events, keep, z);
    PlayMarks(START, events);
    var w := Play(START, events);
    BoundedIsUncut(w, keep, z, now);
    match ChooseResolution(w.t, m, from, to, now, keep)
    case Raw => if Key(m, ts) in w.ever { RawComplete(w, keep, m, from, now, ts); }
    case Minute => if ts < w.Minutes() { MinutesComplete(w, keep, m, from, now, ts); }
    case Hour =>
      if ts < w.Hours() {
        PlayWatches(START, events);
        PlayCuts(START, events, keep, z);
        HourExactIff(w, keep.hour, m, ts);
        if !CutThrough(ts, now, keep.hour) { HoursComplete(w, keep, m, from, now, ts); }
      }
    case Day =>
  }

  /** No run has deleted further than a chart of this retention looks. */
  predicate Uncut(from: int, keep: Keep, now: int) { from == FLOOR || (keep.For? && from <= now - keep.ms) }

  lemma BoundedIsUncut(w: World, keep: Policy, z: Zone, now: int)
    requires Bounded(w, keep, z) && now >= w.now
    ensures Uncut(w.rawFrom, keep.raw, now) && Uncut(w.minuteFrom, keep.minute, now)
            && Uncut(w.hourFrom, keep.hour, now)
  {
  }

  lemma HoursComplete(w: World, keep: Policy, m: nat, from: int, now: int, ts: int)
    requires Inv(w) && Marks(w) && Uncut(w.hourFrom, keep.hour, now) && from <= ts < w.Hours()
    requires Complete(from, OldestTs(w.t, m), now, keep.hour) && !CutThrough(ts, now, keep.hour)
    ensures RowExact(w.t.hour, w.Src(), HOURS, m, ts)
  {
    if ts < w.hourFrom {
      HourNotPruned(w, keep, m, from, now, ts);
      assert Key(m, ts) !in w.t.hour;
    }
  }

  lemma HourNotPruned(w: World, keep: Policy, m: nat, from: int, now: int, ts: int)
    requires Inv(w) && Marks(w) && Uncut(w.hourFrom, keep.hour, now) && from <= ts < w.Hours()
    requires Complete(from, OldestTs(w.t, m), now, keep.hour) && !CutThrough(ts, now, keep.hour) && ts < w.hourFrom
    ensures !Aligned(HOURS, ts) || Bucket(w.Src(), m, ts, HOURS) == Empty
  {
    if Aligned(HOURS, ts) && Bucket(w.Src(), m, ts, HOURS) != Empty {
      var x := SampleMinute(w, m, ts);
      OldestIsBefore(w, m, x);
      HourAfterFloor(w, m, ts);
    }
  }

  /** A closed hour with samples has a closed minute with samples. */
  lemma SampleMinute(w: World, m: nat, ts: int) returns (x: int)
    requires Inv(w) && Aligned(HOURS, ts) && ts < w.Hours() && Bucket(w.Src(), m, ts, HOURS) != Empty
    ensures x < ts + HOUR && x < w.Minutes() && Aligned(MINUTES, x) && Bucket(w.Src(), m, x, MINUTES) != Empty
  {
    FixedGrids();
    var at := TotalFound(w.Src(), m, ts, HOURS.next(ts));
    x := MINUTES.start(at);
    StartIsAligned(MINUTES, at);
    TotalFinds(w.Src(), m, x, MINUTES.next(x), at);
    StartIsAligned(HOURS, w.Minutes());
    Apart(HOURS, ts, w.Hours());
  }

  lemma HourAfterFloor(w: World, m: nat, ts: int)
    requires Inv(w) && Bucket(w.Src(), m, ts, HOURS) != Empty
    ensures FLOOR <= ts
  {
    var at := TotalFound(w.Src(), m, ts, HOURS.next(ts));
    assert Key(m, at) in w.ever;
  }

  lemma RawComplete(w: World, keep: Policy, m: nat, from: int, now: int, ts: int)
    requires Inv(w) && Marks(w) && Uncut(w.rawFrom, keep.raw, now) && from <= ts
    requires Complete(from, OldestTs(w.t, m), now, keep.raw) && Key(m, ts) in w.ever
    ensures Key(m, ts) in w.t.raw && w.t.raw[Key(m, ts)] == w.ever[Key(m, ts)]
  {
    if ts < w.rawFrom {
      FixedGrids();
      var x := MINUTES.start(ts);
      StartIsAligned(MINUTES, ts);
      TotalFinds(w.Src(), m, x, MINUTES.next(x), ts);
      OldestIsBefore(w, m, x);
    }
  }

  lemma MinutesComplete(w: World, keep: Policy, m: nat, from: int, now: int, ts: int)
    requires Inv(w) && Marks(w) && Uncut(w.minuteFrom, keep.minute, now) && from <= ts < w.Minutes()
    requires Complete(from, OldestTs(w.t, m), now, keep.minute)
    ensures RowExact(w.t.minute, w.Src(), MINUTES, m, ts)
  {
    if ts < w.minuteFrom {
      NotPruned(w, keep, m, from, now, ts);
      assert Key(m, ts) !in w.t.minute;
    }
  }

  lemma SamplesAfterFloor(w: World, m: nat, ts: int)
    requires Inv(w) && Bucket(w.Src(), m, ts, MINUTES) != Empty
    ensures FLOOR <= ts
  {
    var at := TotalFound(w.Src(), m, ts, MINUTES.next(ts));
    assert Key(m, at) in w.ever;
  }

  lemma NotPruned(w: World, keep: Policy, m: nat, from: int, now: int, ts: int)
    requires Inv(w) && Marks(w) && Uncut(w.minuteFrom, keep.minute, now) && from <= ts < w.Minutes()
    requires Complete(from, OldestTs(w.t, m), now, keep.minute) && ts < w.minuteFrom
    ensures !Aligned(MINUTES, ts) || Bucket(w.Src(), m, ts, MINUTES) == Empty
  {
    if Aligned(MINUTES, ts) && Bucket(w.Src(), m, ts, MINUTES) != Empty {
      SamplesAfterFloor(w, m, ts);
      OldestIsBefore(w, m, ts);
    }
  }

  // ---- the choice ------------------------------------------------------------------------------------

  /** The metric's rows of a level in the window. */
  function InWindow(t: Tables, level: Level, metric: nat, from: int, to: int): set<Key> {
    match level
    case Raw => set k | k in t.raw && k.metric == metric && from <= k.ts <= to
    case Minute => set k | k in t.minute && k.metric == metric && from <= k.ts <= to
    case Hour => set k | k in t.hour && k.metric == metric && from <= k.ts <= to
    case Day => set k | k in t.day && k.metric == metric && from <= k.ts <= to
  }

  function KeepOf(keep: Policy, level: Level): Keep {
    match level
    case Raw => keep.raw
    case Minute => keep.minute
    case Hour => keep.hour
    case Day => keep.day
  }

  /** Nothing of the metric in the window can have been deleted from a level kept so long: no row is older than that. */
  ghost predicate NothingDeleted(t: Tables, metric: nat, from: int, now: int, keep: Keep) {
    keep.For? ==>
      || from >= now - keep.ms
      || ((exists k: Key :: Stored(t, k) && k.metric == metric)
          && forall k: Key :: Stored(t, k) && k.metric == metric ==> k.ts >= now - keep.ms)
  }

  ghost predicate FitsChart(t: Tables, level: Level, metric: nat, from: int, to: int, now: int, keep: Policy) {
    NothingDeleted(t, metric, from, now, KeepOf(keep, level)) && |InWindow(t, level, metric, from, to)| <= 1500
  }

  lemma CompleteIs(t: Tables, metric: nat, from: int, now: int, keep: Keep)
    ensures Complete(from, OldestTs(t, metric), now, keep) <==> NothingDeleted(t, metric, from, now, keep)
  {
  }

  /** The chart is answered in the finest of raw, 1m and 1h that fits, and in days if none does. */
  lemma FinestThatFits(t: Tables, metric: nat, from: int, to: int, now: int, keep: Policy)
    ensures var fits := (level: Level) => FitsChart(t, level, metric, from, to, now, keep);
            match ChooseResolution(t, metric, from, to, now, keep)
            case Raw => fits(Raw)
            case Minute => !fits(Raw) && fits(Minute)
            case Hour => !fits(Raw) && !fits(Minute) && fits(Hour)
            case Day => !fits(Raw) && !fits(Minute) && !fits(Hour)
  {
    CompleteIs(t, metric, from, now, keep.raw);
    CompleteIs(t, metric, from, now, keep.minute);
    CompleteIs(t, metric, from, now, keep.hour);
    assert Points(Samples(t.raw), metric, from, to) == InWindow(t, Raw, metric, from, to);
    assert Points(t.minute, metric, from, to) == InWindow(t, Minute, metric, from, to);
    assert Points(t.hour, metric, from, to) == InWindow(t, Hour, metric, from, to);
  }
}
