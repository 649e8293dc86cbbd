/** Main results about every history of inserts and housekeeping runs. */
module RollupTheorems {
  import opened Results
  import opened Totals
  import opened Rollup
  import opened RollupSafety
  import opened RollupHistory
  import opened RowMeaning

  /** Each event can happen where it happens. */
  ghost predicate Happens(w: World, events: seq<Event>)
    decreases |events|
  {
    events == [] || (Admissible(w, events[0]) && Happens(Next(w, events[0]), events[1..]))
  }

  ghost function Play(w: World, events: seq<Event>): World
    requires Happens(w, events)
    decreases |events|
  {
    if events == [] then w else Play(Next(w, events[0]), events[1..])
  }

  lemma StartInv()
    ensures Inv(START)
  {
    FixedGrids();
    Ends(START);
    NoRowsExact(MINUTES, FLOOR, START.Minutes());
    NoRowsExact(HOURS, FLOOR, START.Hours());
  }

  lemma NoRowsExact(g: Grid, w: int, e: int)
    ensures ExactFrom(map[], map[], g, w, e)
  {
    forall m: nat, ts: int | w <= ts < e
      ensures RowExact(map[], map[], g, m, ts)
    {
      TotalEmpty(map[], m, ts, g.next(ts));
    }
  }

  lemma NextKeeps(w: World, e: Event)
    requires Inv(w) && Admissible(w, e)
    ensures Inv(Next(w, e))
  {
    match e
    case Insert(metric, ts, value) => InsertKeeps(w, metric, ts, value);
    case Run(now, keep, z) => RunKeeps(w, now, keep, z);
  }

  lemma {:induction false} PlayKeeps(w: World, events: seq<Event>)
    requires Inv(w) && Happens(w, events)
    ensures Inv(Play(w, events))
    decreases |events|
  {
    if events != [] {
      NextKeeps(w, events[0]);
      PlayKeeps(Next(w, events[0]), events[1..]);
    }
  }

  // ---- daily conservation --------------------------------------------------------------------------

  /**
   Whatever the policies and timezones of the runs, all daily rows ever made (those deleted
   included) add up, per metric, to exactly the samples before `until`; and no minute row is deleted
   before `until` has passed it, so each is folded exactly once.
   */
  lemma DailyConservation(events: seq<Event>, metric: nat)
    requires Happens(START, events)
    ensures var w := Play(START, events);
            if w.t.until.None? then w.t.day == map[] && w.minuteFrom == FLOOR
            else var u := w.t.until.value;
              && Plus(w.lost(metric), Total(w.t.day, metric, FLOOR, u)) == Total(w.Src(), metric, FLOOR, u)
              && w.minuteFrom <= u <= w.Minutes()
  {
    StartInv();
    PlayKeeps(START, events);
  }

  /** Daily rows are never deleted. */
  ghost predicate KeepsDays(events: seq<Event>) {
    forall i :: 0 <= i < |events| && events[i].Run? ==> events[i].keep.day.Forever?
  }

  lemma {:induction false} NothingLost(w: World, events: seq<Event>, metric: nat)
    requires Happens(w, events) && KeepsDays(events) && w.lost(metric) == Empty
    ensures Play(w, events).lost(metric) == Empty
    decreases |events|
  {
    if events != [] {
      NothingLost(Next(w, events[0]), events[1..], metric);
    }
  }

  /** With days kept forever, the daily rows there are add up to exactly the samples before `until`. */
  lemma DailyRowsAddUp(events: seq<Event>, metric: nat)
    requires Happens(START, events) && KeepsDays(events)
    ensures var w := Play(START, events);
            w.t.until.Some? ==>
              Total(w.t.day, metric, FLOOR, w.t.until.value) == Total(w.Src(), metric, FLOOR, w.t.until.value)
  {
    DailyConservation(events, metric);
    NothingLost(START, events, metric);
  }

  // ---- exactness -----------------------------------------------------------------------------------

  /** Every stored minute and hour row is one that exactness speaks about. */
  ghost predicate AllWatched(w: World) {
    NoneBefore(w.t.minute, w.minuteFrom) && NoneBefore(w.t.hour, w.hourFrom)
  }

  /** No level's cutoff moves back: time passes no slower than retention is lengthened. */
  ghost predicate Steady(w: World, e: Event) {
    e.Run? ==>
      && (w.minuteFrom == FLOOR || (e.keep.minute.For? && w.minuteFrom <= MinuteCut(e.now, e.keep.minute, e.z)))
      && (w.hourFrom == FLOOR || (e.keep.hour.For? && w.hourFrom <= HourCut(e.now, e.keep.hour)))
  }

  lemma RowsAreLate(t: Table, src: Table, g: Grid, e: int)
    requires Grounded(t, src, g, e) && (forall k :: k in src ==> 0 <= k.ts)
    requires forall s :: g.next(s) <= s + DAY
    ensures NoneBefore(t, FLOOR)
  {
    forall k | k in t
      ensures FLOOR <= k.ts
    {
      var at := TotalFound(src, k.metric, k.ts, g.next(k.ts));
      assert Key(k.metric, at) in src;
    }
  }

  lemma CutWatches(t: Table, w: int, keep: Keep, cutoff: int)
    requires NoneBefore(t, FLOOR) && (w == FLOOR || (keep.For? && w <= cutoff))
    ensures NoneBefore(if keep.For? then Since(t, cutoff) else t, Raised(w, keep, cutoff))
  {
  }

  lemma PruneWatches(w: World, rolled: Tables, v: World, keep: Policy, z: Zone)
    requires Inv(w) && Pruned(w, rolled, v, keep, z) && Steady(w, Run(v.now, keep, z))
    ensures AllWatched(v)
  {
    RowsAreLate(rolled.minute, w.Src(), MINUTES, v.Minutes());
    RowsAreLate(rolled.hour, w.Src(), HOURS, v.Hours());
    CutWatches(rolled.minute, w.minuteFrom, keep.minute, MinuteCut(v.now, keep.minute, z));
    CutWatches(rolled.hour, w.hourFrom, keep.hour, HourCut(v.now, keep.hour));
  }

  lemma RunWatches(w: World, now: int, keep: Policy, z: Zone)
    requires Inv(w) && now >= w.now && ValidZone(z) && Steady(w, Run(now, keep, z))
    ensures AllWatched(AfterRun(w, now, keep, z))
  {
    RunCovers(w, now, z);
    PruneWatches(w, Rolled(w.t, now, z), AfterRun(w, now, keep, z), keep, z);
  }

  ghost predicate SteadyRuns(w: World, events: seq<Event>)
    requires Happens(w, events)
    decreases |events|
  {
    events == [] || (Steady(w, events[0]) && SteadyRuns(Next(w, events[0]), events[1..]))
  }

  lemma {:induction false} PlayWatches(w: World, events: seq<Event>)
    requires Inv(w) && AllWatched(w) && Happens(w, events) && SteadyRuns(w, events)
    ensures AllWatched(Play(w, events))
    decreases |events|
  {
    if events != [] {
      var e := events[0];
      NextKeeps(w, e);
      if e.Run? { RunWatches(w, e.now, e.keep, e.z); }
      PlayWatches(Next(w, e), events[1..]);
    }
  }

  /** Every row is the exact count, mean, minimum and maximum of all samples ever inserted in its bucket. */
  ghost predicate RowsExact(t: Table, src: Table, g: Grid) {
    forall k :: k in t ==> Bucket(src, k.metric, k.ts, g) != Empty && t[k] == RowOf(Bucket(src, k.metric, k.ts, g))
  }

  /** Every closed bucket from `w` on that has samples has its row. */
  ghost predicate RowsComplete(t: Table, src: Table, g: Grid, w: int, e: int) {
    forall k :: k in src && w <= g.start(k.ts) && k.ts < e ==> Key(k.metric, g.start(k.ts)) in t
  }

  lemma ExactRows(t: Table, src: Table, g: Grid, w: int, e: int)
    requires ValidGrid(g) && ExactFrom(t, src, g, w, e) && Grounded(t, src, g, e)
    ensures NoneBefore(t, w) ==> RowsExact(t, src, g)
    ensures RowsComplete(t, src, g, w, e)
  {
    if NoneBefore(t, w) {
      forall k | k in t
        ensures t[k] == RowOf(Bucket(src, k.metric, k.ts, g))
      {
        assert RowExact(t, src, g, k.metric, k.ts);
      }
    }
    forall k | k in src && w <= g.start(k.ts) && k.ts < e
      ensures Key(k.metric, g.start(k.ts)) in t
    {
      var x := g.start(k.ts);
      StartIsAligned(g, k.ts);
      TotalFinds(src, k.metric, x, g.next(x), k.ts);
      assert RowExact(t, src, g, k.metric, x);
    }
  }

  /** Each row stands for a bucket of this length, and describes exactly the samples ever inserted in it. */
  ghost predicate RowsDescribe(t: Table, ever: map<Key, real>, length: int)
    requires length > 0
  {
    forall k :: k in t ==> k.ts % length == 0 && Describes(t[k], ever, k.metric, k.ts, k.ts + length)
  }

  /** Every sample of a closed bucket of this length, from `w` on, has a row. */
  ghost predicate RowsCover(t: Table, ever: map<Key, real>, length: int, w: int, now: int)
    requires length > 0
  {
    forall k, b {:trigger Key(k.metric, b) in t, k in ever} ::
      k in ever && b <= k.ts < b + length <= now && b % length == 0 && w <= b ==> Key(k.metric, b) in t
  }

  lemma ExactMinutesDescribe(w: World)
    requires Inv(w) && RowsExact(w.t.minute, w.Src(), MINUTES)
    ensures RowsDescribe(w.t.minute, w.ever, 60_000)
  {
    forall k | k in w.t.minute
      ensures k.ts % 60_000 == 0 && Describes(w.t.minute[k], w.ever, k.metric, k.ts, k.ts + 60_000)
    {
      RowDescribes(w.ever, k.metric, k.ts, k.ts + 60_000);
    }
  }

  lemma ExactHoursDescribe(w: World)
    requires Inv(w) && RowsExact(w.t.hour, w.Src(), HOURS)
    ensures RowsDescribe(w.t.hour, w.ever, 3_600_000)
  {
    forall k | k in w.t.hour
      ensures k.ts % 3_600_000 == 0 && Describes(w.t.hour[k], w.ever, k.metric, k.ts, k.ts + 3_600_000)
    {
      RowDescribes(w.ever, k.metric, k.ts, k.ts + 3_600_000);
    }
  }

  lemma FloorIs(ts: int, b: int, step: int)
    requires step > 0 && b % step == 0 && b <= ts < b + step
    ensures Floor(ts, step) == b
  {
    DivUnique(ts, b / step, step);
  }

  lemma FloorReaches(now: int, b: int, step: int)
    requires step > 0 && b % step == 0 && b <= now
    ensures b <= Floor(now, step)
  {
    var p, q := b / step, now / step;
    if q < p { Multiples(p - q, step); }
    assert now == q * step + now % step && b == p * step;
    assert (p - q) * step == p * step - q * step;
  }

  lemma InMinute(ts: int, b: int, now: int)
    requires b % 60_000 == 0 && b <= ts < b + 60_000 <= now
    ensures MINUTES.start(ts) == b && ts < MINUTES.start(now)
  {
    FloorIs(ts, b, 60_000);
    FloorReaches(now, b + 60_000, 60_000);
  }

  lemma InHour(ts: int, b: int, now: int)
    requires b % 3_600_000 == 0 && b <= ts < b + 3_600_000 <= now
    ensures HOURS.start(ts) == b && ts < HOURS.start(MINUTES.start(now))
  {
    FloorIs(ts, b, 3_600_000);
    HourEnd(b, b + 3_600_000);
    FloorReaches(now, b + 3_600_000, 60_000);
    FloorReaches(Floor(now, 60_000), b + 3_600_000, 3_600_000);
  }

  lemma HourEnd(b: int, end: int)
    requires b % 3_600_000 == 0 && end == b + 3_600_000
    ensures end % 60_000 == 0 && end % 3_600_000 == 0
  {
    var q := b / 3_600_000;
    DivUnique(end, q + 1, 3_600_000);
    DivUnique(end, 60 * (q + 1), 60_000);
  }

  lemma CompleteMinutesCover(w: World)
    requires RowsComplete(w.t.minute, w.Src(), MINUTES, w.minuteFrom, w.Minutes())
    ensures RowsCover(w.t.minute, w.ever, 60_000, w.minuteFrom, w.now)
  {
    forall k, b | k in w.ever && b <= k.ts < b + 60_000 <= w.now && b % 60_000 == 0 && w.minuteFrom <= b
      ensures Key(k.metric, b) in w.t.minute
    {
      InMinute(k.ts, b, w.now);
      assert k in w.Src();
    }
  }

  lemma CompleteHoursCover(w: World)
    requires RowsComplete(w.t.hour, w.Src(), HOURS, w.hourFrom, w.Hours())
    ensures RowsCover(w.t.hour, w.ever, 3_600_000, w.hourFrom, w.now)
  {
    forall k, b | k in w.ever && b <= k.ts < b + 3_600_000 <= w.now && b % 3_600_000 == 0 && w.hourFrom <= b
      ensures Key(k.metric, b) in w.t.hour
    {
      InHour(k.ts, b, w.now);
      assert k in w.Src();
    }
  }

  /**
   Rollup exactness: as long as no level's cutoff moves back, every stored 1m and 1h row is the
   exact aggregate of all samples ever inserted in its bucket, even those already deleted: their
   number, mean, least and greatest value; and no closed bucket that is kept misses its row.
   */
  lemma RollupsExact(events: seq<Event>)
    requires Happens(START, events) && SteadyRuns(START, events)
    ensures var w := Play(START, events);
            && RowsExact(w.t.minute, w.Src(), MINUTES)
               && RowsComplete(w.t.minute, w.Src(), MINUTES, w.minuteFrom, w.Minutes())
            && RowsExact(w.t.hour, w.Src(), HOURS) && RowsComplete(w.t.hour, w.Src(), HOURS, w.hourFrom, w.Hours())
    ensures var w := Play(START, events);
            && RowsDescribe(w.t.minute, w.ever, 60_000) && RowsCover(w.t.minute, w.ever, 60_000, w.minuteFrom, w.now)
            && RowsDescribe(w.t.hour, w.ever, 3_600_000) && RowsCover(w.t.hour, w.ever, 3_600_000, w.hourFrom, w.now)
  {
    StartInv();
    PlayKeeps(START, events);
    PlayWatches(START, events);
    FixedGrids();
    var w := Play(START, events);
    ExactRows(w.t.minute, w.Src(), MINUTES, w.minuteFrom, w.Minutes());
    ExactRows(w.t.hour, w.Src(), HOURS, w.hourFrom, w.Hours());
    ExactMinutesDescribe(w);
    ExactHoursDescribe(w);
    CompleteMinutesCover(w);
    CompleteHoursCover(w);
  }

  // ---- one policy, one timezone ----------------------------------------------------------------

  ghost predicate OnePolicy(events: seq<Event>, keep: Policy, z: Zone) {
    forall i :: 0 <= i < |events| && events[i].Run? ==> events[i].keep == keep && events[i].z == z
  }

  /** Nothing is deleted past the cutoffs of the last run. */
  ghost predicate Bounded(w: World, keep: Policy, z: Zone) {
    && (w.rawFrom == FLOOR || (keep.raw.For? && w.rawFrom <= RawCut(w.now, keep.raw)))
    && (w.minuteFrom == FLOOR || (keep.minute.For? && w.minuteFrom <= MinuteCut(w.now, keep.minute, z)))
    && (w.hourFrom == FLOOR || (keep.hour.For? && w.hourFrom <= HourCut(w.now, keep.hour)))
  }

  lemma CutsGrow(a: int, b: int, keep: Policy, z: Zone)
    requires a <= b && ValidZone(z)
    ensures RawCut(a, keep.raw) <= RawCut(b, keep.raw)
    ensures MinuteCut(a, keep.minute, z) <= MinuteCut(b, keep.minute, z)
    ensures HourCut(a, keep.hour) <= HourCut(b, keep.hour)
  {
    StartNotEarlier(a, b);
    StartGrows(z, MINUTES.start(a), MINUTES.start(b));
  }

  lemma BoundedNext(w: World, e: Event, keep: Policy, z: Zone)
    requires Inv(w) && Bounded(w, keep, z) && Admissible(w, e) && (e.Run? ==> e.keep == keep && e.z == z)
    ensures Steady(w, e) && Bounded(Next(w, e), keep, z)
  {
    if e.Run? { CutsGrow(w.now, e.now, keep, z); }
  }

  lemma {:induction false} OnePolicyIsSteady(w: World, events: seq<Event>, keep: Policy, z: Zone)
    requires Inv(w) && Bounded(w, keep, z) && Happens(w, events) && OnePolicy(events, keep, z)
    ensures SteadyRuns(w, events) && Bounded(Play(w, events), keep, z)
    decreases |events|
  {
    if events != [] {
      NextKeeps(w, events[0]);
      BoundedNext(w, events[0], keep, z);
      OnePolicyIsSteady(Next(w, events[0]), events[1..], keep, z);
    }
  }

  /** In one timezone, under one policy, the rollups are exact after every run. */
  lemma OnePolicyExact(events: seq<Event>, keep: Policy, z: Zone)
    requires Happens(START, events) && OnePolicy(events, keep, z)
    ensures var w := Play(START, events);
            && RowsExact(w.t.minute, w.Src(), MINUTES) && RowsExact(w.t.hour, w.Src(), HOURS)
            && RowsDescribe(w.t.minute, w.ever, 60_000) && RowsDescribe(w.t.hour, w.ever, 3_600_000)
  {
    StartInv();
    OnePolicyIsSteady(START, events, keep, z);
    RollupsExact(events);
  }
}
