/** Any sequence of inserts and housekeeping runs, and what it keeps. */
module RollupHistory {
  import opened Results
  import opened Totals
  import opened Rollup
  import opened RollupSafety

  /** Before every timestamp and every local day that can hold one. */
  const FLOOR: int := -4 * DAY

  /**
   The tables beside what they are measured against: every sample ever inserted, the time of the
   last run, how far each level may have been deleted, and what the deleted daily rows added up to.
   */
  datatype World = World(t: Tables, ever: map<Key, real>, now: int,
                         rawFrom: int, minuteFrom: int, hourFrom: int, lost: nat -> Part)
  {
    function Src(): Table { Samples(ever) }

    /** Minutes before this are closed and rolled up. */
    function Minutes(): int { MINUTES.start(now) }

    function Hours(): int { HOURS.start(Minutes()) }
  }

  datatype Event = Insert(metric: nat, ts: int, value: real) | Run(now: int, keep: Policy, z: Zone)

  const START: World := World(Tables(map[], map[], map[], map[], None), map[], 0, FLOOR, FLOOR, FLOOR, m => Empty)

  /** Samples arrive no earlier than the last closed minute, and runs in order of time. */
  ghost predicate Admissible(w: World, e: Event) {
    match e
    case Insert(_, ts, _) => ts >= w.Minutes() && ts >= 0
    case Run(now, _, z) => now >= w.now && ValidZone(z)
  }

  function Greater(a: int, b: int): int { if a >= b then a else b }

  /** Where a run's cutoff leaves a level's watermark. */
  function Raised(from: int, keep: Keep, cutoff: int): int {
    if keep.For? then Greater(from, cutoff) else from
  }

  function MinuteCut(now: int, keep: Keep, z: Zone): int {
    var minutes := MINUTES.start(now);
    Lesser(if keep.For? then now - keep.ms else now, Lesser(HOURS.start(minutes), z.start(minutes)))
  }

  function RawCut(now: int, keep: Keep): int {
    Lesser(if keep.For? then now - keep.ms else now, MINUTES.start(now))
  }

  function HourCut(now: int, keep: Keep): int {
    if keep.For? then now - keep.ms else now
  }

  /** The tables after the three rollups, before pruning. */
  ghost function Rolled(t: Tables, now: int, z: Zone): Tables
    requires ValidZone(z)
  {
    var minutes := MINUTES.start(now);
    var t1 := t.(minute := RollLevel(t.minute, Samples(t.raw), MINUTES, minutes));
    var t2 := t1.(hour := RollLevel(t1.hour, t1.minute, HOURS, HOURS.start(minutes)));
    RollDays(t2, z.start(minutes), z)
  }

  function AfterInsert(w: World, metric: nat, ts: int, value: real): World {
    w.(t := WithSample(w.t, metric, ts, value), ever := w.ever[Key(metric, ts) := value])
  }

  /** What deleted daily rows add up to, once the rows of `day` before the cutoff are deleted too. */
  function Losing(lost: nat -> Part, day: Table, now: int, keep: Keep): nat -> Part {
    if keep.For? then (m: nat) => Plus(lost(m), Total(day, m, FLOOR, now - keep.ms)) else lost
  }

  ghost function AfterRun(w: World, now: int, keep: Policy, z: Zone): World
    requires ValidZone(z)
  {
    var rolled := Rolled(w.t, now, z);
    var minutes := MINUTES.start(now);
    World(Prune(rolled, now, keep, minutes, HOURS.start(minutes), z.start(minutes)), w.ever, now,
          Raised(w.rawFrom, keep.raw, RawCut(now, keep.raw)),
          if rolled.until == None then w.minuteFrom
              else Raised(w.minuteFrom, keep.minute, MinuteCut(now, keep.minute, z)),
          Raised(w.hourFrom, keep.hour, HourCut(now, keep.hour)),
          Losing(w.lost, rolled.day, now, keep.day))
  }

  ghost function Next(w: World, e: Event): World
    requires e.Run? ==> ValidZone(e.z)
  {
    match e
    case Insert(metric, ts, value) => AfterInsert(w, metric, ts, value)
    case Run(now, keep, z) => AfterRun(w, now, keep, z)
  }

  /** The tables of a history are those that the database's own methods make: InsertSample and RunHousekeeping. */
  lemma RunIsHousekeeping(w: World, now: int, keep: Policy, z: Zone)
    requires ValidZone(z)
    ensures Next(w, Run(now, keep, z)).t == Housekeep(w.t, now, keep, z)
    ensures forall m: nat, ts: int, v: real :: Next(w, Insert(m, ts, v)).t == WithSample(w.t, m, ts, v)
  {
  }

  // ---- the invariant -----------------------------------------------------------------------------

  /** All daily rows, with those deleted, add up to all samples before `until`. */
  ghost predicate Conserved(day: Table, lost: nat -> Part, src: Table, until: int) {
    forall m: nat {:trigger Total(src, m, FLOOR, until)} ::
      Plus(lost(m), Total(day, m, FLOOR, until)) == Total(src, m, FLOOR, until)
  }

  ghost predicate Within(t: Table, a: int, b: int) {
    forall k :: k in t ==> a <= k.ts < b && t[k].count > 0
  }

  /** Before the first daily run nothing was deleted; after it, minutes are deleted only once folded. */
  ghost predicate DaysOk(t: Tables, lost: nat -> Part, src: Table, minuteFrom: int, minutes: int) {
    if t.until.None? then t.day == map[] && minuteFrom == FLOOR && forall m :: lost(m) == Empty
    else
      var u := t.until.value;
      && -2 * DAY <= u <= minutes && minuteFrom <= u && Aligned(MINUTES, u)
      && Within(t.day, FLOOR, u) && Conserved(t.day, lost, src, u)
  }

  ghost predicate Inv(w: World) {
    && 0 <= w.now && (forall k :: k in w.ever ==> 0 <= k.ts)
    && w.t.raw == RawSince(w.ever, w.rawFrom) && w.rawFrom <= w.Minutes()
    && FLOOR <= w.minuteFrom <= w.Hours()
    && ExactFrom(w.t.minute, w.Src(), MINUTES, w.minuteFrom, w.Minutes())
    && Grounded(w.t.minute, w.Src(), MINUTES, w.Minutes())
    && ExactFrom(w.t.hour, w.Src(), HOURS, w.hourFrom, w.Hours())
    && Grounded(w.t.hour, w.Src(), HOURS, w.Hours())
    && DaysOk(w.t, w.lost, w.Src(), w.minuteFrom, w.Minutes())
  }

  // ---- inserting ---------------------------------------------------------------------------------

  /** The two agree on everything before `e`. */
  ghost predicate SameBefore(s: Table, u: Table, e: int) {
    forall m: nat, ts: int {:trigger Cell(u, m, ts)} :: ts < e ==> Cell(s, m, ts) == Cell(u, m, ts)
  }

  lemma SameBucket(s: Table, u: Table, g: Grid, e: int, m: nat, ts: int)
    requires ValidGrid(g) && Aligned(g, e) && SameBefore(s, u, e) && ts < e && Aligned(g, ts)
    ensures Bucket(s, m, ts, g) == Bucket(u, m, ts, g)
  {
    Apart(g, ts, e);
    TotalSame(s, u, m, ts, g.next(ts));
  }

  lemma ExactCarries(t: Table, s: Table, u: Table, g: Grid, w: int, e: int)
    requires ValidGrid(g) && Aligned(g, e) && SameBefore(s, u, e)
    requires ExactFrom(t, s, g, w, e) && Grounded(t, s, g, e)
    ensures ExactFrom(t, u, g, w, e) && Grounded(t, u, g, e)
  {
    forall m: nat, ts: int | w <= ts < e
      ensures RowExact(t, u, g, m, ts)
    {
      assert RowExact(t, s, g, m, ts);
      if Aligned(g, ts) { SameBucket(s, u, g, e, m, ts); }
    }
    forall k | k in t
      ensures Bucket(u, k.metric, k.ts, g) != Empty
    {
      SameBucket(s, u, g, e, k.metric, k.ts);
    }
  }

  lemma DaysCarry(t: Tables, v: Tables, lost: nat -> Part, s: Table, u: Table, minuteFrom: int, minutes: int)
    requires DaysOk(t, lost, s, minuteFrom, minutes) && SameBefore(s, u, minutes)
    requires v.day == t.day && v.until == t.until
    ensures DaysOk(v, lost, u, minuteFrom, minutes)
  {
    if t.until.Some? {
      forall m: nat
        ensures Plus(lost(m), Total(t.day, m, FLOOR, t.until.value)) == Total(u, m, FLOOR, t.until.value)
      {
        TotalSame(s, u, m, FLOOR, t.until.value);
      }
    }
  }

  lemma Ends(w: World)
    ensures Aligned(MINUTES, w.Minutes()) && Aligned(HOURS, w.Hours()) && Aligned(MINUTES, w.Hours())
    ensures w.Hours() <= w.Minutes() <= w.now
  {
    FixedGrids();
    StartIsAligned(MINUTES, w.now);
    StartIsAligned(HOURS, w.Minutes());
    HoursOnMinutes(w.Hours());
  }

  lemma InsertIsLate(w: World, metric: nat, ts: int, value: real)
    requires Inv(w) && ts >= w.Minutes()
    ensures var v := AfterInsert(w, metric, ts, value);
            SameBefore(w.Src(), v.Src(), w.Minutes()) && v.t.raw == RawSince(v.ever, v.rawFrom)
  {
    OnlyLater(w.ever, Key(metric, ts), value, w.Minutes());
    SinceGrows(w.t.raw, w.ever, w.rawFrom, Key(metric, ts), value);
  }

  lemma OnlyLater(ever: map<Key, real>, k: Key, value: real, e: int)
    requires e <= k.ts
    ensures SameBefore(Samples(ever), Samples(ever[k := value]), e)
  {
  }

  lemma SinceGrows(raw: map<Key, real>, ever: map<Key, real>, from: int, k: Key, value: real)
    requires raw == RawSince(ever, from) && from <= k.ts
    ensures raw[k := value] == RawSince(ever[k := value], from)
  {
  }

  lemma InsertKeeps(w: World, metric: nat, ts: int, value: real)
    requires Inv(w) && ts >= w.Minutes() && ts >= 0
    ensures Inv(AfterInsert(w, metric, ts, value))
  {
    var v := AfterInsert(w, metric, ts, value);
    InsertIsLate(w, metric, ts, value);
    LevelsCarry(w, v);
    DaysCarry(w.t, v.t, w.lost, w.Src(), v.Src(), w.minuteFrom, w.Minutes());
  }

  lemma LevelsCarry(w: World, v: World)
    requires Inv(w) && SameBefore(w.Src(), v.Src(), w.Minutes())
    ensures ExactFrom(w.t.minute, v.Src(), MINUTES, w.minuteFrom, w.Minutes())
    ensures Grounded(w.t.minute, v.Src(), MINUTES, w.Minutes())
    ensures ExactFrom(w.t.hour, v.Src(), HOURS, w.hourFrom, w.Hours()) && Grounded(w.t.hour, v.Src(), HOURS, w.Hours())
  {
    FixedGrids();
    Ends(w);
    ExactCarries(w.t.minute, w.Src(), v.Src(), MINUTES, w.minuteFrom, w.Minutes());
    ExactCarries(w.t.hour, w.Src(), v.Src(), HOURS, w.hourFrom, w.Hours());
  }

  // ---- one run: minutes and hours ------------------------------------------------------------------

  /** What is left of the raw samples is whole from the first open minute on. */
  lemma RawFeeds(raw: map<Key, real>, ever: map<Key, real>, from: int, e: int, f: int)
    requires raw == RawSince(ever, from) && from <= e && Aligned(MINUTES, e)
    ensures Feeds(Samples(raw), Samples(ever), MINUTES, e, f)
  {
    var s, u := Samples(raw), Samples(ever);
    forall m: nat, ts: int | Aligned(MINUTES, ts) && ts < f
      ensures e <= ts ==> Bucket(s, m, ts, MINUTES) == Bucket(u, m, ts, MINUTES)
      ensures Bucket(s, m, ts, MINUTES) != Empty ==> Bucket(u, m, ts, MINUTES) != Empty
    {
      if e <= ts { TotalSame(s, u, m, ts, MINUTES.next(ts)); }
      if Bucket(s, m, ts, MINUTES) != Empty {
        var at := TotalFound(s, m, ts, MINUTES.next(ts));
        TotalFinds(u, m, ts, MINUTES.next(ts), at);
      }
    }
  }

  /** Exact minutes add up to the samples, over any range of whole minutes. */
  lemma MinutesAddUp(minute: Table, src: Table, w: int, e: int, m: nat, a: int, b: int)
    requires ExactFrom(minute, src, MINUTES, w, e) && Real(src)
    requires w <= a <= b <= e && Aligned(MINUTES, a) && Aligned(MINUTES, b)
    ensures Total(minute, m, a, b) == Total(src, m, a, b)
  {
    FixedGrids();
    forall ts | a <= ts < b
      ensures Cell(minute, m, ts) == if Aligned(MINUTES, ts) then Bucket(src, m, ts, MINUTES) else Empty
    {
      assert RowExact(minute, src, MINUTES, m, ts);
      if Key(m, ts) in minute {
        TotalCounts(src, m, ts, MINUTES.next(ts));
        RowRoundTrip(Bucket(src, m, ts, MINUTES));
      }
    }
    BucketsAddUp(minute, src, m, MINUTES, a, b);
  }

  /** The minutes have every sample of each hour that opens at or after `w`. */
  lemma MinutesFeed(minute: Table, src: Table, w: int, e: int, f: int, minutes: int)
    requires ExactFrom(minute, src, MINUTES, w, minutes) && Grounded(minute, src, MINUTES, minutes) && Real(src)
    requires w <= e <= f <= minutes && Aligned(HOURS, e) && Aligned(HOURS, f)
    ensures Feeds(minute, src, HOURS, e, f)
  {
    FixedGrids();
    forall m: nat, ts: int | Aligned(HOURS, ts) && ts < f
      ensures e <= ts ==> Bucket(minute, m, ts, HOURS) == Bucket(src, m, ts, HOURS)
      ensures Bucket(minute, m, ts, HOURS) != Empty ==> Bucket(src, m, ts, HOURS) != Empty
    {
      var end := HOURS.next(ts);
      Apart(HOURS, ts, f);
      NextIsAligned(HOURS, ts);
      HoursOnMinutes(ts);
      HoursOnMinutes(end);
      if e <= ts { MinutesAddUp(minute, src, w, minutes, m, ts, end); }
      if Bucket(minute, m, ts, HOURS) != Empty { MinutesFind(minute, src, minutes, m, ts, end); }
    }
  }

  /** A stored minute has samples. */
  lemma MinutesFind(minute: Table, src: Table, minutes: int, m: nat, a: int, b: int)
    requires Grounded(minute, src, MINUTES, minutes) && Total(minute, m, a, b) != Empty && Aligned(MINUTES, b)
    ensures Total(src, m, a, b) != Empty
  {
    FixedGrids();
    var at := TotalFound(minute, m, a, b);
    assert Key(m, at) in minute;
    var x := TotalFound(src, m, at, MINUTES.next(at));
    Apart(MINUTES, at, b);
    TotalFinds(src, m, a, b, x);
  }

  lemma RunMinutes(w: World, now: int)
    requires Inv(w) && now >= w.now
    ensures var f := MINUTES.start(now); var minute := RollLevel(w.t.minute, Samples(w.t.raw), MINUTES, f);
            ExactFrom(minute, w.Src(), MINUTES, w.minuteFrom, f) && Grounded(minute, w.Src(), MINUTES, f)
  {
    FixedGrids();
    Ends(w);
    var f := MINUTES.start(now);
    StartGrows(MINUTES, w.now, now);
    StartIsAligned(MINUTES, now);
    RawFeeds(w.t.raw, w.ever, w.rawFrom, w.Minutes(), f);
    RollLevelExact(w.t.minute, Samples(w.t.raw), w.Src(), MINUTES, w.minuteFrom, w.Minutes(), f);
  }

  lemma RunHours(w: World, now: int)
    requires Inv(w) && now >= w.now
    ensures var minutes := MINUTES.start(now); var f := HOURS.start(minutes);
            var minute := RollLevel(w.t.minute, Samples(w.t.raw), MINUTES, minutes);
            var hour := RollLevel(w.t.hour, minute, HOURS, f);
            ExactFrom(hour, w.Src(), HOURS, w.hourFrom, f) && Grounded(hour, w.Src(), HOURS, f)
  {
    FixedGrids();
    Ends(w);
    RunMinutes(w, now);
    var minutes := MINUTES.start(now);
    var f := HOURS.start(minutes);
    StartGrows(MINUTES, w.now, now);
    StartGrows(HOURS, w.Minutes(), minutes);
    StartIsAligned(HOURS, minutes);
    var minute := RollLevel(w.t.minute, Samples(w.t.raw), MINUTES, minutes);
    MinutesFeed(minute, w.Src(), w.minuteFrom, w.Hours(), f, minutes);
    RollLevelExact(w.t.hour, minute, w.Src(), HOURS, w.hourFrom, w.Hours(), f);
  }

  // ---- one run: days -----------------------------------------------------------------------------

  /** The upsert merges exactly: the merged row stands for both pieces' samples. */
  lemma MergeRowAdds(a: Row, b: Row)
    requires a.count > 0 && b.count > 0
    ensures PartOf(MergeRow(a, b)) == Plus(PartOf(a), PartOf(b))
  {
    var n := (a.count + b.count) as real;
    var sum := a.avg * a.count as real + b.avg * b.count as real;
    assert sum / n * n == sum;
  }

  lemma MergeDayCell(day: Table, minute: Table, d: int, from: int, to: int, m: nat, ts: int)
    requires Real(day) && Real(minute)
    ensures Cell(MergeDay(day, minute, d, from, to), m, ts)
            == if ts == d then Plus(Cell(day, m, d), Total(minute, m, from, to)) else Cell(day, m, ts)
  {
    var k, p := Key(m, d), Total(minute, m, from, to);
    if ts == d {
      if p != Empty {
        var at := TotalFound(minute, m, from, to);
        assert Key(m, at) in minute && from <= at < to;
        TotalCounts(minute, m, from, to);
        RowRoundTrip(p);
        if k in day { MergeRowAdds(day[k], RowOf(p)); }
      } else {
        forall x | from <= x < to
          ensures Key(m, x) !in minute
        {
          if Key(m, x) in minute { TotalFinds(minute, m, from, to, x); }
        }
      }
    }
  }

  lemma MergeDayTotal(day: Table, minute: Table, d: int, from: int, to: int, m: nat, a: int, b: int)
    requires Real(day) && Real(minute) && a <= d < b
    ensures Total(MergeDay(day, minute, d, from, to), m, a, b) == Plus(Total(day, m, a, b), Total(minute, m, from, to))
  {
    var u := MergeDay(day, minute, d, from, to);
    forall ts
      ensures Cell(u, m, ts) == if ts == d then Plus(Cell(day, m, d), Total(minute, m, from, to)) else Cell(day, m, ts)
    {
      MergeDayCell(day, minute, d, from, to, m, ts);
    }
    TotalGrows(day, u, m, d, Total(minute, m, from, to), a, b);
  }

  lemma MergeDayWithin(day: Table, minute: Table, d: int, from: int, to: int, a: int, b: int)
    requires Within(day, a, b) && Real(minute) && a <= d < b
    ensures Within(MergeDay(day, minute, d, from, to), a, b)
  {
    var u := MergeDay(day, minute, d, from, to);
    forall k | k in u
      ensures a <= k.ts < b && u[k].count > 0
    {
      if k !in day || u[k] != day[k] {
        var s :| s in minute && from <= s.ts < to && Key(s.metric, d) == k;
        TotalFinds(minute, k.metric, from, to, s.ts);
        TotalCounts(minute, k.metric, from, to);
      }
    }
  }

  /** However the range is cut at midnights, the daily rows grow by exactly its minutes. */
  lemma {:induction false} FoldAddsUp(day: Table, minute: Table, from: int, end: int, z: Zone, m: nat)
    requires ValidZone(z) && -2 * DAY <= from <= end && Within(day, FLOOR, end) && Real(minute)
    ensures var u := FoldDays(day, minute, from, end, z);
            && Total(u, m, FLOOR, end) == Plus(Total(day, m, FLOOR, end), Total(minute, m, from, end))
            && Within(u, FLOOR, end)
    decreases end - from
  {
    if from < end {
      var d := z.start(from);
      var to := Lesser(z.next(d), end);
      var u := MergeDay(day, minute, d, from, to);
      MergeDayTotal(day, minute, d, from, to, m, FLOOR, end);
      MergeDayWithin(day, minute, d, from, to, FLOOR, end);
      FoldAddsUp(u, minute, to, end, z, m);
      PlusAssociates(Total(day, m, FLOOR, end), Total(minute, m, from, to), Total(minute, m, to, end));
      TotalSplits(minute, m, from, to, end);
    }
  }

  lemma {:induction false} FoldWithin(day: Table, minute: Table, from: int, end: int, z: Zone)
    requires ValidZone(z) && -2 * DAY <= from <= end && Within(day, FLOOR, end) && Real(minute)
    ensures Within(FoldDays(day, minute, from, end, z), FLOOR, end)
  {
    FoldAddsUp(day, minute, from, end, z, 0);
  }

  /** Folding on from `u` keeps the account. */
  lemma FoldConserves(day: Table, minute: Table, src: Table, lost: nat -> Part, w: int, u: int, end: int,
                      minutes: int, z: Zone)
    requires ValidZone(z) && -2 * DAY <= u <= end <= minutes && w <= u && Within(day, FLOOR, u)
    requires Aligned(MINUTES, u) && Aligned(MINUTES, end) && Conserved(day, lost, src, u)
    requires ExactFrom(minute, src, MINUTES, w, minutes) && Real(minute) && Real(src)
    ensures Conserved(FoldDays(day, minute, u, end, z), lost, src, end)
  {
    forall m: nat
      ensures Plus(lost(m), Total(FoldDays(day, minute, u, end, z), m, FLOOR, end)) == Total(src, m, FLOOR, end)
    {
      FoldAddsUp(day, minute, u, end, z, m);
      TotalSplits(day, m, FLOOR, u, end);
      TotalEmpty(day, m, u, end);
      MinutesAddUp(minute, src, w, minutes, m, u, end);
      TotalSplits(src, m, FLOOR, u, end);
      var piece := Total(minute, m, u, end);
      PlusAssociates(lost(m), Total(day, m, FLOOR, u), piece);
      assert Plus(lost(m), Total(day, m, FLOOR, u)) == Total(src, m, FLOOR, u);
    }
  }

  /** Every sample of a closed, kept minute shows in that minute's row. */
  lemma SampleHasMinute(minute: Table, src: Table, w: int, minutes: int, m: nat, ts: int)
    requires ExactFrom(minute, src, MINUTES, w, minutes) && Key(m, ts) in src
    requires w <= MINUTES.start(ts) && ts < minutes
    ensures Key(m, MINUTES.start(ts)) in minute
  {
    FixedGrids();
    var x := MINUTES.start(ts);
    StartIsAligned(MINUTES, ts);
    TotalFinds(src, m, x, MINUTES.next(x), ts);
    assert RowExact(minute, src, MINUTES, m, x);
  }

  /** A first daily run starts at or before the first sample. */
  lemma NothingBefore(minute: Table, src: Table, minutes: int, start: int, m: nat)
    requires ExactFrom(minute, src, MINUTES, FLOOR, minutes) && NoneBefore(minute, start)
    requires start <= minutes && Aligned(MINUTES, start) && (forall k :: k in src ==> 0 <= k.ts)
    ensures Total(src, m, FLOOR, start) == Empty
  {
    FixedGrids();
    forall ts | FLOOR <= ts < start
      ensures Key(m, ts) !in src
    {
      if Key(m, ts) in src {
        SampleHasMinute(minute, src, FLOOR, minutes, m, ts);
      }
    }
    TotalEmpty(src, m, FLOOR, start);
  }

  /** The daily level of a run: the account is kept, and it reaches every minute that may be deleted. */
  lemma RunDays(t: Tables, lost: nat -> Part, src: Table, w: int, minutes: int, before: int, z: Zone)
    requires ValidZone(z) && 0 <= minutes && before <= minutes && Aligned(MINUTES, minutes) && Real(src)
    requires forall k :: k in src ==> 0 <= k.ts
    requires DaysOk(t, lost, src, w, before)
    requires ExactFrom(t.minute, src, MINUTES, w, minutes) && Grounded(t.minute, src, MINUTES, minutes)
    ensures var days := z.start(minutes); var u := RollDays(t, days, z);
            && DaysOk(u, lost, src, w, minutes) && u == t.(day := u.day, until := u.until)
            && (if u.until.None? then NoneBefore(t.minute, days) else days <= u.until.value)
  {
    if t.until.Some? {
      LaterDays(t, lost, src, w, minutes, before, z);
    } else {
      FirstDays(t, lost, src, minutes, z);
    }
  }

  lemma LaterDays(t: Tables, lost: nat -> Part, src: Table, w: int, minutes: int, before: int, z: Zone)
    requires ValidZone(z) && before <= minutes && Aligned(MINUTES, minutes) && Real(src)
    requires DaysOk(t, lost, src, w, before) && t.until.Some?
    requires ExactFrom(t.minute, src, MINUTES, w, minutes) && Grounded(t.minute, src, MINUTES, minutes)
    ensures var days := z.start(minutes); var u := RollDays(t, days, z);
            DaysOk(u, lost, src, w, minutes) && u == t.(day := u.day, until := u.until) && u.until.Some?
                && days <= u.until.value
  {
    var days := z.start(minutes);
    if t.until.value < days {
      FoldConserves(t.day, t.minute, src, lost, w, t.until.value, days, minutes, z);
      FoldWithinFrom(t.day, t.minute, t.until.value, days, z);
    }
  }

  lemma FoldWithinFrom(day: Table, minute: Table, u: int, end: int, z: Zone)
    requires ValidZone(z) && -2 * DAY <= u <= end && Within(day, FLOOR, u) && Real(minute)
    ensures Within(FoldDays(day, minute, u, end, z), FLOOR, end)
  {
    FoldWithin(day, minute, u, end, z);
  }

  /** Nothing before the first daily run's start, so folding from there accounts for every sample. */
  lemma FirstFold(minute: Table, src: Table, lost: nat -> Part, start: int, days: int, minutes: int, z: Zone)
    requires ValidZone(z) && Real(src) && (forall k :: k in src ==> 0 <= k.ts) && (forall m :: lost(m) == Empty)
    requires -2 * DAY <= start <= days <= minutes && Aligned(MINUTES, start) && Aligned(MINUTES, days)
    requires ExactFrom(minute, src, MINUTES, FLOOR, minutes) && Real(minute) && NoneBefore(minute, start)
    ensures var u := FoldDays(map[], minute, start, days, z);
            Conserved(u, lost, src, days) && Within(u, FLOOR, days)
  {
    forall m: nat
      ensures Plus(lost(m), Total(map[], m, FLOOR, start)) == Total(src, m, FLOOR, start)
    {
      NothingBefore(minute, src, minutes, start, m);
      TotalEmpty(map[], m, FLOOR, start);
    }
    FoldConserves(map[], minute, src, lost, FLOOR, start, days, minutes, z);
    FoldWithinFrom(map[], minute, start, days, z);
  }

  lemma FirstDays(t: Tables, lost: nat -> Part, src: Table, minutes: int, z: Zone)
    requires ValidZone(z) && 0 <= minutes && Aligned(MINUTES, minutes) && Real(src)
    requires forall k :: k in src ==> 0 <= k.ts
    requires t.until == None && t.day == map[] && forall m :: lost(m) == Empty
    requires ExactFrom(t.minute, src, MINUTES, FLOOR, minutes) && Grounded(t.minute, src, MINUTES, minutes)
    ensures var days := z.start(minutes); var u := RollDays(t, days, z);
            && DaysOk(u, lost, src, FLOOR, minutes) && u == t.(day := u.day, until := u.until)
            && (if u.until.None? then NoneBefore(t.minute, days) else u.until.value == days)
  {
    var days := z.start(minutes);
    var oldest := Oldest(t.minute);
    if oldest.Some? {
      var start := z.start(oldest.value);
      MinutesAreLate(t.minute, src, minutes, oldest.value);
      if start < days {
        assert Real(t.minute) && NoneBefore(t.minute, start);
        FirstFold(t.minute, src, lost, start, days, minutes, z);
      }
    }
  }

  lemma MinutesAreLate(minute: Table, src: Table, minutes: int, ts: int)
    requires Grounded(minute, src, MINUTES, minutes) && (forall k :: k in src ==> 0 <= k.ts)
    requires exists k :: k in minute && k.ts == ts
    ensures 0 <= ts
  {
    var k :| k in minute && k.ts == ts;
    var at := TotalFound(src, k.metric, ts, MINUTES.next(ts));
    assert Key(k.metric, at) in src;
    assert 0 <= at < ts + MIN && ts % MIN == 0;
  }

  // ---- one run: pruning ----------------------------------------------------------------------------

  lemma SinceExact(t: Table, src: Table, g: Grid, w: int, e: int, cutoff: int)
    requires ExactFrom(t, src, g, w, e) && Grounded(t, src, g, e)
    ensures ExactFrom(Since(t, cutoff), src, g, Greater(w, cutoff), e) && Grounded(Since(t, cutoff), src, g, e)
  {
    forall m: nat, ts: int | Greater(w, cutoff) <= ts < e
      ensures RowExact(Since(t, cutoff), src, g, m, ts)
    {
      assert RowExact(t, src, g, m, ts);
    }
  }

  /** Deleting daily rows moves what they add up to into `lost`. */
  lemma SinceConserves(day: Table, lost: nat -> Part, src: Table, u: int, now: int, keep: Keep)
    requires FLOOR <= u && Within(day, FLOOR, u) && Conserved(day, lost, src, u)
    ensures Within(Kept(day, now, keep), FLOOR, u)
    ensures Conserved(Kept(day, now, keep), Losing(lost, day, now, keep), src, u)
  {
    if keep.For? {
      var cutoff := now - keep.ms;
      forall m: nat
        ensures Plus(Losing(lost, day, now, keep)(m), Total(Since(day, cutoff), m, FLOOR, u)) == Total(src, m, FLOOR, u)
      {
        SinceTotal(day, m, u, cutoff);
        PlusAssociates(lost(m), Total(day, m, FLOOR, cutoff), Total(Since(day, cutoff), m, FLOOR, u));
        assert Plus(lost(m), Total(day, m, FLOOR, u)) == Total(src, m, FLOOR, u);
      }
    }
  }

  lemma SinceTotal(day: Table, m: nat, u: int, cutoff: int)
    requires FLOOR <= u && Within(day, FLOOR, u)
    ensures Plus(Total(day, m, FLOOR, cutoff), Total(Since(day, cutoff), m, FLOOR, u)) == Total(day, m, FLOOR, u)
  {
    var c := if cutoff < FLOOR then FLOOR else if cutoff > u then u else cutoff;
    TotalSplits(day, m, FLOOR, c, u);
    TotalSplits(Since(day, cutoff), m, FLOOR, c, u);
    TotalEmpty(Since(day, cutoff), m, FLOOR, c);
    TotalSame(day, Since(day, cutoff), m, c, u);
    if cutoff > u {
      TotalSplits(day, m, FLOOR, u, cutoff);
      TotalEmpty(day, m, u, cutoff);
      TotalEmpty(Since(day, cutoff), m, FLOOR, u);
    }
  }

  lemma PruneDays(t: Tables, v: Tables, lost: nat -> Part, src: Table, w: int, x: int, minutes: int, now: int,
                  keep: Keep)
    requires DaysOk(t, lost, src, w, minutes) && v.until == t.until && v.day == Kept(t.day, now, keep)
    requires if t.until.None? then x == w else x <= t.until.value
    ensures DaysOk(v, Losing(lost, t.day, now, keep), src, x, minutes)
  {
    if t.until.Some? {
      SinceConserves(t.day, lost, src, t.until.value, now, keep);
    } else {
      forall m: nat
        ensures Losing(lost, t.day, now, keep)(m) == Empty
      {
        if keep.For? { TotalEmpty(t.day, m, FLOOR, now - keep.ms); }
      }
    }
  }

  lemma PruneMinutes(minute: Table, src: Table, w: int, minutes: int, now: int, keep: Keep, z: Zone, idle: bool)
    requires ExactFrom(minute, src, MINUTES, w, minutes) && Grounded(minute, src, MINUTES, minutes)
    requires minutes == MINUTES.start(now)
    requires idle ==> NoneBefore(minute, z.start(minutes))
    ensures var v := if keep.For? then Since(minute, MinuteCut(now, keep, z)) else minute;
            var x := if idle then w else Raised(w, keep, MinuteCut(now, keep, z));
            ExactFrom(v, src, MINUTES, x, minutes) && Grounded(v, src, MINUTES, minutes)
  {
    if keep.For? {
      SinceExact(minute, src, MINUTES, w, minutes, MinuteCut(now, keep, z));
      if idle { assert Since(minute, MinuteCut(now, keep, z)) == minute; }
    }
  }

  /** The tables once everything closed is rolled up, before anything is deleted. */
  ghost predicate Covered(t: Tables, w: World, minutes: int, days: int) {
    && t.raw == w.t.raw
    && ExactFrom(t.minute, w.Src(), MINUTES, w.minuteFrom, minutes) && Grounded(t.minute, w.Src(), MINUTES, minutes)
    && ExactFrom(t.hour, w.Src(), HOURS, w.hourFrom, HOURS.start(minutes))
    && Grounded(t.hour, w.Src(), HOURS, HOURS.start(minutes))
    && DaysOk(t, w.lost, w.Src(), w.minuteFrom, minutes)
    && (if t.until.None? then NoneBefore(t.minute, days) else days <= t.until.value)
  }

  lemma RunCovers(w: World, now: int, z: Zone)
    requires Inv(w) && now >= w.now && ValidZone(z)
    ensures Covered(Rolled(w.t, now, z), w, MINUTES.start(now), z.start(MINUTES.start(now)))
  {
    var minutes := MINUTES.start(now);
    var rolled := Rolled(w.t, now, z);
    Ends(w.(now := now));
    StartNotEarlier(w.now, now);
    RunMinutes(w, now);
    RunHours(w, now);
    var t2 := w.t.(minute := rolled.minute, hour := rolled.hour);
    RunDays(t2, w.lost, w.Src(), w.minuteFrom, minutes, w.Minutes(), z);
  }

  lemma StartNotEarlier(a: int, b: int)
    requires a <= b
    ensures MINUTES.start(a) <= MINUTES.start(b)
    ensures HOURS.start(MINUTES.start(a)) <= HOURS.start(MINUTES.start(b))
    ensures 0 <= b ==> 0 <= MINUTES.start(b)
  {
    FixedGrids();
    StartGrows(MINUTES, a, b);
    StartGrows(HOURS, MINUTES.start(a), MINUTES.start(b));
    if 0 <= b { StartGrows(MINUTES, 0, b); }
  }

  /** `v` is `w` after the rollups and the pruning of one run. */
  ghost predicate Pruned(w: World, rolled: Tables, v: World, keep: Policy, z: Zone) {
    && v.now >= w.now && v.ever == w.ever
    && Covered(rolled, w, v.Minutes(), z.start(v.Minutes()))
    && v.t == Prune(rolled, v.now, keep, v.Minutes(), v.Hours(), z.start(v.Minutes()))
    && v.rawFrom == Raised(w.rawFrom, keep.raw, RawCut(v.now, keep.raw))
    && v.hourFrom == Raised(w.hourFrom, keep.hour, HourCut(v.now, keep.hour))
    && v.minuteFrom == (if rolled.until == None then w.minuteFrom
                        else Raised(w.minuteFrom, keep.minute, MinuteCut(v.now, keep.minute, z)))
    && v.lost == Losing(w.lost, rolled.day, v.now, keep.day)
  }

  lemma PrunedMinutes(w: World, rolled: Tables, v: World, keep: Policy, z: Zone)
    requires Pruned(w, rolled, v, keep, z)
    ensures ExactFrom(v.t.minute, v.Src(), MINUTES, v.minuteFrom, v.Minutes())
    ensures Grounded(v.t.minute, v.Src(), MINUTES, v.Minutes())
  {
    PruneMinutes(rolled.minute, w.Src(), w.minuteFrom, v.Minutes(), v.now, keep.minute, z, rolled.until == None);
  }

  lemma PruneHours(hour: Table, src: Table, from: int, e: int, now: int, keep: Keep)
    requires ExactFrom(hour, src, HOURS, from, e) && Grounded(hour, src, HOURS, e)
    ensures var u := Kept(hour, now, keep);
            ExactFrom(u, src, HOURS, Raised(from, keep, HourCut(now, keep)), e) && Grounded(u, src, HOURS, e)
  {
    if keep.For? { SinceExact(hour, src, HOURS, from, e, now - keep.ms); }
  }

  lemma PrunedHours(w: World, rolled: Tables, v: World, keep: Policy, z: Zone)
    requires Pruned(w, rolled, v, keep, z)
    ensures ExactFrom(v.t.hour, v.Src(), HOURS, v.hourFrom, v.Hours())
    ensures Grounded(v.t.hour, v.Src(), HOURS, v.Hours())
  {
    PruneHours(rolled.hour, w.Src(), w.hourFrom, v.Hours(), v.now, keep.hour);
  }

  lemma PrunedDays(w: World, rolled: Tables, v: World, keep: Policy, z: Zone)
    requires Pruned(w, rolled, v, keep, z) && w.minuteFrom <= v.Hours()
    ensures DaysOk(v.t, v.lost, v.Src(), v.minuteFrom, v.Minutes()) && w.minuteFrom <= v.minuteFrom <= v.Hours()
  {
    PruneDays(rolled, v.t, w.lost, w.Src(), w.minuteFrom, v.minuteFrom, v.Minutes(), v.now, keep.day);
  }

  lemma PruneKeeps(w: World, rolled: Tables, v: World, keep: Policy, z: Zone)
    requires Inv(w) && Pruned(w, rolled, v, keep, z)
    ensures Inv(v)
  {
    StartNotEarlier(w.now, v.now);
    PrunedMinutes(w, rolled, v, keep, z);
    PrunedHours(w, rolled, v, keep, z);
    PrunedDays(w, rolled, v, keep, z);
    PruneRaw(w.t.raw, w.ever, w.rawFrom, v.now, keep.raw);
  }

  /** A run, under any policy and in any timezone, keeps the invariant. */
  lemma RunKeeps(w: World, now: int, keep: Policy, z: Zone)
    requires Inv(w) && now >= w.now && ValidZone(z)
    ensures Inv(AfterRun(w, now, keep, z))
  {
    RunCovers(w, now, z);
    PruneKeeps(w, Rolled(w.t, now, z), AfterRun(w, now, keep, z), keep, z);
  }

  lemma PruneRaw(raw: map<Key, real>, ever: map<Key, real>, from: int, now: int, keep: Keep)
    requires raw == RawSince(ever, from) && from <= MINUTES.start(now)
    ensures var v := if keep.For? then RawSince(raw, RawCut(now, keep)) else raw;
            v == RawSince(ever, Raised(from, keep, RawCut(now, keep)))
                && Raised(from, keep, RawCut(now, keep)) <= MINUTES.start(now)
  {
  }
}
