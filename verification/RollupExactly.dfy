/** Exactly when minute and hour rows stay exact, whatever the policies and timezones of the runs. */
module RollupExactly {
  import opened Results
  import opened Totals
  import opened Rollup
  import opened RollupSafety
  import opened RollupHistory
  import opened RollupTheorems

  // ---- what a run rolls up from ----------------------------------------------------------------------

  /** The minutes, or hours, that a run makes rows for. */
  predicate Rolls(t: Table, source: Table, g: Grid, end: int, b: int) {
    var start := NextStart(t, source, g, end);
    start.Some? && start.value <= b < end
  }

  predicate RollsMinute(t: Tables, now: int, x: int) {
    Rolls(t.minute, Samples(t.raw), MINUTES, MINUTES.start(now), x)
  }

  /** The minute rows that the run's hours are made from. */
  function MinutesAfter(t: Tables, now: int): Table {
    RollLevel(t.minute, Samples(t.raw), MINUTES, MINUTES.start(now))
  }

  predicate RollsHour(t: Tables, now: int, b: int) {
    Rolls(t.hour, MinutesAfter(t, now), HOURS, HOURS.start(MINUTES.start(now)), b)
  }

  /** The sample is in a stored minute row, or still a raw sample when its minute is rolled up. */
  predicate Counted(t: Tables, now: int, m: nat, ts: int) {
    Key(m, MINUTES.start(ts)) in t.minute || (RollsMinute(t, now, MINUTES.start(ts)) && Key(m, ts) in t.raw)
  }

  // ---- torn buckets ----------------------------------------------------------------------------------

  /** A minute that is rolled up from some of its samples while others have been deleted. */
  ghost predicate TornMinute(w: World, now: int, m: nat, x: int) {
    && Aligned(MINUTES, x) && RollsMinute(w.t, now, x)
    && (exists ts :: x <= ts < MINUTES.next(x) && Key(m, ts) in w.t.raw)
    && (exists ts :: x <= ts < MINUTES.next(x) && Key(m, ts) in w.ever && Key(m, ts) !in w.t.raw)
  }

  /** An hour that is rolled up from minutes that count some of its samples and not others. */
  ghost predicate TornHour(w: World, now: int, m: nat, b: int) {
    && Aligned(HOURS, b) && RollsHour(w.t, now, b)
    && (exists ts :: b <= ts < HOURS.next(b) && Key(m, ts) in w.ever && Counted(w.t, now, m, ts))
    && (exists ts :: b <= ts < HOURS.next(b) && Key(m, ts) in w.ever && !Counted(w.t, now, m, ts))
  }

  predicate KeptFrom(keep: Keep, cutoff: int, b: int) { keep.For? ==> b >= cutoff }

  /** The run makes a row of a part of a bucket's samples, and its retention keeps the row. */
  ghost predicate Tears(w: World, now: int, keep: Policy, z: Zone) {
    || (exists m: nat, x: int :: TornMinute(w, now, m, x) && KeptFrom(keep.minute, MinuteCut(now, keep.minute, z), x))
    || (exists m: nat, b: int :: TornHour(w, now, m, b) && KeptFrom(keep.hour, HourCut(now, keep.hour), b))
  }

  ghost predicate Exact(w: World) {
    RowsExact(w.t.minute, w.Src(), MINUTES) && RowsExact(w.t.hour, w.Src(), HOURS)
  }

  // ---- parts of a bucket -------------------------------------------------------------------------------

  function CountOf(p: Part): nat { if p.Part? then p.count else 0 }

  lemma {:induction false} FewerCount(t: Table, u: Table, m: nat, a: int, b: int)
    requires forall k :: k in t ==> k in u && t[k] == u[k]
    ensures CountOf(Total(t, m, a, b)) <= CountOf(Total(u, m, a, b))
    decreases b - a
  {
    if a < b { FewerCount(t, u, m, a, b - 1); }
  }

  /** A part that lacks a row of the whole counts less. */
  lemma {:induction false} LackCounts(t: Table, u: Table, m: nat, a: int, b: int, ts: int)
    requires (forall k :: k in t ==> k in u && t[k] == u[k]) && Real(u)
    requires a <= ts < b && Key(m, ts) in u && Key(m, ts) !in t
    ensures CountOf(Total(t, m, a, b)) < CountOf(Total(u, m, a, b))
    decreases b - a
  {
    if ts < b - 1 {
      LackCounts(t, u, m, a, b - 1, ts);
    } else {
      FewerCount(t, u, m, a, b - 1);
    }
  }

  /** A row made of a part of the samples is exact if and only if the part is the whole. */
  lemma PartIsExact(t: Table, u: Table, m: nat, a: int, b: int)
    requires (forall k :: k in t ==> k in u && t[k] == u[k]) && Real(u) && Total(t, m, a, b) != Empty
    ensures Total(u, m, a, b) != Empty
    ensures RowOf(Total(t, m, a, b)) == RowOf(Total(u, m, a, b))
            <==> forall ts :: a <= ts < b && Key(m, ts) in u ==> Key(m, ts) in t
  {
    var at := TotalFound(t, m, a, b);
    TotalFinds(u, m, a, b, at);
    TotalCounts(u, m, a, b);
    if forall ts :: a <= ts < b && Key(m, ts) in u ==> Key(m, ts) in t {
      TotalSame(t, u, m, a, b);
    } else {
      var ts :| a <= ts < b && Key(m, ts) in u && Key(m, ts) !in t;
      LackCounts(t, u, m, a, b, ts);
      TotalCounts(t, m, a, b);
    }
  }

  /** The rows of a level that its roll-up leaves as they are, and those it makes. */
  lemma RolledRows(t: Table, source: Table, g: Grid, end: int, k: Key)
    requires ValidGrid(g) && Aligned(g, end) && (forall x :: x in t && x.ts < end ==> Aligned(g, x.ts))
    ensures var u := RollLevel(t, source, g, end);
            if Aligned(g, k.ts) && Rolls(t, source, g, end, k.ts) && Bucket(source, k.metric, k.ts, g) != Empty
            then k in u && u[k] == RowOf(Bucket(source, k.metric, k.ts, g))
            else (k in u <==> k in t) && (k in u ==> u[k] == t[k])
  {
    var start := NextStart(t, source, g, end);
    if start.Some? && start.value < end {
      StartIsGrid(t, source, g, end);
      GroupedIs(source, g, start.value, end, k.metric, k.ts);
    }
  }

  lemma StartIsGrid(t: Table, source: Table, g: Grid, end: int)
    requires ValidGrid(g) && NextStart(t, source, g, end).Some?
             && (forall x :: x in t && x.ts < end ==> Aligned(g, x.ts))
    ensures Aligned(g, NextStart(t, source, g, end).value)
  {
    var newest := NewestBefore(t, end);
    if newest.Some? {
      var k :| k in t && k.ts == newest.value;
      NextIsAligned(g, newest.value);
    } else {
      StartIsAligned(g, Oldest(source).value);
    }
  }

  // ---- one run: minutes --------------------------------------------------------------------------------

  lemma RawIsPart(w: World)
    requires Inv(w)
    ensures Real(w.Src()) && forall k :: k in Samples(w.t.raw) ==> k in w.Src() && Samples(w.t.raw)[k] == w.Src()[k]
  {
  }

  /** A minute row that the run makes is exact if and only if its minute is not torn. */
  lemma MadeMinute(w: World, now: int, m: nat, x: int)
    requires Inv(w) && Aligned(MINUTES, x) && RollsMinute(w.t, now, x)
             && Bucket(Samples(w.t.raw), m, x, MINUTES) != Empty
    ensures Bucket(w.Src(), m, x, MINUTES) != Empty
    ensures RowOf(Bucket(Samples(w.t.raw), m, x, MINUTES)) == RowOf(Bucket(w.Src(), m, x, MINUTES))
            <==> !TornMinute(w, now, m, x)
  {
    RawIsPart(w);
    PartIsExact(Samples(w.t.raw), w.Src(), m, x, MINUTES.next(x));
    var at := TotalFound(Samples(w.t.raw), m, x, MINUTES.next(x));
    assert Key(m, at) in w.t.raw;
  }

  lemma NothingTorn(w: World, now: int, m: nat, x: int)
    requires Bucket(Samples(w.t.raw), m, x, MINUTES) == Empty
    ensures !TornMinute(w, now, m, x)
  {
    if TornMinute(w, now, m, x) {
      var ts :| x <= ts < MINUTES.next(x) && Key(m, ts) in w.t.raw;
      TotalFinds(Samples(w.t.raw), m, x, MINUTES.next(x), ts);
    }
  }

  lemma MinuteRow(w: World, now: int, k: Key)
    requires Inv(w) && RowsExact(w.t.minute, w.Src(), MINUTES) && k in MinutesAfter(w.t, now)
    ensures Aligned(MINUTES, k.ts) && Bucket(w.Src(), k.metric, k.ts, MINUTES) != Empty
    ensures MinutesAfter(w.t, now)[k] == RowOf(Bucket(w.Src(), k.metric, k.ts, MINUTES))
            <==> !TornMinute(w, now, k.metric, k.ts)
  {
    FixedGrids();
    StartIsAligned(MINUTES, now);
    RolledRows(w.t.minute, Samples(w.t.raw), MINUTES, MINUTES.start(now), k);
    if Bucket(Samples(w.t.raw), k.metric, k.ts, MINUTES) == Empty {
      NothingTorn(w, now, k.metric, k.ts);
    } else if Aligned(MINUTES, k.ts) && RollsMinute(w.t, now, k.ts) {
      MadeMinute(w, now, k.metric, k.ts);
    }
  }

  /** A torn minute has its row. */
  lemma TornMinuteHasRow(w: World, now: int, m: nat, x: int)
    requires Inv(w) && TornMinute(w, now, m, x)
    ensures Key(m, x) in MinutesAfter(w.t, now)
  {
    FixedGrids();
    StartIsAligned(MINUTES, now);
    var raw := Samples(w.t.raw);
    var ts :| x <= ts < MINUTES.next(x) && Key(m, ts) in w.t.raw;
    TotalFinds(raw, m, x, MINUTES.next(x), ts);
    RolledRows(w.t.minute, raw, MINUTES, MINUTES.start(now), Key(m, x));
  }

  // ---- one run: hours ----------------------------------------------------------------------------------

  /** The samples that the run's hours are made of. */
  function Counts(w: World, now: int): map<Key, real> {
    map k | k in w.ever && Counted(w.t, now, k.metric, k.ts) :: w.ever[k]
  }

  /** A minute that is rolled up has no row yet. */
  lemma RolledIsNew(t: Table, source: Table, g: Grid, end: int, k: Key)
    requires ValidGrid(g) && Rolls(t, source, g, end, k.ts) && (forall x :: x in t ==> Aligned(g, x.ts))
             && Aligned(g, k.ts)
    ensures k !in t
  {
    var newest := NewestBefore(t, end);
    if newest.Some? {
      var n :| n in t && n.ts == newest.value;
      NextIsAligned(g, newest.value);
    }
  }

  /** Each minute row of the run stands for exactly the counted samples of its minute. */
  lemma MinuteCounts(w: World, now: int, m: nat, x: int)
    requires Inv(w) && RowsExact(w.t.minute, w.Src(), MINUTES) && now >= w.now && x < MINUTES.start(now)
    ensures Cell(MinutesAfter(w.t, now), m, x) ==
            if Aligned(MINUTES, x) then Bucket(Samples(Counts(w, now)), m, x, MINUTES) else Empty
  {
    if !Aligned(MINUTES, x) {
      MinutesAre(w.t, now, Key(m, x));
    } else if RollsMinute(w.t, now, x) {
      RolledCell(w, now, m, x);
    } else if Key(m, x) in w.t.minute {
      StoredCell(w, now, m, x);
    } else {
      NoCell(w, now, m, x);
    }
  }

  /** The minute rows that a run leaves as they are, and those it makes. */
  lemma MinutesAre(t: Tables, now: int, k: Key)
    requires forall x :: x in t.minute ==> Aligned(MINUTES, x.ts)
    ensures var u, raw := MinutesAfter(t, now), Samples(t.raw);
            if Aligned(MINUTES, k.ts) && RollsMinute(t, now, k.ts) && Bucket(raw, k.metric, k.ts, MINUTES) != Empty
            then k in u && u[k] == RowOf(Bucket(raw, k.metric, k.ts, MINUTES))
            else (k in u <==> k in t.minute) && (k in u ==> u[k] == t.minute[k])
    ensures Aligned(MINUTES, k.ts) && RollsMinute(t, now, k.ts) ==> k !in t.minute
  {
    FixedGrids();
    StartIsAligned(MINUTES, now);
    RolledRows(t.minute, Samples(t.raw), MINUTES, MINUTES.start(now), k);
    if Aligned(MINUTES, k.ts) && RollsMinute(t, now, k.ts) {
      RolledIsNew(t.minute, Samples(t.raw), MINUTES, MINUTES.start(now), k);
    }
  }

  lemma RolledCell(w: World, now: int, m: nat, x: int)
    requires Inv(w) && Aligned(MINUTES, x) && RollsMinute(w.t, now, x)
    ensures Cell(MinutesAfter(w.t, now), m, x) == Bucket(Samples(Counts(w, now)), m, x, MINUTES)
  {
    MinutesAre(w.t, now, Key(m, x));
    SameMinute(x);
    RolledCounts(w, now, m, x);
    if Bucket(Samples(w.t.raw), m, x, MINUTES) != Empty { TotalReturns(Samples(w.t.raw), m, x, MINUTES.next(x)); }
  }

  lemma StoredCell(w: World, now: int, m: nat, x: int)
    requires Inv(w) && RowsExact(w.t.minute, w.Src(), MINUTES) && Aligned(MINUTES, x) && !RollsMinute(w.t, now, x)
    requires Key(m, x) in w.t.minute
    ensures Cell(MinutesAfter(w.t, now), m, x) == Bucket(Samples(Counts(w, now)), m, x, MINUTES)
  {
    MinutesAre(w.t, now, Key(m, x));
    SameMinute(x);
    StoredCounts(w, now, m, x);
  }

  lemma NoCell(w: World, now: int, m: nat, x: int)
    requires Inv(w) && Aligned(MINUTES, x) && !RollsMinute(w.t, now, x) && Key(m, x) !in w.t.minute
    ensures Cell(MinutesAfter(w.t, now), m, x) == Bucket(Samples(Counts(w, now)), m, x, MINUTES)
  {
    MinutesAre(w.t, now, Key(m, x));
    SameMinute(x);
    NoneCounts(w, now, m, x);
  }

  lemma SameMinute(x: int)
    requires Aligned(MINUTES, x)
    ensures forall ts :: x <= ts < MINUTES.next(x) ==> MINUTES.start(ts) == x
  {
    FixedGrids();
    forall ts | x <= ts < MINUTES.next(x)
      ensures MINUTES.start(ts) == x
    {
      assert MINUTES.start(x) == x;
    }
  }

  lemma RolledCounts(w: World, now: int, m: nat, x: int)
    requires Inv(w) && Aligned(MINUTES, x) && RollsMinute(w.t, now, x) && Key(m, x) !in w.t.minute
    requires forall ts :: x <= ts < MINUTES.next(x) ==> MINUTES.start(ts) == x
    ensures Bucket(Samples(Counts(w, now)), m, x, MINUTES) == Bucket(Samples(w.t.raw), m, x, MINUTES)
  {
    RawIsPart(w);
    forall ts | x <= ts < MINUTES.next(x)
      ensures Cell(Samples(Counts(w, now)), m, ts) == Cell(Samples(w.t.raw), m, ts)
    {
      assert Counted(w.t, now, m, ts) <==> Key(m, ts) in w.t.raw;
    }
    TotalSame(Samples(Counts(w, now)), Samples(w.t.raw), m, x, MINUTES.next(x));
  }

  lemma TotalReturns(t: Table, m: nat, a: int, b: int)
    requires Real(t) && Total(t, m, a, b) != Empty
    ensures PartOf(RowOf(Total(t, m, a, b))) == Total(t, m, a, b)
  {
    TotalCounts(t, m, a, b);
    RowRoundTrip(Total(t, m, a, b));
  }

  lemma StoredCounts(w: World, now: int, m: nat, x: int)
    requires Inv(w) && RowsExact(w.t.minute, w.Src(), MINUTES) && Aligned(MINUTES, x) && Key(m, x) in w.t.minute
    requires forall ts :: x <= ts < MINUTES.next(x) ==> MINUTES.start(ts) == x
    ensures Bucket(Samples(Counts(w, now)), m, x, MINUTES) == PartOf(w.t.minute[Key(m, x)])
  {
    RawIsPart(w);
    forall ts | x <= ts < MINUTES.next(x)
      ensures Cell(Samples(Counts(w, now)), m, ts) == Cell(w.Src(), m, ts)
    {
      assert Counted(w.t, now, m, ts);
    }
    TotalSame(Samples(Counts(w, now)), w.Src(), m, x, MINUTES.next(x));
    TotalCounts(w.Src(), m, x, MINUTES.next(x));
    RowRoundTrip(Bucket(w.Src(), m, x, MINUTES));
  }

  lemma NoneCounts(w: World, now: int, m: nat, x: int)
    requires !RollsMinute(w.t, now, x) && Key(m, x) !in w.t.minute
    requires forall ts :: x <= ts < MINUTES.next(x) ==> MINUTES.start(ts) == x
    ensures Bucket(Samples(Counts(w, now)), m, x, MINUTES) == Empty
  {
    TotalEmpty(Samples(Counts(w, now)), m, x, MINUTES.next(x));
  }

  /** So an hour of the run is made of exactly its counted samples. */
  lemma HourCounts(w: World, now: int, m: nat, b: int)
    requires Inv(w) && RowsExact(w.t.minute, w.Src(), MINUTES) && now >= w.now
    requires Aligned(HOURS, b) && b < HOURS.start(MINUTES.start(now))
    ensures Bucket(MinutesAfter(w.t, now), m, b, HOURS) == Bucket(Samples(Counts(w, now)), m, b, HOURS)
  {
    ClosedHour(b, MINUTES.start(now));
    forall x | b <= x < HOURS.next(b)
      ensures Cell(MinutesAfter(w.t, now), m, x) ==
              if Aligned(MINUTES, x) then Bucket(Samples(Counts(w, now)), m, x, MINUTES) else Empty
    {
      MinuteCounts(w, now, m, x);
    }
    MinutesMakeUp(MinutesAfter(w.t, now), Samples(Counts(w, now)), m, b, HOURS.next(b));
  }

  /** A closed hour is made of whole minutes, all of them closed. */
  lemma ClosedHour(b: int, end: int)
    requires Aligned(HOURS, b) && b < HOURS.start(end)
    ensures b <= HOURS.next(b) <= end && Aligned(MINUTES, b) && Aligned(MINUTES, HOURS.next(b))
  {
    FixedGrids();
    StartIsAligned(HOURS, end);
    NextIsAligned(HOURS, b);
    Apart(HOURS, b, HOURS.start(end));
    HoursOnMinutes(b);
    HoursOnMinutes(HOURS.next(b));
  }

  lemma MinutesMakeUp(t: Table, src: Table, m: nat, a: int, b: int)
    requires a <= b && Aligned(MINUTES, a) && Aligned(MINUTES, b)
    requires forall x :: a <= x < b ==>
               Cell(t, m, x) == if Aligned(MINUTES, x) then Bucket(src, m, x, MINUTES) else Empty
    ensures Total(t, m, a, b) == Total(src, m, a, b)
  {
    FixedGrids();
    BucketsAddUp(t, src, m, MINUTES, a, b);
  }

  lemma CountsIsPart(w: World, now: int)
    ensures Real(w.Src())
            && forall k :: k in Samples(Counts(w, now)) ==> k in w.Src() && Samples(Counts(w, now))[k] == w.Src()[k]
  {
  }

  /** An hour row that the run makes is exact if and only if its hour is not torn. */
  lemma MadeHour(w: World, now: int, m: nat, b: int)
    requires Aligned(HOURS, b) && RollsHour(w.t, now, b) && Bucket(Samples(Counts(w, now)), m, b, HOURS) != Empty
    ensures Bucket(w.Src(), m, b, HOURS) != Empty
    ensures RowOf(Bucket(Samples(Counts(w, now)), m, b, HOURS)) == RowOf(Bucket(w.Src(), m, b, HOURS))
            <==> !TornHour(w, now, m, b)
  {
    CountsIsPart(w, now);
    PartIsExact(Samples(Counts(w, now)), w.Src(), m, b, HOURS.next(b));
    var at := TotalFound(Samples(Counts(w, now)), m, b, HOURS.next(b));
    assert Key(m, at) in w.ever && Counted(w.t, now, m, at);
  }

  lemma NothingTornHour(w: World, now: int, m: nat, b: int)
    requires Bucket(Samples(Counts(w, now)), m, b, HOURS) == Empty
    ensures !TornHour(w, now, m, b)
  {
    if TornHour(w, now, m, b) {
      var ts :| b <= ts < HOURS.next(b) && Key(m, ts) in w.ever && Counted(w.t, now, m, ts);
      TotalFinds(Samples(Counts(w, now)), m, b, HOURS.next(b), ts);
    }
  }

  /** The hour rows after the roll-up, before pruning. */
  function HoursAfter(t: Tables, now: int): Table {
    RollLevel(t.hour, MinutesAfter(t, now), HOURS, HOURS.start(MINUTES.start(now)))
  }

  lemma HourRow(w: World, now: int, k: Key)
    requires Inv(w) && Exact(w) && now >= w.now && k in HoursAfter(w.t, now)
    ensures Aligned(HOURS, k.ts) && Bucket(w.Src(), k.metric, k.ts, HOURS) != Empty
    ensures HoursAfter(w.t, now)[k] == RowOf(Bucket(w.Src(), k.metric, k.ts, HOURS))
            <==> !TornHour(w, now, k.metric, k.ts)
  {
    FixedGrids();
    StartIsAligned(HOURS, MINUTES.start(now));
    RolledRows(w.t.hour, MinutesAfter(w.t, now), HOURS, HOURS.start(MINUTES.start(now)), k);
    if Aligned(HOURS, k.ts) && RollsHour(w.t, now, k.ts) {
      HourCounts(w, now, k.metric, k.ts);
      if Bucket(Samples(Counts(w, now)), k.metric, k.ts, HOURS) == Empty {
        NothingTornHour(w, now, k.metric, k.ts);
      } else {
        MadeHour(w, now, k.metric, k.ts);
      }
    }
  }

  lemma TornHourHasRow(w: World, now: int, m: nat, b: int)
    requires Inv(w) && Exact(w) && now >= w.now && TornHour(w, now, m, b)
    ensures Key(m, b) in HoursAfter(w.t, now)
  {
    FixedGrids();
    StartIsAligned(HOURS, MINUTES.start(now));
    HourCounts(w, now, m, b);
    var ts :| b <= ts < HOURS.next(b) && Key(m, ts) in w.ever && Counted(w.t, now, m, ts);
    TotalFinds(Samples(Counts(w, now)), m, b, HOURS.next(b), ts);
    RolledRows(w.t.hour, MinutesAfter(w.t, now), HOURS, HOURS.start(MINUTES.start(now)), Key(m, b));
  }

  // ---- one run -----------------------------------------------------------------------------------------

  lemma RolledTables(t: Tables, now: int, z: Zone)
    requires ValidZone(z)
    ensures Rolled(t, now, z).minute == MinutesAfter(t, now) && Rolled(t, now, z).hour == HoursAfter(t, now)
  {
  }

  lemma AfterRunTables(w: World, now: int, keep: Policy, z: Zone)
    requires ValidZone(z)
    ensures var t, cut := AfterRun(w, now, keep, z).t, MinuteCut(now, keep.minute, z);
            && t.minute == (if keep.minute.For? then Since(MinutesAfter(w.t, now), cut) else MinutesAfter(w.t, now))
            && t.hour == (if keep.hour.For? then Since(HoursAfter(w.t, now), HourCut(now, keep.hour))
               else HoursAfter(w.t, now))
  {
    RolledTables(w.t, now, z);
    PrunedTables(Rolled(w.t, now, z), now, keep, z);
  }

  lemma PrunedTables(t: Tables, now: int, keep: Policy, z: Zone)
    ensures var minutes := MINUTES.start(now);
            var u := Prune(t, now, keep, minutes, HOURS.start(minutes), z.start(minutes));
            && u.minute == (if keep.minute.For? then Since(t.minute, MinuteCut(now, keep.minute, z)) else t.minute)
            && u.hour == (if keep.hour.For? then Since(t.hour, HourCut(now, keep.hour)) else t.hour)
  {
  }

  ghost predicate TearsMinutes(w: World, now: int, keep: Policy, z: Zone) {
    exists m: nat, x: int :: TornMinute(w, now, m, x) && KeptFrom(keep.minute, MinuteCut(now, keep.minute, z), x)
  }

  ghost predicate TearsHours(w: World, now: int, keep: Policy) {
    exists m: nat, b: int :: TornHour(w, now, m, b) && KeptFrom(keep.hour, HourCut(now, keep.hour), b)
  }

  /** Of the rows after a roll-up, retention keeps those from its cutoff on. */
  ghost predicate KeepsRows(t: Table, u: Table, keep: Keep, cutoff: int) {
    forall k :: k in t <==> k in u && KeptFrom(keep, cutoff, k.ts)
  }

  lemma KeptExactIff(t: Table, u: Table, src: Table, g: Grid, keep: Keep, cutoff: int, torn: (nat, int) -> bool)
    requires KeepsRows(t, u, keep, cutoff) && forall k :: k in t ==> t[k] == u[k]
    requires forall k :: k in u ==> Bucket(src, k.metric, k.ts, g) != Empty
    requires forall k :: k in u ==> (u[k] == RowOf(Bucket(src, k.metric, k.ts, g)) <==> !torn(k.metric, k.ts))
    requires forall m: nat, x: int :: torn(m, x) ==> Key(m, x) in u
    ensures RowsExact(t, src, g) <==> !exists m: nat, x: int :: torn(m, x) && KeptFrom(keep, cutoff, x)
  {
    if m: nat, x: int :| torn(m, x) && KeptFrom(keep, cutoff, x) {
      assert Key(m, x) in t;
    }
  }

  lemma MinutesExactIff(w: World, now: int, keep: Policy, z: Zone)
    requires Inv(w) && Exact(w) && ValidZone(z)
    ensures RowsExact(AfterRun(w, now, keep, z).t.minute, w.Src(), MINUTES) <==> !TearsMinutes(w, now, keep, z)
  {
    AfterRunTables(w, now, keep, z);
    MinutesTell(w, now);
    MinuteRowsIff(w, AfterRun(w, now, keep, z).t.minute, MinutesAfter(w.t, now), now, keep.minute,
        MinuteCut(now, keep.minute, z));
  }

  /** Each row is exact if and only if its bucket is not torn, and a torn bucket has a row. */
  ghost predicate MinuteRowsTell(w: World, now: int, u: Table) {
    && (forall k :: k in u ==> Bucket(w.Src(), k.metric, k.ts, MINUTES) != Empty)
    && (forall k :: k in u ==>
         (u[k] == RowOf(Bucket(w.Src(), k.metric, k.ts, MINUTES)) <==> !TornMinute(w, now, k.metric, k.ts)))
    && (forall m: nat, x: int :: TornMinute(w, now, m, x) ==> Key(m, x) in u)
  }

  lemma MinutesTell(w: World, now: int)
    requires Inv(w) && Exact(w)
    ensures MinuteRowsTell(w, now, MinutesAfter(w.t, now))
  {
    var u := MinutesAfter(w.t, now);
    forall k | k in u
      ensures Bucket(w.Src(), k.metric, k.ts, MINUTES) != Empty
      ensures u[k] == RowOf(Bucket(w.Src(), k.metric, k.ts, MINUTES)) <==> !TornMinute(w, now, k.metric, k.ts)
    {
      MinuteRow(w, now, k);
    }
    forall m: nat, x: int | TornMinute(w, now, m, x)
      ensures Key(m, x) in u
    {
      TornMinuteHasRow(w, now, m, x);
    }
  }

  lemma MinuteRowsIff(w: World, t: Table, u: Table, now: int, keep: Keep, cutoff: int)
    requires MinuteRowsTell(w, now, u) && t == if keep.For? then Since(u, cutoff) else u
    ensures RowsExact(t, w.Src(), MINUTES)
            <==> !exists m: nat, x: int :: TornMinute(w, now, m, x) && KeptFrom(keep, cutoff, x)
  {
    ghost var torn := (m: nat, x: int) => TornMinute(w, now, m, x);
    KeptExactIff(t, u, w.Src(), MINUTES, keep, cutoff, torn);
  }

  lemma HoursExactIff(w: World, now: int, keep: Policy, z: Zone)
    requires Inv(w) && Exact(w) && now >= w.now && ValidZone(z)
    ensures RowsExact(AfterRun(w, now, keep, z).t.hour, w.Src(), HOURS) <==> !TearsHours(w, now, keep)
  {
    AfterRunTables(w, now, keep, z);
    HoursTell(w, now);
    HourRowsIff(w, AfterRun(w, now, keep, z).t.hour, HoursAfter(w.t, now), now, keep.hour, HourCut(now, keep.hour));
  }

  /** Each row is exact if and only if its bucket is not torn, and a torn bucket has a row. */
  ghost predicate HourRowsTell(w: World, now: int, u: Table) {
    && (forall k :: k in u ==> Bucket(w.Src(), k.metric, k.ts, HOURS) != Empty)
    && (forall k :: k in u ==>
         (u[k] == RowOf(Bucket(w.Src(), k.metric, k.ts, HOURS)) <==> !TornHour(w, now, k.metric, k.ts)))
    && (forall m: nat, b: int :: TornHour(w, now, m, b) ==> Key(m, b) in u)
  }

  lemma HoursTell(w: World, now: int)
    requires Inv(w) && Exact(w) && now >= w.now
    ensures HourRowsTell(w, now, HoursAfter(w.t, now))
  {
    var u := HoursAfter(w.t, now);
    forall k | k in u
      ensures Bucket(w.Src(), k.metric, k.ts, HOURS) != Empty
      ensures u[k] == RowOf(Bucket(w.Src(), k.metric, k.ts, HOURS)) <==> !TornHour(w, now, k.metric, k.ts)
    {
      HourRow(w, now, k);
    }
    forall m: nat, b: int | TornHour(w, now, m, b)
      ensures Key(m, b) in u
    {
      TornHourHasRow(w, now, m, b);
    }
  }

  lemma HourRowsIff(w: World, t: Table, u: Table, now: int, keep: Keep, cutoff: int)
    requires HourRowsTell(w, now, u) && t == if keep.For? then Since(u, cutoff) else u
    ensures RowsExact(t, w.Src(), HOURS)
            <==> !exists m: nat, b: int :: TornHour(w, now, m, b) && KeptFrom(keep, cutoff, b)
  {
    ghost var torn := (m: nat, b: int) => TornHour(w, now, m, b);
    KeptExactIff(t, u, w.Src(), HOURS, keep, cutoff, torn);
  }

  /** A run leaves every row exact if and only if it tears no bucket that its retention keeps. */
  lemma RunExactIff(w: World, now: int, keep: Policy, z: Zone)
    requires Inv(w) && Exact(w) && now >= w.now && ValidZone(z)
    ensures Exact(AfterRun(w, now, keep, z)) <==> !Tears(w, now, keep, z)
  {
    MinutesExactIff(w, now, keep, z);
    HoursExactIff(w, now, keep, z);
  }

  lemma InsertExact(w: World, metric: nat, ts: int, value: real)
    requires Inv(w) && Exact(w) && ts >= w.Minutes() && ts >= 0
    ensures Exact(AfterInsert(w, metric, ts, value))
  {
    var v := AfterInsert(w, metric, ts, value);
    FixedGrids();
    Ends(w);
    InsertIsLate(w, metric, ts, value);
    StaysExact(w.t.minute, w.Src(), v.Src(), MINUTES, w.Minutes());
    StaysExact(w.t.hour, w.Src(), v.Src(), HOURS, w.Hours());
  }

  lemma StaysExact(t: Table, s: Table, u: Table, g: Grid, e: int)
    requires ValidGrid(g) && Aligned(g, e) && SameBefore(s, u, e) && RowsExact(t, s, g) && Grounded(t, s, g, e)
    ensures RowsExact(t, u, g)
  {
    forall k | k in t
      ensures Bucket(u, k.metric, k.ts, g) == Bucket(s, k.metric, k.ts, g)
    {
      SameBucket(s, u, g, e, k.metric, k.ts);
    }
  }

  // ---- every history -------------------------------------------------------------------------------------

  /** Every row is exact, now and after each event. */
  ghost predicate ExactThroughout(w: World, events: seq<Event>)
    requires Happens(w, events)
    decreases |events|
  {
    Exact(w) && (events == [] || ExactThroughout(Next(w, events[0]), events[1..]))
  }

  /** No run tears a bucket that it keeps. */
  ghost predicate NeverTears(w: World, events: seq<Event>)
    requires Happens(w, events)
    decreases |events|
  {
    events == [] ||
    ((events[0].Run? ==> !Tears(w, events[0].now, events[0].keep, events[0].z))
        && NeverTears(Next(w, events[0]), events[1..]))
  }

  lemma {:induction false} ExactIffNeverTears(w: World, events: seq<Event>)
    requires Inv(w) && Exact(w) && Happens(w, events)
    ensures ExactThroughout(w, events) <==> NeverTears(w, events)
    decreases |events|
  {
    if events != [] {
      var e := events[0];
      NextKeeps(w, e);
      match e
      case Insert(metric, ts, value) =>
        InsertExact(w, metric, ts, value);
        ExactIffNeverTears(Next(w, e), events[1..]);
      case Run(now, keep, z) =>
        RunExactIff(w, now, keep, z);
        if Tears(w, now, keep, z) {
          assert !Exact(Next(w, e));
        } else {
          ExactIffNeverTears(Next(w, e), events[1..]);
        }
    }
  }

  /**
   Rollup exactness, exactly: over any history, whatever its policies and timezones, every stored 1m and 1h row is
   at all times the exact aggregate of all samples ever inserted in its bucket, if and only if no run makes and
   keeps a row of a bucket some of whose samples its source no longer holds.
   */
  lemma RollupsExactly(events: seq<Event>)
    requires Happens(START, events)
    ensures ExactThroughout(START, events) <==> NeverTears(START, events)
  {
    StartInv();
    ExactIffNeverTears(START, events);
  }
}
