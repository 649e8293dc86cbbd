/** When a run can tear a bucket: only at a level that is empty, and only in the oldest bucket of its source. */
module RollupTears {
  import opened Results
  import opened Totals
  import opened Rollup
  import opened RollupSafety
  import opened RollupHistory
  import opened RollupTheorems
  import opened RollupExactly

  // ---- no holes after the oldest row -------------------------------------------------------------------

  /** A sample in a bucket later than some stored row's has its row. */
  ghost predicate Solid(t: Table, src: Table, g: Grid, e: int) {
    forall r, k :: r in t && k in src && k.ts < e && r.ts < g.start(k.ts) ==> Has(t, g, k)
  }

  /** The table has a row for the bucket of the sample. */
  predicate Has(t: Table, g: Grid, k: Key) { Key(k.metric, g.start(k.ts)) in t }

  /** The finer grid cuts no bucket of the coarser one. */
  ghost predicate Finer(h: Grid, g: Grid) {
    forall ts {:trigger h.start(ts)} :: g.start(h.start(ts)) == g.start(ts) && g.start(ts) <= h.start(ts) <= ts
  }

  /** What the source of a level must have: all that is new, and no holes after its oldest row. */
  ghost predicate GoodSource(source: Table, src: Table, h: Grid, e: int, end: int) {
    && (forall k :: k in src && e <= k.ts < end ==> Has(source, h, k))
    && Solid(source, src, h, end)
  }

  /** Every sample that the source has a row for, in a bucket from `start` on, has its row. */
  ghost predicate Fills(u: Table, source: Table, src: Table, g: Grid, h: Grid, start: int, end: int) {
    forall k :: k in src && Has(source, h, k) && start <= g.start(k.ts) && k.ts < end ==> Has(u, g, k)
  }

  lemma RollFills(t: Table, source: Table, src: Table, g: Grid, h: Grid, start: int, end: int)
    requires ValidGrid(g) && Aligned(g, start) && Aligned(g, end) && Finer(h, g)
    ensures Fills(t + Grouped(source, g, start, end), source, src, g, h, start, end)
  {
    var u := t + Grouped(source, g, start, end);
    forall k | k in src && Has(source, h, k) && start <= g.start(k.ts) && k.ts < end
      ensures Has(u, g, k)
    {
      var b, x := g.start(k.ts), h.start(k.ts);
      assert g.start(x) == b && b <= x <= k.ts;
      StartIsAligned(g, k.ts);
      TotalFinds(source, k.metric, b, g.next(b), x);
      GroupedIs(source, g, start, end, k.metric, b);
    }
  }

  lemma RollFrom(t: Table, source: Table, g: Grid, start: int, end: int, r: Key)
    requires ValidGrid(g) && Aligned(g, start) && Aligned(g, end) && r in t + Grouped(source, g, start, end)
    ensures r in t || start <= r.ts
  {
    GroupedIs(source, g, start, end, r.metric, r.ts);
  }

  /** Going on after the newest row leaves no holes. */
  lemma SolidOn(t: Table, u: Table, source: Table, src: Table, g: Grid, h: Grid, e: int, end: int, n: Key)
    requires ValidGrid(g) && Aligned(g, e) && Solid(t, src, g, e) && GoodSource(source, src, h, e, end)
    requires n in t && Aligned(g, n.ts) && n.ts < e && forall r :: r in t ==> r.ts <= n.ts
    requires (forall r :: r in t ==> r in u) && (forall r :: r in u ==> r in t || g.next(n.ts) <= r.ts)
    requires Fills(u, source, src, g, h, g.next(n.ts), end)
    ensures Solid(u, src, g, end)
  {
    forall r, k | r in u && k in src && k.ts < end && r.ts < g.start(k.ts)
      ensures Has(u, g, k)
    {
      StartIsAligned(g, k.ts);
      NextIsAligned(g, n.ts);
      if k.ts < e {
        LaterHas(t, u, src, g, e, n, r, k);
      } else {
        StartGrows(g, e, k.ts);
        Apart(g, n.ts, e);
      }
    }
  }

  lemma LaterHas(t: Table, u: Table, src: Table, g: Grid, e: int, n: Key, r: Key, k: Key)
    requires Solid(t, src, g, e) && n in t && (forall x :: x in t ==> x.ts <= n.ts) && (forall x :: x in t ==> x in u)
    requires r in t || n.ts < r.ts
    requires k in src && k.ts < e && r.ts < g.start(k.ts)
    ensures Has(u, g, k)
  {
    assert Has(t, g, k);
  }

  /** Beginning at the oldest row of a source without holes makes none. */
  lemma SolidAtFirst(u: Table, source: Table, src: Table, g: Grid, h: Grid, e: int, end: int, o: Key)
    requires ValidGrid(g) && Finer(h, g) && GoodSource(source, src, h, e, end) && o in source
    requires (forall r :: r in u ==> g.start(o.ts) <= r.ts) && Fills(u, source, src, g, h, g.start(o.ts), end)
    ensures Solid(u, src, g, end)
  {
    forall r, k | r in u && k in src && k.ts < end && r.ts < g.start(k.ts)
      ensures Has(u, g, k)
    {
      StartIsAligned(g, k.ts);
      StartIsAligned(g, o.ts);
      Apart(g, g.start(o.ts), g.start(k.ts));
      assert o.ts < h.start(k.ts);
      assert Has(source, h, k);
    }
  }

  /** Rolling a level up leaves it without holes. */
  lemma RollSolid(t: Table, source: Table, src: Table, g: Grid, h: Grid, e: int, end: int)
    requires ValidGrid(g) && Aligned(g, e) && Aligned(g, end) && e <= end && Finer(h, g)
    requires Solid(t, src, g, e) && GoodSource(source, src, h, e, end)
    requires forall x :: x in t ==> x.ts < e && Aligned(g, x.ts)
    ensures Solid(RollLevel(t, source, g, end), src, g, end)
  {
    var newest, oldest := NewestBefore(t, end), Oldest(source);
    if newest.Some? {
      var n :| n in t && n.ts == newest.value;
      RollOn(t, source, src, g, h, e, end, n);
    } else if oldest.Some? && g.start(oldest.value) < end {
      var o :| o in source && o.ts == oldest.value;
      RollFirst(t, source, src, g, h, e, end, o);
    } else {
      assert RollLevel(t, source, g, end) == t;
    }
  }

  lemma RollOn(t: Table, source: Table, src: Table, g: Grid, h: Grid, e: int, end: int, n: Key)
    requires ValidGrid(g) && Aligned(g, e) && Aligned(g, end) && e <= end && Finer(h, g)
    requires Solid(t, src, g, e) && GoodSource(source, src, h, e, end)
    requires n in t && Aligned(g, n.ts) && n.ts < e && (forall r :: r in t ==> r.ts <= n.ts)
    requires NewestBefore(t, end) == Some(n.ts)
    ensures Solid(RollLevel(t, source, g, end), src, g, end)
  {
    var start := g.next(n.ts);
    if start < end {
      assert RollLevel(t, source, g, end) == t + Grouped(source, g, start, end);
      MoreRows(t, source, src, g, h, e, end, n, start);
    } else {
      Apart(g, n.ts, e);
    }
  }

  lemma MoreRows(t: Table, source: Table, src: Table, g: Grid, h: Grid, e: int, end: int, n: Key, start: int)
    requires ValidGrid(g) && Aligned(g, e) && Aligned(g, end) && Finer(h, g)
    requires Solid(t, src, g, e) && GoodSource(source, src, h, e, end)
    requires n in t && Aligned(g, n.ts) && n.ts < e && (forall r :: r in t ==> r.ts <= n.ts) && start == g.next(n.ts)
    ensures Solid(t + Grouped(source, g, start, end), src, g, end)
  {
    var u := t + Grouped(source, g, start, end);
    NextIsAligned(g, n.ts);
    forall r | r in u
      ensures r in t || start <= r.ts
    {
      RollFrom(t, source, g, start, end, r);
    }
    RollFills(t, source, src, g, h, start, end);
    SolidOn(t, u, source, src, g, h, e, end, n);
  }

  lemma RollFirst(t: Table, source: Table, src: Table, g: Grid, h: Grid, e: int, end: int, o: Key)
    requires ValidGrid(g) && Aligned(g, end) && Finer(h, g) && GoodSource(source, src, h, e, end)
    requires NewestBefore(t, end) == None && (forall r :: r !in t)
    requires o in source && Oldest(source) == Some(o.ts) && g.start(o.ts) < end
    ensures Solid(RollLevel(t, source, g, end), src, g, end)
  {
    var start := g.start(o.ts);
    var u := t + Grouped(source, g, start, end);
    StartIsAligned(g, o.ts);
    forall r | r in u
      ensures start <= r.ts
    {
      RollFrom(t, source, g, start, end, r);
    }
    RollFills(t, source, src, g, h, start, end);
    SolidAtFirst(u, source, src, g, h, e, end, o);
  }

  lemma SinceSolid(t: Table, src: Table, g: Grid, e: int, cutoff: int)
    requires Solid(t, src, g, e)
    ensures Solid(Since(t, cutoff), src, g, e)
  {
    forall r, k | r in Since(t, cutoff) && k in src && k.ts < e && r.ts < g.start(k.ts)
      ensures Has(Since(t, cutoff), g, k)
    {
      assert r in t && Has(t, g, k);
    }
  }

  // ---- histories leave no holes ----------------------------------------------------------------------------

  /** Every millisecond is a bucket of its own: raw samples. */
  const POINTS: Grid := Grid(ts => ts, start => start + 1)

  ghost predicate NoHoles(w: World) {
    Solid(w.t.minute, w.Src(), MINUTES, w.Minutes()) && Solid(w.t.hour, w.Src(), HOURS, w.Hours())
  }

  lemma FinerGrids()
    ensures Finer(POINTS, MINUTES) && Finer(MINUTES, HOURS)
  {
    FixedGrids();
    forall ts
      ensures HOURS.start(MINUTES.start(ts)) == HOURS.start(ts) && HOURS.start(ts) <= MINUTES.start(ts)
    {
      HourOfMinute(ts);
    }
  }

  lemma HourOfMinute(ts: int)
    ensures HOURS.start(MINUTES.start(ts)) == HOURS.start(ts) && HOURS.start(ts) <= MINUTES.start(ts)
  {
    FixedGrids();
    StartIsAligned(HOURS, ts);
    HoursOnMinutes(HOURS.start(ts));
    StartGrows(MINUTES, HOURS.start(ts), ts);
  }

  lemma RawIsGood(w: World, end: int)
    requires Inv(w)
    ensures GoodSource(Samples(w.t.raw), w.Src(), POINTS, w.Minutes(), end)
  {
  }

  lemma MinutesSolid(w: World, now: int)
    requires Inv(w) && NoHoles(w) && now >= w.now
    ensures Solid(MinutesAfter(w.t, now), w.Src(), MINUTES, MINUTES.start(now))
  {
    FixedGrids();
    FinerGrids();
    Ends(w);
    StartIsAligned(MINUTES, now);
    StartGrows(MINUTES, w.now, now);
    RawIsGood(w, MINUTES.start(now));
    RollSolid(w.t.minute, Samples(w.t.raw), w.Src(), MINUTES, POINTS, w.Minutes(), MINUTES.start(now));
  }

  /** Every sample of an hour that is still open has its minute row, once its minute has closed. */
  lemma OpenHoursHave(w: World, now: int, k: Key)
    requires Inv(w) && now >= w.now && k in w.Src() && w.Hours() <= k.ts < MINUTES.start(now)
    ensures Has(MinutesAfter(w.t, now), MINUTES, k)
  {
    FixedGrids();
    Ends(w);
    RunMinutes(w, now);
    StartGrows(MINUTES, w.Hours(), k.ts);
    SampleHasMinute(MinutesAfter(w.t, now), w.Src(), w.minuteFrom, MINUTES.start(now), k.metric, k.ts);
  }

  lemma MinutesAreGood(w: World, now: int)
    requires Inv(w) && NoHoles(w) && now >= w.now
    ensures GoodSource(MinutesAfter(w.t, now), w.Src(), MINUTES, w.Hours(), HOURS.start(MINUTES.start(now)))
  {
    FixedGrids();
    MinutesSolid(w, now);
    forall k | k in w.Src() && w.Hours() <= k.ts < HOURS.start(MINUTES.start(now))
      ensures Has(MinutesAfter(w.t, now), MINUTES, k)
    {
      OpenHoursHave(w, now, k);
    }
  }

  lemma HoursSolid(w: World, now: int)
    requires Inv(w) && NoHoles(w) && now >= w.now
    ensures Solid(HoursAfter(w.t, now), w.Src(), HOURS, HOURS.start(MINUTES.start(now)))
  {
    FixedGrids();
    FinerGrids();
    Ends(w);
    StartIsAligned(HOURS, MINUTES.start(now));
    StartNotEarlier(w.now, now);
    MinutesAreGood(w, now);
    RollSolid(w.t.hour, MinutesAfter(w.t, now), w.Src(), HOURS, MINUTES, w.Hours(), HOURS.start(MINUTES.start(now)));
  }

  lemma RunNoHoles(w: World, now: int, keep: Policy, z: Zone)
    requires Inv(w) && NoHoles(w) && now >= w.now && ValidZone(z)
    ensures NoHoles(AfterRun(w, now, keep, z))
  {
    AfterRunTables(w, now, keep, z);
    MinutesSolid(w, now);
    HoursSolid(w, now);
    SinceSolid(MinutesAfter(w.t, now), w.Src(), MINUTES, MINUTES.start(now), MinuteCut(now, keep.minute, z));
    SinceSolid(HoursAfter(w.t, now), w.Src(), HOURS, HOURS.start(MINUTES.start(now)), HourCut(now, keep.hour));
  }

  lemma InsertNoHoles(w: World, metric: nat, ts: int, value: real)
    requires Inv(w) && NoHoles(w) && ts >= w.Minutes()
    ensures NoHoles(AfterInsert(w, metric, ts, value))
  {
    var v := AfterInsert(w, metric, ts, value);
    assert w.Hours() <= w.Minutes() by { FixedGrids(); }
    assert forall k :: k in v.Src() && k.ts < w.Minutes() ==> k in w.Src();
    SolidCarries(w.t.minute, w.Src(), v.Src(), MINUTES, w.Minutes());
    SolidCarries(w.t.hour, w.Src(), v.Src(), HOURS, w.Hours());
  }

  lemma SolidCarries(t: Table, s: Table, u: Table, g: Grid, e: int)
    requires Solid(t, s, g, e) && forall k :: k in u && k.ts < e ==> k in s
    ensures Solid(t, u, g, e)
  {
  }

  /** Whatever the runs' policies, a stored table lacks nothing after its oldest row. */
  lemma {:induction false} PlayNoHoles(w: World, events: seq<Event>)
    requires Inv(w) && NoHoles(w) && Happens(w, events)
    ensures Inv(Play(w, events)) && NoHoles(Play(w, events))
    decreases |events|
  {
    if events != [] {
      var e := events[0];
      NextKeeps(w, e);
      match e {
        case Insert(metric, ts, value) => InsertNoHoles(w, metric, ts, value);
        case Run(now, keep, z) => RunNoHoles(w, now, keep, z);
      }
      PlayNoHoles(Next(w, e), events[1..]);
    }
  }

  // ---- only the first bucket is ever torn ---------------------------------------------------------------------

  /** The bucket that a run starts an empty level with. */
  predicate FirstBucket(t: Table, source: Table, g: Grid, b: int) {
    t == map[] && Oldest(source).Some? && b == g.start(Oldest(source).value)
  }

  /** A closed bucket of which the source lacks an early sample is the first that is made. */
  lemma LackingIsFirst(t: Table, source: Table, src: Table, g: Grid, e: int, end: int, m: nat, x: int, ts: int,
                       gone: int)
    requires ValidGrid(g) && Aligned(g, e) && Solid(t, src, g, e) && e <= end
    requires forall r :: r in t ==> r.ts < e && Aligned(g, r.ts)
    requires Aligned(g, x) && Rolls(t, source, g, end, x) && x <= ts < g.next(x) && Key(m, ts) in src
    requires x <= gone < g.next(x) && gone < e && forall k :: k in source ==> gone < k.ts
    ensures FirstBucket(t, source, g, x)
  {
    Apart(g, x, e);
    assert g.start(x) == x;
    assert g.start(ts) == x;
    NotAfterAnother(t, src, g, e, end, source, m, x, ts);
    var o :| o in source && o.ts == Oldest(source).value;
    assert g.start(o.ts) <= x <= gone < o.ts;
    assert g.start(x) == g.start(o.ts);
  }

  lemma TornMinuteIsFirst(w: World, now: int, m: nat, x: int)
    requires Inv(w) && NoHoles(w) && now >= w.now && TornMinute(w, now, m, x)
    ensures FirstBucket(w.t.minute, Samples(w.t.raw), MINUTES, x)
  {
    var ts :| x <= ts < MINUTES.next(x) && Key(m, ts) in w.t.raw;
    var gone :| x <= gone < MINUTES.next(x) && Key(m, gone) in w.ever && Key(m, gone) !in w.t.raw;
    MinuteEnds(w.now, now);
    assert gone < w.rawFrom;
    LackingIsFirst(w.t.minute, Samples(w.t.raw), w.Src(), MINUTES, w.Minutes(), MINUTES.start(now), m, x, ts, gone);
  }

  lemma MinuteEnds(a: int, b: int)
    requires a <= b
    ensures ValidGrid(MINUTES) && Aligned(MINUTES, MINUTES.start(a)) && MINUTES.start(a) <= MINUTES.start(b)
  {
    FixedGrids();
    StartIsAligned(MINUTES, a);
    StartGrows(MINUTES, a, b);
  }

  /** A closed bucket that has samples is made again only when the table is empty. */
  lemma NotAfterAnother(t: Table, src: Table, g: Grid, e: int, end: int, source: Table, m: nat, b: int, ts: int)
    requires ValidGrid(g) && Solid(t, src, g, e) && e <= end && (forall r :: r in t ==> r.ts < e && Aligned(g, r.ts))
    requires Rolls(t, source, g, end, b) && Key(m, ts) in src && ts < e && g.start(ts) == b
    ensures t == map[] && NextStart(t, source, g, end) == Some(g.start(Oldest(source).value)) && Oldest(source).Some?
  {
    assert Has(t, g, Key(m, ts)) ==> Key(m, b) in t;
  }

  /** An hour that is open, or opens later, is rolled up from all its samples. */
  lemma OpenHourIsWhole(w: World, now: int, m: nat, b: int)
    requires Inv(w) && Exact(w) && now >= w.now && Aligned(HOURS, b) && w.Hours() <= b < HOURS.start(MINUTES.start(now))
    ensures Bucket(Samples(Counts(w, now)), m, b, HOURS) == Bucket(w.Src(), m, b, HOURS)
  {
    var minutes := MINUTES.start(now);
    var f := HOURS.start(minutes);
    FixedGrids();
    Ends(w);
    RunMinutes(w, now);
    StartNotEarlier(w.now, now);
    StartIsAligned(HOURS, minutes);
    MinutesFeed(MinutesAfter(w.t, now), w.Src(), w.minuteFrom, w.Hours(), f, minutes);
    HourCounts(w, now, m, b);
  }

  lemma TornHourWasClosed(w: World, now: int, m: nat, b: int)
    requires Inv(w) && Exact(w) && now >= w.now && TornHour(w, now, m, b)
    ensures b < w.Hours()
  {
    if b >= w.Hours() {
      OpenHourIsWhole(w, now, m, b);
      var ts :| b <= ts < HOURS.next(b) && Key(m, ts) in w.ever && Counted(w.t, now, m, ts);
      TotalFinds(Samples(Counts(w, now)), m, b, HOURS.next(b), ts);
      MadeHour(w, now, m, b);
      assert false;
    }
  }

  /** An uncounted sample whose minute has a row after all lies in the first minute that the run makes. */
  lemma UncountedIsTorn(w: World, now: int, m: nat, gone: int)
    requires Inv(w) && NoHoles(w) && now >= w.now && Key(m, gone) in w.ever && !Counted(w.t, now, m, gone)
    requires Has(MinutesAfter(w.t, now), MINUTES, Key(m, gone))
    ensures FirstBucket(w.t.minute, Samples(w.t.raw), MINUTES, MINUTES.start(gone))
  {
    var x := MINUTES.start(gone);
    MinuteHolds(gone);
    MinutesAre(w.t, now, Key(m, x));
    var at := TotalFound(Samples(w.t.raw), m, x, MINUTES.next(x));
    assert Key(m, at) in w.t.raw;
    TornMinuteIsFirst(w, now, m, x);
  }

  lemma MinuteHolds(ts: int)
    ensures Aligned(MINUTES, MINUTES.start(ts)) && MINUTES.start(ts) <= ts < MINUTES.next(MINUTES.start(ts))
  {
    FixedGrids();
    StartIsAligned(MINUTES, ts);
  }

  lemma NoneBeforeFirst(t: Table, source: Table, g: Grid, end: int, b: int, r: Key)
    requires ValidGrid(g) && Aligned(g, end) && FirstBucket(t, source, g, b) && r in RollLevel(t, source, g, end)
    ensures b <= r.ts
  {
    StartIsAligned(g, Oldest(source).value);
    GroupedIs(source, g, b, end, r.metric, r.ts);
  }

  /** A closed sample that no minute row counts lies in the hour of the oldest one, or before. */
  lemma UncountedIsEarly(w: World, now: int, m: nat, gone: int, o: Key)
    requires Inv(w) && NoHoles(w) && now >= w.now && Key(m, gone) in w.ever && !Counted(w.t, now, m, gone)
    requires gone < MINUTES.start(now) && o in MinutesAfter(w.t, now)
    ensures MINUTES.start(gone) <= o.ts
  {
    if o.ts < MINUTES.start(gone) {
      MinutesSolid(w, now);
      assert Has(MinutesAfter(w.t, now), MINUTES, Key(m, gone));
      UncountedIsTorn(w, now, m, gone);
      FixedGrids();
      StartIsAligned(MINUTES, now);
      NoneBeforeFirst(w.t.minute, Samples(w.t.raw), MINUTES, MINUTES.start(now), MINUTES.start(gone), o);
    }
  }

  lemma TornHourIsFirst(w: World, now: int, m: nat, b: int)
    requires Inv(w) && Exact(w) && NoHoles(w) && now >= w.now && TornHour(w, now, m, b)
    ensures FirstBucket(w.t.hour, MinutesAfter(w.t, now), HOURS, b)
  {
    TornHourWasClosed(w, now, m, b);
    var gone :| b <= gone < HOURS.next(b) && Key(m, gone) in w.ever && !Counted(w.t, now, m, gone);
    ClosedAgain(w, now, m, b, gone);
    var o :| o in MinutesAfter(w.t, now) && o.ts == Oldest(MinutesAfter(w.t, now)).value;
    UncountedIsEarly(w, now, m, gone, o);
    LaterHour(b, gone, o.ts);
  }

  /** The hours begin again at the oldest minute. */
  lemma ClosedAgain(w: World, now: int, m: nat, b: int, ts: int)
    requires Inv(w) && NoHoles(w) && now >= w.now && Aligned(HOURS, b) && RollsHour(w.t, now, b) && b < w.Hours()
    requires b <= ts < HOURS.next(b) && Key(m, ts) in w.ever
    ensures w.t.hour == map[] && Oldest(MinutesAfter(w.t, now)).Some?
    ensures HOURS.start(Oldest(MinutesAfter(w.t, now)).value) <= b && ts < MINUTES.start(now)
  {
    SameHour(b, ts);
    ClosedHour(b, w.Minutes());
    HourEnds(b, w.now, now);
    NotAfterAnother(w.t.hour, w.Src(), HOURS, w.Hours(), HOURS.start(MINUTES.start(now)), MinutesAfter(w.t, now), m, b,
        ts);
  }

  lemma HourEnds(b: int, was: int, now: int)
    requires was <= now && Aligned(HOURS, b) && b < HOURS.start(MINUTES.start(was))
    ensures ValidGrid(HOURS) && HOURS.next(b) <= HOURS.start(MINUTES.start(was)) <= HOURS.start(MINUTES.start(now))
    ensures MINUTES.start(was) <= MINUTES.start(now)
  {
    FixedGrids();
    StartNotEarlier(was, now);
    StartIsAligned(HOURS, MINUTES.start(was));
    Apart(HOURS, b, HOURS.start(MINUTES.start(was)));
  }

  lemma LaterHour(b: int, gone: int, o: int)
    requires Aligned(HOURS, b) && b <= gone < HOURS.next(b) && MINUTES.start(gone) <= o && HOURS.start(o) <= b
    ensures HOURS.start(o) == b
  {
    FixedGrids();
    SameHour(b, gone);
    HourOfMinute(gone);
    StartGrows(HOURS, MINUTES.start(gone), o);
  }

  lemma SameHour(b: int, ts: int)
    requires Aligned(HOURS, b) && b <= ts < HOURS.next(b)
    ensures HOURS.start(ts) == b
  {
    FixedGrids();
    assert HOURS.start(b) == b;
  }

  // ---- exactly when a run tears -------------------------------------------------------------------------------

  /** Of some metric the minute has a sample that is still stored, and one that has been deleted. */
  ghost predicate MinuteIsSplit(w: World, x: int) {
    exists m: nat, ts: int, gone: int ::
      && x <= ts < MINUTES.next(x) && Key(m, ts) in w.t.raw
      && x <= gone < MINUTES.next(x) && Key(m, gone) in w.ever && Key(m, gone) !in w.t.raw
  }

  /** Of some metric the hour has a sample that the run's minutes count, and one that they do not. */
  ghost predicate HourIsSplit(w: World, now: int, b: int) {
    exists m: nat, ts: int, gone: int ::
      && b <= ts < HOURS.next(b) && Key(m, ts) in w.ever && Counted(w.t, now, m, ts)
      && b <= gone < HOURS.next(b) && Key(m, gone) in w.ever && !Counted(w.t, now, m, gone)
  }

  /** There are no minutes, and the oldest raw sample's minute has closed, is kept, and has lost samples. */
  ghost predicate FirstMinuteTorn(w: World, now: int, keep: Policy, z: Zone) {
    exists x :: FirstBucket(w.t.minute, Samples(w.t.raw), MINUTES, x) && x < MINUTES.start(now)
                && KeptFrom(keep.minute, MinuteCut(now, keep.minute, z), x) && MinuteIsSplit(w, x)
  }

  /** There are no hours, and the oldest minute's hour has closed, is kept, and has lost samples. */
  ghost predicate FirstHourTorn(w: World, now: int, keep: Policy) {
    exists b :: FirstBucket(w.t.hour, MinutesAfter(w.t, now), HOURS, b) && b < HOURS.start(MINUTES.start(now))
                && KeptFrom(keep.hour, HourCut(now, keep.hour), b) && HourIsSplit(w, now, b)
  }

  lemma FirstRolls(t: Table, source: Table, g: Grid, end: int, b: int)
    requires ValidGrid(g) && FirstBucket(t, source, g, b) && b < end
    ensures Aligned(g, b) && Rolls(t, source, g, end, b)
  {
    StartIsAligned(g, Oldest(source).value);
  }

  lemma TearsMinutesIff(w: World, now: int, keep: Policy, z: Zone)
    requires Inv(w) && NoHoles(w) && now >= w.now
    ensures TearsMinutes(w, now, keep, z) <==> FirstMinuteTorn(w, now, keep, z)
  {
    FixedGrids();
    if TearsMinutes(w, now, keep, z) {
      var m: nat, x: int :| TornMinute(w, now, m, x) && KeptFrom(keep.minute, MinuteCut(now, keep.minute, z), x);
      TornMinuteIsFirst(w, now, m, x);
      assert MinuteIsSplit(w, x);
    }
    if FirstMinuteTorn(w, now, keep, z) {
      var x :| FirstBucket(w.t.minute, Samples(w.t.raw), MINUTES, x) && x < MINUTES.start(now)
               && KeptFrom(keep.minute, MinuteCut(now, keep.minute, z), x) && MinuteIsSplit(w, x);
      FirstRolls(w.t.minute, Samples(w.t.raw), MINUTES, MINUTES.start(now), x);
      SplitMinuteIsTorn(w, now, x);
    }
  }

  lemma SplitMinuteIsTorn(w: World, now: int, x: int)
    requires Aligned(MINUTES, x) && RollsMinute(w.t, now, x) && MinuteIsSplit(w, x)
    ensures exists m: nat :: TornMinute(w, now, m, x)
  {
    var m: nat, ts: int, gone: int :| x <= ts < MINUTES.next(x) && Key(m, ts) in w.t.raw
      && x <= gone < MINUTES.next(x) && Key(m, gone) in w.ever && Key(m, gone) !in w.t.raw;
    assert TornMinute(w, now, m, x);
  }

  lemma TearsHoursIff(w: World, now: int, keep: Policy)
    requires Inv(w) && Exact(w) && NoHoles(w) && now >= w.now
    ensures TearsHours(w, now, keep) <==> FirstHourTorn(w, now, keep)
  {
    FixedGrids();
    if TearsHours(w, now, keep) {
      var m: nat, b: int :| TornHour(w, now, m, b) && KeptFrom(keep.hour, HourCut(now, keep.hour), b);
      TornHourIsFirst(w, now, m, b);
      assert HourIsSplit(w, now, b);
    }
    if FirstHourTorn(w, now, keep) {
      var b :| FirstBucket(w.t.hour, MinutesAfter(w.t, now), HOURS, b) && b < HOURS.start(MINUTES.start(now))
               && KeptFrom(keep.hour, HourCut(now, keep.hour), b) && HourIsSplit(w, now, b);
      FirstRolls(w.t.hour, MinutesAfter(w.t, now), HOURS, HOURS.start(MINUTES.start(now)), b);
      SplitHourIsTorn(w, now, b);
    }
  }

  lemma SplitHourIsTorn(w: World, now: int, b: int)
    requires Aligned(HOURS, b) && RollsHour(w.t, now, b) && HourIsSplit(w, now, b)
    ensures exists m: nat :: TornHour(w, now, m, b)
  {
    var m: nat, ts: int, gone: int :| b <= ts < HOURS.next(b) && Key(m, ts) in w.ever && Counted(w.t, now, m, ts)
      && b <= gone < HOURS.next(b) && Key(m, gone) in w.ever && !Counted(w.t, now, m, gone);
    assert TornHour(w, now, m, b);
  }

  /**
   A run after any history of exact rows leaves a row that is not exact if and only if a level has no rows at all,
   its source begins in a bucket that has closed and lost samples, and the policy keeps that bucket's row.
   */
  lemma TornExactly(events: seq<Event>, now: int, keep: Policy, z: Zone)
    requires Happens(START, events) && now >= Play(START, events).now && ValidZone(z)
    requires Exact(Play(START, events))
    ensures var w := Play(START, events);
            Exact(AfterRun(w, now, keep, z)) <==> !FirstMinuteTorn(w, now, keep, z) && !FirstHourTorn(w, now, keep)
  {
    StartInv();
    PlayNoHoles(START, events);
    var w := Play(START, events);
    RunExactIff(w, now, keep, z);
    TearsMinutesIff(w, now, keep, z);
    TearsHoursIff(w, now, keep);
  }

  /** A level that has rows takes no harm from any change of policy or timezone. */
  lemma FilledLevelsStayExact(events: seq<Event>, now: int, keep: Policy, z: Zone)
    requires Happens(START, events) && now >= Play(START, events).now && ValidZone(z)
    requires Exact(Play(START, events)) && Play(START, events).t.minute != map[] && Play(START, events).t.hour != map[]
    ensures Exact(AfterRun(Play(START, events), now, keep, z))
  {
    TornExactly(events, now, keep, z);
  }
}
