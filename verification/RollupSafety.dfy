/** One housekeeping run: what it keeps true of the tables, whatever happened before. */
module RollupSafety {
  import opened Results
  import opened Totals
  import opened Rollup

  // ---- exact rows ------------------------------------------------------------------------------

  /** There is a row for this bucket exactly when it has samples, and the row is their exact aggregate. */
  predicate RowExact(t: Table, src: Table, g: Grid, metric: nat, ts: int) {
    var k, p := Key(metric, ts), Bucket(src, metric, ts, g);
    && (k in t <==> Aligned(g, ts) && p != Empty)
    && (k in t ==> t[k] == RowOf(p))
  }

  /** So it is for every bucket in [w, e); rows before `w` may have been deleted or be incomplete. */
  ghost predicate ExactFrom(t: Table, src: Table, g: Grid, w: int, e: int) {
    forall metric: nat, ts: int :: w <= ts < e ==> RowExact(t, src, g, metric, ts)
  }

  /** Every row lies before `e` and has samples in its bucket. */
  ghost predicate Grounded(t: Table, src: Table, g: Grid, e: int) {
    forall k :: k in t ==> k.ts < e && Aligned(g, k.ts) && Bucket(src, k.metric, k.ts, g) != Empty && t[k].count > 0
  }

  /** From bucket `e` to `f` the source table has every sample of `src`; before, it has no others. */
  ghost predicate Feeds(source: Table, src: Table, g: Grid, e: int, f: int) {
    forall metric: nat, ts: int {:trigger Bucket(source, metric, ts, g)} :: Aligned(g, ts) && ts < f ==>
      && (e <= ts ==> Bucket(source, metric, ts, g) == Bucket(src, metric, ts, g))
      && (Bucket(source, metric, ts, g) != Empty ==> Bucket(src, metric, ts, g) != Empty)
  }

  /** What GROUP BY makes of whole buckets. */
  lemma GroupedIs(source: Table, g: Grid, start: int, end: int, metric: nat, ts: int)
    requires ValidGrid(g) && Aligned(g, start) && Aligned(g, end)
    ensures var rows, k := Grouped(source, g, start, end), Key(metric, ts);
            && (k in rows <==> start <= ts < end && Aligned(g, ts) && Bucket(source, metric, ts, g) != Empty)
            && (k in rows ==> rows[k] == RowOf(Bucket(source, metric, ts, g)))
  {
    var rows, k := Grouped(source, g, start, end), Key(metric, ts);
    if k in rows {
      var s :| s in source && start <= s.ts < end && Key(s.metric, g.start(s.ts)) == k;
      StartIsAligned(g, s.ts);
      StartGrows(g, start, s.ts);
      TotalFinds(source, metric, ts, g.next(ts), s.ts);
      Apart(g, ts, end);
    }
    if start <= ts < end && Aligned(g, ts) && Bucket(source, metric, ts, g) != Empty {
      var at := TotalFound(source, metric, ts, g.next(ts));
      assert g.start(at) == g.start(ts);
      Apart(g, ts, end);
      assert Key(metric, at) in source && start <= at < end;
    }
  }

  lemma StartAligned(t: Table, src: Table, source: Table, g: Grid, e: int, f: int)
    requires ValidGrid(g) && e <= f && Aligned(g, e) && Grounded(t, src, g, e)
    ensures var start := NextStart(t, source, g, f);
            && (start.Some? ==> Aligned(g, start.value) && (start.value <= e || NoneBefore(source, start.value)))
            && (start.None? ==> NoneBefore(source, f))
  {
    var newest := NewestBefore(t, f);
    if newest.Some? {
      var k :| k in t && k.ts == newest.value;
      NextIsAligned(g, newest.value);
      Apart(g, newest.value, e);
    } else {
      var oldest := Oldest(source);
      if oldest.Some? {
        StartIsAligned(g, oldest.value);
        assert g.start(oldest.value) <= oldest.value;
      }
    }
  }

  ghost predicate NoneBefore(t: Table, e: int) {
    forall k :: k in t ==> e <= k.ts
  }

  /** A bucket that had closed before is not written again: the level starts after its newest row. */
  lemma RollOldBucket(t: Table, source: Table, src: Table, g: Grid, e: int, f: int, metric: nat, ts: int)
    requires ValidGrid(g) && e <= f && Aligned(g, e) && Aligned(g, f) && ts < e && Aligned(g, ts)
    requires RowExact(t, src, g, metric, ts) && Grounded(t, src, g, e)
    requires Bucket(source, metric, ts, g) != Empty ==> Bucket(src, metric, ts, g) != Empty
    ensures RowExact(RollLevel(t, source, g, f), src, g, metric, ts)
  {
    var start := NextStart(t, source, g, f);
    StartAligned(t, src, source, g, e, f);
    if start.Some? && start.value < f {
      GroupedIs(source, g, start.value, f, metric, ts);
      if Key(metric, ts) in t {
        var newest := NewestBefore(t, f).value;
        Ahead(g, ts, newest);
      }
    }
  }

  lemma Ahead(g: Grid, a: int, b: int)
    requires ValidGrid(g) && Aligned(g, a) && a <= b
    ensures a < g.next(b) || !Aligned(g, b)
  {
    if Aligned(g, b) { NextIsAligned(g, b); }
  }

  /** A bucket that closed since is written from its samples, or has none. */
  lemma RollNewBucket(t: Table, source: Table, src: Table, g: Grid, e: int, f: int, metric: nat, ts: int)
    requires ValidGrid(g) && e <= ts < f && Aligned(g, e) && Aligned(g, f) && Aligned(g, ts) && Grounded(t, src, g, e)
    requires Bucket(source, metric, ts, g) == Bucket(src, metric, ts, g)
    ensures RowExact(RollLevel(t, source, g, f), src, g, metric, ts)
  {
    var start := NextStart(t, source, g, f);
    StartAligned(t, src, source, g, e, f);
    if start.Some? && start.value < f {
      GroupedIs(source, g, start.value, f, metric, ts);
      if ts < start.value { EarlyIsEmpty(source, g, start.value, metric, ts); }
    } else {
      EarlyIsEmpty(source, g, f, metric, ts);
    }
  }

  lemma EarlyIsEmpty(source: Table, g: Grid, start: int, metric: nat, ts: int)
    requires ValidGrid(g) && Aligned(g, ts) && Aligned(g, start) && ts < start && NoneBefore(source, start)
    ensures Bucket(source, metric, ts, g) == Empty
  {
    Apart(g, ts, start);
    TotalEmpty(source, metric, ts, g.next(ts));
  }

  /** Only bucket starts get rows. */
  lemma RollOffGrid(t: Table, source: Table, src: Table, g: Grid, w: int, e: int, f: int, metric: nat, ts: int)
    requires ValidGrid(g) && e <= f && Aligned(g, e) && Aligned(g, f) && !Aligned(g, ts)
    requires Grounded(t, src, g, e)
    ensures Key(metric, ts) !in RollLevel(t, source, g, f)
  {
    var start := NextStart(t, source, g, f);
    StartAligned(t, src, source, g, e, f);
    if start.Some? && start.value < f { GroupedIs(source, g, start.value, f, metric, ts); }
  }

  lemma RollGrounded(t: Table, source: Table, src: Table, g: Grid, e: int, f: int, k: Key)
    requires ValidGrid(g) && e <= f && Aligned(g, e) && Aligned(g, f) && Real(source)
    requires Grounded(t, src, g, e) && Feeds(source, src, g, e, f) && k in RollLevel(t, source, g, f)
    ensures k.ts < f && Aligned(g, k.ts) && Bucket(src, k.metric, k.ts, g) != Empty
            && RollLevel(t, source, g, f)[k].count > 0
  {
    var start := NextStart(t, source, g, f);
    StartAligned(t, src, source, g, e, f);
    if start.Some? && start.value < f {
      GroupedIs(source, g, start.value, f, k.metric, k.ts);
      TotalCounts(source, k.metric, k.ts, g.next(k.ts));
    }
  }

  /** One level of a run: exact up to where it stopped before, exact up to where it stops now. */
  lemma RollLevelExact(t: Table, source: Table, src: Table, g: Grid, w: int, e: int, f: int)
    requires ValidGrid(g) && e <= f && Aligned(g, e) && Aligned(g, f) && Real(source)
    requires ExactFrom(t, src, g, w, e) && Grounded(t, src, g, e) && Feeds(source, src, g, e, f)
    ensures var u := RollLevel(t, source, g, f); ExactFrom(u, src, g, w, f) && Grounded(u, src, g, f)
  {
    var u := RollLevel(t, source, g, f);
    forall metric: nat, ts: int | w <= ts < f
      ensures RowExact(u, src, g, metric, ts)
    {
      if Aligned(g, ts) {
        var p := Bucket(source, metric, ts, g);
        if ts < e {
          assert RowExact(t, src, g, metric, ts);
          RollOldBucket(t, source, src, g, e, f, metric, ts);
        } else {
          RollNewBucket(t, source, src, g, e, f, metric, ts);
        }
      } else {
        RollOffGrid(t, source, src, g, w, e, f, metric, ts);
      }
    }
    forall k | k in u
      ensures k.ts < f && Aligned(g, k.ts) && Bucket(src, k.metric, k.ts, g) != Empty && u[k].count > 0
    {
      RollGrounded(t, source, src, g, e, f, k);
    }
  }
}
