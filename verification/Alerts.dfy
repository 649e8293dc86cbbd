/**
 When a rule's alert is raised and cleared: window summaries (packages/alerts/src/store.ts), the
 decision (packages/alerts/src/evaluate.ts) and one rule's checks (packages/alerts/src/engine.ts).
 Readings of one metric stand in the order of their timestamps, which are its primary key.
 */
module Alerts {
  import opened Results

  datatype Reading = Reading(ts: int, value: real)

  type Readings = seq<Reading>

  predicate Ordered(rs: Readings) { forall i, j :: 0 <= i < j < |rs| ==> rs[i].ts < rs[j].ts }

  datatype Condition = AtLeast(limit: real) | AtMost(limit: real) | BitsSet(mask: nat)
      | NoReadingFor(silence: Option<int>)

  /** Durations in ms; a silence rule's limit is "auto" when it has none. */
  datatype Rule = Rule(condition: Condition, forMs: int, clearAfterMs: int)

  datatype WindowSummary = WindowSummary(count: nat, oldest: Option<int>, newest: Option<int>, min: Option<real>,
                                         max: Option<real>, withBits: nat, maxGap: Option<int>)

  datatype Decision = RaiseIt(value: Option<real>) | ClearIt | Nothing

  datatype CheckInput =
      CheckInput(now: int, since: int, intervalMs: int, open: bool, latest: Option<Reading>, window: WindowSummary)

  const MIN: int := 60_000
  const EMPTY_WINDOW: WindowSummary := WindowSummary(0, None, None, None, None, 0, None)
  const FUTURE_TOLERANCE_MS: int := 5 * MIN

  // ---- bits --------------------------------------------------------------------------------------

  /** Both numbers have some binary digit in common. */
  predicate Overlap(a: nat, b: nat) {
    a > 0 && b > 0 && ((a % 2 == 1 && b % 2 == 1) || Overlap(a / 2, b / 2))
  }

  /** The integer part, towards zero. */
  function Truncated(x: real): int { if x >= 0.0 then x.Floor else -((-x).Floor) }

  /** The value's integer part in 32-bit two's complement has some of these bits. */
  predicate HasBits(value: real, mask: nat) { Overlap((Truncated(value) % 0x1_0000_0000) as nat, mask) }

  // ---- the window ----------------------------------------------------------------------------------

  /** WHERE ts BETWEEN from AND to, of the first `n` readings. */
  function InWindowOf(rs: Readings, n: nat, from: int, to: int): Readings
    requires n <= |rs|
  {
    if n == 0 then []
    else
      var w := InWindowOf(rs, n - 1, from, to);
      if from <= rs[n - 1].ts <= to then w + [rs[n - 1]] else w
  }

  lemma {:induction false} WindowHas(rs: Readings, n: nat, from: int, to: int, r: Reading)
    requires n <= |rs|
    ensures r in InWindowOf(rs, n, from, to) <==> from <= r.ts <= to && r in rs[..n]
  {
    if n > 0 {
      WindowHas(rs, n - 1, from, to, r);
      assert rs[..n] == rs[..n - 1] + [rs[n - 1]];
    }
  }

  function InWindow(rs: Readings, from: int, to: int): (w: Readings)
    ensures forall r :: r in w <==> r in rs && from <= r.ts <= to
  {
    assert forall r :: r in InWindowOf(rs, |rs|, from, to) <==> r in rs && from <= r.ts <= to by {
      forall r
        ensures r in InWindowOf(rs, |rs|, from, to) <==> r in rs && from <= r.ts <= to
      {
        WindowHas(rs, |rs|, from, to, r);
        assert rs[..|rs|] == rs;
      }
    }
    InWindowOf(rs, |rs|, from, to)
  }

  lemma {:induction false} WindowOrdered(rs: Readings, n: nat, from: int, to: int)
    requires Ordered(rs) && n <= |rs|
    ensures var w := InWindowOf(rs, n, from, to);
            Ordered(w) && (|w| > 0 ==> n > 0 && w[|w| - 1].ts <= rs[n - 1].ts)
  {
    if n > 0 {
      WindowOrdered(rs, n - 1, from, to);
      AppendOrdered(InWindowOf(rs, n - 1, from, to), rs[n - 1]);
    }
  }

  lemma AppendOrdered(w: Readings, r: Reading)
    requires Ordered(w) && (|w| > 0 ==> w[|w| - 1].ts < r.ts)
    ensures Ordered(w + [r])
  {
  }

  /** MIN(value) of the first `n` readings. */
  function MinValue(w: Readings, n: nat): (m: real)
    requires 0 < n <= |w|
    ensures (exists i :: 0 <= i < n && w[i].value == m) && forall i :: 0 <= i < n ==> m <= w[i].value
  {
    if n == 1 then w[0].value
    else
      var m := MinValue(w, n - 1);
      if w[n - 1].value <= m then w[n - 1].value else m
  }

  function MaxValue(w: Readings, n: nat): (m: real)
    requires 0 < n <= |w|
    ensures (exists i :: 0 <= i < n && w[i].value == m) && forall i :: 0 <= i < n ==> w[i].value <= m
  {
    if n == 1 then w[0].value
    else
      var m := MaxValue(w, n - 1);
      if w[n - 1].value >= m then w[n - 1].value else m
  }

  /** How many of the first `n` readings have some of the bits. */
  function WithBits(w: Readings, n: nat, mask: nat): (k: nat)
    requires n <= |w|
    ensures k <= n
    ensures k == n <==> forall i :: 0 <= i < n ==> HasBits(w[i].value, mask)
    ensures k == 0 <==> forall i :: 0 <= i < n ==> !HasBits(w[i].value, mask)
  {
    if n == 0 then 0 else (if HasBits(w[n - 1].value, mask) then 1 else 0) + WithBits(w, n - 1, mask)
  }

  function GapAt(w: Readings, i: nat): int
    requires i + 1 < |w|
  {
    w[i + 1].ts - w[i].ts
  }

  /** The longest time between consecutive readings among the first `n`. */
  function MaxGap(w: Readings, n: nat): (g: Option<int>)
    requires n <= |w|
    ensures g.None? <==> n < 2
    ensures g.Some? ==> exists i: nat :: i + 1 < n && GapAt(w, i) == g.value
    ensures g.Some? ==> forall i: nat :: i + 1 < n ==> GapAt(w, i) <= g.value
  {
    if n < 2 then None
    else
      var rest := MaxGap(w, n - 1);
      var last := GapAt(w, n - 2);
      if rest.Some? && rest.value >= last then rest else Some(last)
  }

  function SummarizeWindow(rs: Readings, from: int, to: int, mask: nat): WindowSummary {
    var w := InWindow(rs, from, to);
    var n := |w|;
    if n == 0 then EMPTY_WINDOW
    else WindowSummary(n, Some(w[0].ts), Some(w[n - 1].ts), Some(MinValue(w, n)), Some(MaxValue(w, n)),
        WithBits(w, n, mask), MaxGap(w, n))
  }

  /** The newest of the first `n` readings no later than `to`. */
  function LatestOf(rs: Readings, n: nat, to: int): (r: Option<Reading>)
    requires n <= |rs|
    ensures r.None? ==> forall i :: 0 <= i < n ==> rs[i].ts > to
    ensures r.Some? ==> r.value in rs && r.value.ts <= to
  {
    if n == 0 then None else if rs[n - 1].ts <= to then Some(rs[n - 1]) else LatestOf(rs, n - 1, to)
  }

  // ---- the decision --------------------------------------------------------------------------------

  function SilenceLimit(silence: Option<int>, intervalMs: int): int {
    if silence.Some? then silence.value else if 5 * intervalMs > 2 * MIN then 5 * intervalMs else 2 * MIN
  }

  function WindowMs(rule: Rule, open: bool): int { if open then rule.clearAfterMs else rule.forMs }

  predicate Covered(w: WindowSummary, now: int, span: int, intervalMs: int) {
    var slack := 2 * intervalMs;
    && w.count > 0 && w.oldest.Some? && w.newest.Some?
    && w.oldest.value <= now - span + slack && w.newest.value >= now - slack
    && (if w.maxGap.Some? then w.maxGap.value else 0) <= 3 * intervalMs
  }

  predicate Holds(c: Condition, value: real) {
    match c
    case AtLeast(limit) => value >= limit
    case AtMost(limit) => value <= limit
    case BitsSet(mask) => HasBits(value, mask)
    case NoReadingFor(_) => false
  }

  predicate AllOver(c: Condition, w: WindowSummary) {
    match c
    case AtLeast(limit) => w.min.Some? && w.min.value >= limit
    case AtMost(limit) => w.max.Some? && w.max.value <= limit
    case _ => w.withBits == w.count
  }

  predicate NoneOver(c: Condition, w: WindowSummary) {
    match c
    case AtLeast(limit) => w.max.Some? && w.max.value < limit
    case AtMost(limit) => w.min.Some? && w.min.value > limit
    case _ => w.withBits == 0
  }

  function Evaluate(rule: Rule, input: CheckInput): Decision {
    if rule.condition.NoReadingFor? then
      if input.latest.None? then Nothing
      else
        var ts, limit := input.latest.value.ts, SilenceLimit(rule.condition.silence, input.intervalMs);
        if !input.open then
          if input.now - (if ts >= input.since then ts else input.since) > limit then RaiseIt(None) else Nothing
        else if input.now - ts <= limit then ClearIt
        else Nothing
    else
      var span := WindowMs(rule, input.open);
      if span == 0 then
        if input.latest.None? || input.latest.value.ts < input.now - 2 * input.intervalMs then Nothing
        else
          var breached := Holds(rule.condition, input.latest.value.value);
          if !input.open then (if breached then RaiseIt(Some(input.latest.value.value)) else Nothing)
          else if breached then Nothing
          else ClearIt
      else if !Covered(input.window, input.now, span, input.intervalMs) then Nothing
      else if !input.open then
        if AllOver(rule.condition, input.window)
        then RaiseIt(if input.latest.Some? then Some(input.latest.value.value) else None)
        else Nothing
      else if NoneOver(rule.condition, input.window) then ClearIt
      else Nothing
  }

  // ---- what the decision means -----------------------------------------------------------------------

  ghost predicate SomeIn(rs: Readings, from: int, to: int) { exists r :: r in rs && from <= r.ts <= to }

  /** After `r`, and no later than `s`, comes a reading soon enough. */
  ghost predicate Followed(rs: Readings, r: Reading, s: Reading, limit: int) {
    exists next :: next in rs && r.ts < next.ts <= s.ts && next.ts - r.ts <= limit
  }

  /** Each reading but the last is followed soon enough. */
  ghost predicate Gapless(rs: Readings, from: int, to: int, limit: int) {
    forall r, s :: r in rs && s in rs && from <= r.ts < s.ts <= to ==> Followed(rs, r, s, limit)
  }

  function Lesser(a: int, b: int): int { if a <= b then a else b }

  /**
   Readings span the window: one within two polls of its start, one within two polls of its end, and
   after each but the last another within three polls.
   */
  ghost predicate Spans(rs: Readings, now: int, span: int, intervalMs: int) {
    && SomeIn(rs, now - span, Lesser(now, now - span + 2 * intervalMs))
    && SomeIn(rs, now - Lesser(span, 2 * intervalMs), now)
    && Gapless(rs, now - span, now, 3 * intervalMs)
  }

  /** What it means to breach a limit. */
  ghost predicate Breaches(c: Condition, value: real) {
    || (c.AtLeast? && value >= c.limit)
    || (c.AtMost? && value <= c.limit)
    || (c.BitsSet?
        && ShareABit((if value >= 0.0 then value.Floor else -((-value).Floor)) % 0x1_0000_0000, c.mask))
  }

  ghost predicate ShareABit(x: nat, y: nat) { exists k: nat :: BothHave(k, x, y) }

  predicate BothHave(k: nat, x: nat, y: nat) { IsBit(k, x) && IsBit(k, y) }

  /** Bit `k` of a natural number. */
  predicate IsBit(k: nat, x: nat) {
    if k == 0 then x % 2 == 1 else IsBit(k - 1, x / 2)
  }

  /** Each reading in the window breaches the limit, or none does. */
  ghost predicate Throughout(rs: Readings, now: int, span: int, c: Condition, breached: bool) {
    forall r :: r in rs && now - span <= r.ts <= now ==> Breaches(c, r.value) == breached
  }

  function MaskOf(c: Condition): nat { if c.BitsSet? then c.mask else 0 }

  lemma SmallGaps(w: Readings, limit: int, from: int, to: int)
    requires Ordered(w) && forall i: nat :: i + 1 < |w| ==> GapAt(w, i) <= limit
    ensures Gapless(w, from, to, limit)
  {
    forall r, s | r in w && s in w && from <= r.ts < s.ts <= to
      ensures Followed(w, r, s, limit)
    {
      var i :| 0 <= i < |w| && w[i] == r;
      var j :| 0 <= j < |w| && w[j] == s;
      assert i < j && GapAt(w, i) <= limit;
      assert w[i + 1] in w;
    }
  }

  lemma BigGap(w: Readings, i: nat, limit: int, from: int, to: int)
    requires Ordered(w) && i + 1 < |w| && GapAt(w, i) > limit && from <= w[i].ts && w[i + 1].ts <= to
    ensures !Gapless(w, from, to, limit)
  {
    var r, s := w[i], w[i + 1];
    forall next | next in w && r.ts < next.ts <= s.ts
      ensures next == s
    {
      var k :| 0 <= k < |w| && w[k] == next;
      assert i < k <= i + 1;
    }
    assert !Followed(w, r, s, limit);
  }

  predicate GapsWithin(w: Readings, limit: int) {
    (if MaxGap(w, |w|).Some? then MaxGap(w, |w|).value else 0) <= limit
  }

  lemma GapsAreFollowed(w: Readings, limit: int, from: int, to: int)
    requires Ordered(w) && limit >= 0 && forall r :: r in w ==> from <= r.ts <= to
    ensures GapsWithin(w, limit) <==> Gapless(w, from, to, limit)
  {
    var g := MaxGap(w, |w|);
    if g.Some? && g.value > limit {
      var i: nat :| i + 1 < |w| && GapAt(w, i) == g.value;
      assert w[i] in w && w[i + 1] in w;
      BigGap(w, i, limit, from, to);
    } else {
      SmallGaps(w, limit, from, to);
    }
  }

  lemma EndsAreExtreme(w: Readings)
    requires Ordered(w) && |w| > 0
    ensures w[0] in w && w[|w| - 1] in w && forall r :: r in w ==> w[0].ts <= r.ts <= w[|w| - 1].ts
  {
  }

  /** Only the window's own readings matter. */
  lemma WindowGapless(rs: Readings, w: Readings, from: int, to: int, limit: int)
    requires forall r :: r in w <==> r in rs && from <= r.ts <= to
    ensures Gapless(rs, from, to, limit) <==> Gapless(w, from, to, limit)
  {
    forall r, s | r in w && s in w && from <= r.ts < s.ts <= to
      ensures Followed(rs, r, s, limit) <==> Followed(w, r, s, limit)
    {
    }
  }

  lemma EndsSpan(rs: Readings, w: Readings, now: int, span: int, intervalMs: int)
    requires Ordered(w) && |w| > 0 && forall r :: r in w <==> r in rs && now - span <= r.ts <= now
    ensures w[0].ts <= now - span + 2 * intervalMs <==> SomeIn(rs, now - span, Lesser(now, now - span + 2 * intervalMs))
    ensures w[|w| - 1].ts >= now - 2 * intervalMs <==> SomeIn(rs, now - Lesser(span, 2 * intervalMs), now)
  {
    EndsAreExtreme(w);
  }

  predicate WindowCovers(w: Readings, now: int, span: int, intervalMs: int) {
    && |w| > 0 && w[0].ts <= now - span + 2 * intervalMs && w[|w| - 1].ts >= now - 2 * intervalMs
    && GapsWithin(w, 3 * intervalMs)
  }

  lemma CoveredIs(rs: Readings, from: int, now: int, span: int, intervalMs: int, mask: nat)
    ensures Covered(SummarizeWindow(rs, from, now, mask), now, span, intervalMs) <==>
            WindowCovers(InWindow(rs, from, now), now, span, intervalMs)
  {
  }

  lemma NonEmptySpans(rs: Readings, w: Readings, now: int, span: int, intervalMs: int)
    requires Ordered(w) && |w| > 0 && intervalMs >= 0 && forall r :: r in w <==> r in rs && now - span <= r.ts <= now
    ensures WindowCovers(w, now, span, intervalMs) <==> Spans(rs, now, span, intervalMs)
  {
    EndsSpan(rs, w, now, span, intervalMs);
    GapsAreFollowed(w, 3 * intervalMs, now - span, now);
    WindowGapless(rs, w, now - span, now, 3 * intervalMs);
  }

  lemma CoveredSpans(rs: Readings, from: int, now: int, span: int, intervalMs: int)
    requires Ordered(rs) && intervalMs >= 0 && from == now - span
    ensures WindowCovers(InWindow(rs, from, now), now, span, intervalMs) <==> Spans(rs, now, span, intervalMs)
  {
    var w := InWindow(rs, from, now);
    if w == [] {
      NoneIn(rs, from, now);
    } else {
      WindowOrdered(rs, |rs|, from, now);
      NonEmptySpans(rs, w, now, span, intervalMs);
    }
  }

  lemma NoneIn(rs: Readings, from: int, to: int)
    requires InWindow(rs, from, to) == []
    ensures !SomeIn(rs, from, to) && forall upTo :: upTo <= to ==> !SomeIn(rs, from, upTo)
  {
    var w := InWindow(rs, from, to);
    assert forall r :: r in rs && from <= r.ts <= to ==> r in w;
  }

  lemma HoldingIsBreaching(w: Readings, c: Condition)
    ensures forall i :: 0 <= i < |w| ==> (Holds(c, w[i].value) <==> Breaches(c, w[i].value))
  {
    forall i | 0 <= i < |w| { HoldsIsBreaching(c, w[i].value); }
  }

  lemma SummaryJudges(rs: Readings, from: int, now: int, span: int, c: Condition)
    requires InWindow(rs, from, now) != [] && !c.NoReadingFor? && from == now - span
    ensures var w := SummarizeWindow(rs, from, now, MaskOf(c));
            && (AllOver(c, w) <==> Throughout(rs, now, span, c, true))
            && (NoneOver(c, w) <==> Throughout(rs, now, span, c, false))
  {
    var w := InWindow(rs, from, now);
    HoldingIsBreaching(w, c);
    assert Throughout(rs, now, span, c, true) <==> forall i :: 0 <= i < |w| ==> Holds(c, w[i].value);
    assert Throughout(rs, now, span, c, false) <==> forall i :: 0 <= i < |w| ==> !Holds(c, w[i].value);
  }

  function WindowStart(rule: Rule, now: int, open: bool): int { now - WindowMs(rule, open) }

  /** The input of a check of this rule at `now`. */
  function InputFor(rule: Rule, rs: Readings, now: int, since: int, intervalMs: int, open: bool): CheckInput {
    CheckInput(now, since, intervalMs, open, LatestOf(rs, |rs|, now + FUTURE_TOLERANCE_MS),
               if WindowMs(rule, open) > 0 && !rule.condition.NoReadingFor?
               then SummarizeWindow(rs, WindowStart(rule, now, open), now, MaskOf(rule.condition))
               else EMPTY_WINDOW)
  }

  /**
   The summary decides exactly the statement over the readings: with a positive window, the alert is
   raised exactly when readings span the window and all of them breach, and cleared exactly when
   they span it and none does.
   */
  lemma SummaryDecides(rule: Rule, rs: Readings, input: CheckInput, c: Condition, span: int)
    requires Ordered(rs) && input == InputFor(rule, rs, input.now, input.since, input.intervalMs, input.open)
    requires c == rule.condition && span == (if input.open then rule.clearAfterMs else rule.forMs) && span > 0
    requires !c.NoReadingFor? && input.intervalMs >= 0
    ensures Evaluate(rule, input).RaiseIt? <==>
            !input.open && Spans(rs, input.now, span, input.intervalMs) && Throughout(rs, input.now, span, c, true)
    ensures Evaluate(rule, input).ClearIt? <==>
            input.open && Spans(rs, input.now, span, input.intervalMs) && Throughout(rs, input.now, span, c, false)
  {
    InputDecides(rule, input, rs, c, span, WindowStart(rule, input.now, input.open));
  }

  lemma InputDecides(rule: Rule, input: CheckInput, rs: Readings, c: Condition, span: int, from: int)
    requires Ordered(rs) && input.intervalMs >= 0 && !c.NoReadingFor? && span > 0
    requires c == rule.condition && span == WindowMs(rule, input.open) && from == input.now - span
    requires input.window == SummarizeWindow(rs, from, input.now, MaskOf(c))
    ensures Evaluate(rule, input).RaiseIt? <==>
            !input.open && Spans(rs, input.now, span, input.intervalMs) && Throughout(rs, input.now, span, c, true)
    ensures Evaluate(rule, input).ClearIt? <==>
            input.open && Spans(rs, input.now, span, input.intervalMs) && Throughout(rs, input.now, span, c, false)
  {
    var now := input.now;
    WindowMeans(rs, from, now, span, input.intervalMs, c);
    WindowDecides(rule, input, Spans(rs, now, span, input.intervalMs), Throughout(rs, now, span, c, true),
        Throughout(rs, now, span, c, false));
  }

  lemma WindowMeans(rs: Readings, from: int, now: int, span: int, intervalMs: int, c: Condition)
    requires Ordered(rs) && intervalMs >= 0 && !c.NoReadingFor? && from == now - span
    ensures var s := SummarizeWindow(rs, from, now, MaskOf(c));
            && (Covered(s, now, span, intervalMs) <==> Spans(rs, now, span, intervalMs))
            && (Covered(s, now, span, intervalMs) ==>
                  && (AllOver(c, s) <==> Throughout(rs, now, span, c, true))
                  && (NoneOver(c, s) <==> Throughout(rs, now, span, c, false)))
  {
    CoveredIs(rs, from, now, span, intervalMs, MaskOf(c));
    CoveredSpans(rs, from, now, span, intervalMs);
    if InWindow(rs, from, now) != [] { SummaryJudges(rs, from, now, span, c); }
  }

  lemma WindowDecides(rule: Rule, input: CheckInput, spans: bool, all: bool, none: bool)
    requires !rule.condition.NoReadingFor? && WindowMs(rule, input.open) > 0
    requires Covered(input.window, input.now, WindowMs(rule, input.open), input.intervalMs) <==> spans
    requires spans ==>
              (AllOver(rule.condition, input.window) <==> all)
              && (NoneOver(rule.condition, input.window) <==> none)
    ensures Evaluate(rule, input).RaiseIt? <==> !input.open && spans && all
    ensures Evaluate(rule, input).ClearIt? <==> input.open && spans && none
  {
  }

  // ---- rules without a window, and silence -------------------------------------------------------------

  /** No reading that is believed is newer. */
  ghost predicate IsNewest(rs: Readings, r: Reading, to: int) {
    r in rs && r.ts <= to && forall s :: s in rs && s.ts <= to ==> s.ts <= r.ts
  }

  lemma {:induction false} LatestIsNewest(rs: Readings, n: nat, to: int)
    requires Ordered(rs) && n <= |rs|
    ensures var r := LatestOf(rs, n, to);
            r.Some? ==> forall i :: 0 <= i < n && rs[i].ts <= to ==> rs[i].ts <= r.value.ts
  {
    if n > 0 && rs[n - 1].ts > to { LatestIsNewest(rs, n - 1, to); }
  }

  lemma NewestIsOne(rs: Readings, to: int)
    requires Ordered(rs)
    ensures var latest := LatestOf(rs, |rs|, to);
            && (latest.Some? <==> exists r :: r in rs && r.ts <= to)
            && forall r :: IsNewest(rs, r, to) <==> latest == Some(r)
  {
    LatestIsNewest(rs, |rs|, to);
    forall r, q | IsNewest(rs, r, to) && IsNewest(rs, q, to)
      ensures r == q
    {
      var i :| 0 <= i < |rs| && rs[i] == r;
      var j :| 0 <= j < |rs| && rs[j] == q;
    }
  }

  /**
   A silence rule raises exactly when there is a reading that is believed, none within the limit, and the limit has
   passed since the engine began to count; it clears exactly when there is one within the limit. "Auto" is five polls,
   but at least two minutes.
   */
  lemma SilenceDecides(rule: Rule, rs: Readings, input: CheckInput, silence: Option<int>, limit: int, to: int)
    requires Ordered(rs) && input == InputFor(rule, rs, input.now, input.since, input.intervalMs, input.open)
    requires rule.condition == NoReadingFor(silence) && to == input.now + FUTURE_TOLERANCE_MS
    requires match silence
             case Some(ms) => limit == ms
             case None => limit >= 5 * input.intervalMs && limit >= 120_000
                          && (limit == 5 * input.intervalMs || limit == 120_000)
    ensures Evaluate(rule, input).RaiseIt? <==>
              && !input.open && input.since < input.now - limit && (exists r :: r in rs && r.ts <= to)
              && !exists r :: r in rs && input.now - limit <= r.ts <= to
    ensures Evaluate(rule, input).RaiseIt? ==> Evaluate(rule, input).value == None
    ensures Evaluate(rule, input).ClearIt? <==> input.open && exists r :: r in rs && input.now - limit <= r.ts <= to
  {
    NewestIsOne(rs, to);
    if input.latest.Some? { assert IsNewest(rs, input.latest.value, to); }
  }

  lemma {:induction false} ABitOverlaps(a: nat, b: nat, k: nat)
    requires IsBit(k, a) && IsBit(k, b)
    ensures Overlap(a, b)
  {
    if a == 0 || b == 0 { NoBits(k); } else if k > 0 { ABitOverlaps(a / 2, b / 2, k - 1); }
  }

  lemma {:induction false} OverlapHasABit(a: nat, b: nat) returns (k: nat)
    requires Overlap(a, b)
    ensures IsBit(k, a) && IsBit(k, b)
    decreases a
  {
    if a % 2 == 1 && b % 2 == 1 {
      k := 0;
    } else {
      var j := OverlapHasABit(a / 2, b / 2);
      k := j + 1;
    }
  }

  lemma {:induction false} NoBits(k: nat)
    ensures !IsBit(k, 0)
  {
    if k > 0 { NoBits(k - 1); }
  }

  lemma HoldsIsBreaching(c: Condition, value: real)
    ensures Holds(c, value) <==> Breaches(c, value)
  {
    if c.BitsSet? { BitsOverlap((Truncated(value) % 0x1_0000_0000) as nat, c.mask); }
  }

  lemma BitsOverlap(a: nat, b: nat)
    ensures Overlap(a, b) <==> ShareABit(a, b)
  {
    if Overlap(a, b) {
      var k := OverlapHasABit(a, b);
      assert BothHave(k, a, b);
    }
    if k: nat :| BothHave(k, a, b) { ABitOverlaps(a, b, k); }
  }

  /** The newest reading that is believed is at most two polls old, and it breaches the limit or does not. */
  ghost predicate NewestTells(rs: Readings, t: int, intervalMs: int, c: Condition, breached: bool) {
    exists r :: IsNewest(rs, r, t + FUTURE_TOLERANCE_MS) && r.ts >= t - 2 * intervalMs
                && Breaches(c, r.value) == breached
  }

  /**
   Without a window the newest reading that is believed decides, if it is at most two polls old: it raises the alert
   exactly when it breaches, and clears it exactly when it does not.
   */
  lemma InstantDecides(rule: Rule, rs: Readings, input: CheckInput)
    requires Ordered(rs) && input == InputFor(rule, rs, input.now, input.since, input.intervalMs, input.open)
    requires !rule.condition.NoReadingFor? && (if input.open then rule.clearAfterMs else rule.forMs) == 0
    ensures Evaluate(rule, input).RaiseIt? <==>
              !input.open && NewestTells(rs, input.now, input.intervalMs, rule.condition, true)
    ensures Evaluate(rule, input).RaiseIt? ==>
              exists r :: IsNewest(rs, r, input.now + FUTURE_TOLERANCE_MS)
                  && Evaluate(rule, input).value == Some(r.value)
    ensures Evaluate(rule, input).ClearIt? <==>
              input.open && NewestTells(rs, input.now, input.intervalMs, rule.condition, false)
  {
    NewestIs(rs, input.now, input.intervalMs, rule.condition, input.latest);
    if input.latest.Some? { HoldsIsBreaching(rule.condition, input.latest.value.value); }
  }

  lemma NewestIs(rs: Readings, t: int, intervalMs: int, c: Condition, latest: Option<Reading>)
    requires Ordered(rs) && latest == LatestOf(rs, |rs|, t + FUTURE_TOLERANCE_MS)
    ensures forall breached :: NewestTells(rs, t, intervalMs, c, breached) <==>
              latest.Some? && latest.value.ts >= t - 2 * intervalMs && Breaches(c, latest.value.value) == breached
    ensures latest.Some? ==> IsNewest(rs, latest.value, t + FUTURE_TOLERANCE_MS)
  {
    NewestIsOne(rs, t + FUTURE_TOLERANCE_MS);
    if latest.Some? { assert IsNewest(rs, latest.value, t + FUTURE_TOLERANCE_MS); }
  }

  /** The value of an alert with a window is that of the newest reading. */
  lemma ValueIsNewest(rule: Rule, rs: Readings, input: CheckInput, to: int)
    requires Ordered(rs) && input == InputFor(rule, rs, input.now, input.since, input.intervalMs, input.open)
    requires !rule.condition.NoReadingFor? && rule.forMs > 0 && Evaluate(rule, input).RaiseIt?
    requires to == input.now + FUTURE_TOLERANCE_MS && input.intervalMs >= 0
    ensures exists r :: IsNewest(rs, r, to) && Evaluate(rule, input).value == Some(r.value)
  {
    SummaryDecides(rule, rs, input, rule.condition, rule.forMs);
    NewestIsOne(rs, to);
    var r :| r in rs && r.ts <= input.now;
    assert IsNewest(rs, input.latest.value, to);
  }
}
