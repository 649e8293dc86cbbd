/** One rule on one metric over any run of readings, prunings and checks: how soon its alert can change. */
module AlertHistory {
  import opened Results
  import opened Alerts

  datatype Alarm = Alarm(raisedAt: int, clearedAt: Option<int>)

  type Alarms = seq<Alarm>

  predicate IsOpen(alarms: Alarms) { |alarms| > 0 && alarms[|alarms| - 1].clearedAt.None? }

  /** One check of an unchanged rule: the alert rows are its only state. */
  function AfterCheck(alarms: Alarms, rule: Rule, rs: Readings, t: int, since: int, intervalMs: int): Alarms {
    var decision := Evaluate(rule, InputFor(rule, rs, t, since, intervalMs, IsOpen(alarms)));
    if decision.RaiseIt? && !IsOpen(alarms) then alarms + [Alarm(t, None)]
    else if decision.ClearIt? && IsOpen(alarms) then
      var last := alarms[|alarms| - 1];
      alarms[|alarms| - 1 := last.(clearedAt := Some(if t >= last.raisedAt then t else last.raisedAt))]
    else alarms
  }

  class Engine {
    const rule: Rule
    const intervalMs: int
    var alarms: Alarms
    /** Silence is never counted from before this. */
    var since: int
    var lastCheck: Option<int>

    constructor (rule: Rule, intervalMs: int, alarms: Alarms, now: int)
      ensures this.rule == rule && this.intervalMs == intervalMs && this.alarms == alarms && since == now
              && lastCheck == None
    {
      this.rule, this.intervalMs, this.alarms, since, lastCheck := rule, intervalMs, alarms, now, None;
    }

    /** After a clock jump or a long pause, silence counts afresh. */
    method Check(rs: Readings, t: int, checkEveryMs: int)
      modifies this
      ensures lastCheck == Some(t)
      ensures since
              == if old(lastCheck).Some? && (t < old(lastCheck).value || t - old(lastCheck).value > 3 * checkEveryMs)
                  then t else old(since)
      ensures alarms == AfterCheck(old(alarms), rule, rs, t, since, intervalMs)
    {
      if lastCheck.Some? && (t < lastCheck.value || t - lastCheck.value > 3 * checkEveryMs) { since := t; }
      lastCheck := Some(t);
      var n := |alarms|;
      var open := n > 0 && alarms[n - 1].clearedAt.None?;
      var decision := Evaluate(rule, InputFor(rule, rs, t, since, intervalMs, open));
      if decision.RaiseIt? && !open {
        alarms := alarms + [Alarm(t, None)];
      } else if decision.ClearIt? && open {
        var last := alarms[n - 1];
        alarms := alarms[n - 1 := last.(clearedAt := Some(if t >= last.raisedAt then t else last.raisedAt))];
      }
    }
  }

  // ---- runs ------------------------------------------------------------------------------------------

  datatype World = World(rs: Readings, alarms: Alarms, now: int)

  datatype Event = Arrive(r: Reading) | Prune(t: int, before: int) | Check(t: int, since: int)

  /** Readings in the order of their timestamps. */
  function Inserted(rs: Readings, r: Reading): Readings {
    if rs == [] || rs[|rs| - 1].ts < r.ts then rs + [r] else Inserted(rs[..|rs| - 1], r) + [rs[|rs| - 1]]
  }

  function Longest(rule: Rule): int { if rule.forMs >= rule.clearAfterMs then rule.forMs else rule.clearAfterMs }

  /** Time does not step back; a stored reading stays, until it is older than the rule looks back. */
  predicate Admissible(w: World, rule: Rule, e: Event) {
    match e
    case Arrive(r) => forall s :: s in w.rs ==> s.ts != r.ts
    case Prune(t, before) => t >= w.now && before <= t - Longest(rule)
    case Check(t, _) => t >= w.now
  }

  function From(rs: Readings, before: int): Readings {
    if rs == [] then [] else if rs[0].ts < before then From(rs[1..], before) else rs
  }

  function Next(w: World, rule: Rule, intervalMs: int, e: Event): World {
    match e
    case Arrive(r) => w.(rs := Inserted(w.rs, r))
    case Prune(t, before) => w.(rs := From(w.rs, before), now := t)
    case Check(t, since) => w.(alarms := AfterCheck(w.alarms, rule, w.rs, t, since, intervalMs), now := t)
  }

  predicate Happens(w: World, rule: Rule, intervalMs: int, events: seq<Event>)
    decreases |events|
  {
    events == [] || (Admissible(w, rule, events[0])
        && Happens(Next(w, rule, intervalMs, events[0]), rule, intervalMs, events[1..]))
  }

  function Play(w: World, rule: Rule, intervalMs: int, events: seq<Event>): World
    decreases |events|
  {
    if events == [] then w else Play(Next(w, rule, intervalMs, events[0]), rule, intervalMs, events[1..])
  }

  // ---- the invariant -----------------------------------------------------------------------------------

  /** A reading of the two polls before `t` that breached, or did not: stored, unless too old to be looked at. */
  ghost predicate Evidence(w: World, rule: Rule, intervalMs: int, t: int, breached: bool) {
    exists r: Reading :: t - 2 * intervalMs <= r.ts <= t && Breaches(rule.condition, r.value) == breached
                         && (r in w.rs || r.ts < w.now - Longest(rule))
  }

  /** An alert lasts, and stays away, almost as long as its two windows. */
  predicate Spaced(alarms: Alarms, rule: Rule, intervalMs: int) {
    && (forall k :: 0 <= k < |alarms| && alarms[k].clearedAt.Some? ==>
          alarms[k].clearedAt.value - alarms[k].raisedAt > rule.clearAfterMs - 2 * intervalMs)
    && (forall k :: 0 <= k < |alarms| - 1 ==>
          alarms[k].clearedAt.Some? && alarms[k + 1].raisedAt - alarms[k].clearedAt.value > rule.forMs - 2 * intervalMs)
  }

  ghost predicate Inv(w: World, rule: Rule, intervalMs: int) {
    && Ordered(w.rs) && Spaced(w.alarms, rule, intervalMs)
    && (|w.alarms| > 0 ==>
          var last := w.alarms[|w.alarms| - 1];
          && last.raisedAt <= w.now && (last.clearedAt.Some? ==> last.clearedAt.value <= w.now)
          && if last.clearedAt.None? then Evidence(w, rule, intervalMs, last.raisedAt, true)
             else Evidence(w, rule, intervalMs, last.clearedAt.value, false))
  }

  lemma {:induction false} InsertedIs(rs: Readings, r: Reading)
    requires Ordered(rs) && forall s :: s in rs ==> s.ts != r.ts
    ensures Ordered(Inserted(rs, r)) && forall s :: s in Inserted(rs, r) <==> s in rs || s == r
  {
    if rs != [] && rs[|rs| - 1].ts >= r.ts {
      var n := |rs| - 1;
      InsertedIs(rs[..n], r);
      assert rs == rs[..n] + [rs[n]];
      var p := Inserted(rs[..n], r);
      forall i | 0 <= i < |p|
        ensures p[i].ts < rs[n].ts
      {
        assert p[i] in p;
        assert rs[n] in rs;
      }
    }
  }

  lemma {:induction false} FromIs(rs: Readings, before: int)
    requires Ordered(rs)
    ensures Ordered(From(rs, before)) && forall s :: s in From(rs, before) <==> s in rs && s.ts >= before
  {
    if rs != [] {
      assert rs == [rs[0]] + rs[1..];
      if rs[0].ts < before { FromIs(rs[1..], before); }
    }
  }

  /** Evidence outlives arrivals and prunings, and time. */
  lemma EvidenceStays(w: World, v: World, rule: Rule, intervalMs: int, t: int, breached: bool)
    requires Evidence(w, rule, intervalMs, t, breached) && v.now >= w.now
    requires forall s :: s in w.rs ==> s in v.rs || s.ts < v.now - Longest(rule)
    ensures Evidence(v, rule, intervalMs, t, breached)
  {
  }

  /** What changes the alert now contradicts the evidence of its last change, so that is out of the window. */
  lemma Apart(w: World, rule: Rule, intervalMs: int, changedAt: int, t: int, span: int, breached: bool)
    requires Evidence(w, rule, intervalMs, changedAt, !breached) && changedAt <= t && w.now <= t
             && 0 < span <= Longest(rule)
    requires Throughout(w.rs, t, span, rule.condition, breached)
    ensures t - changedAt > span - 2 * intervalMs
  {
  }

  lemma NewEvidence(w: World, rule: Rule, intervalMs: int, t: int, span: int, breached: bool)
    requires Spans(w.rs, t, span, intervalMs) && Throughout(w.rs, t, span, rule.condition, breached) && span > 0
             && intervalMs >= 0
    ensures Evidence(w.(now := t), rule, intervalMs, t, breached)
  {
    var r :| r in w.rs && t - Lesser(span, 2 * intervalMs) <= r.ts <= t;
  }

  predicate Steady(rule: Rule, intervalMs: int) {
    !rule.condition.NoReadingFor? && rule.forMs > 0 && rule.clearAfterMs > 0 && intervalMs >= 0
  }

  lemma CheckKeeps(w: World, rule: Rule, intervalMs: int, t: int, since: int)
    requires Inv(w, rule, intervalMs) && Steady(rule, intervalMs) && t >= w.now
    ensures Inv(Next(w, rule, intervalMs, Check(t, since)), rule, intervalMs)
  {
    var open := IsOpen(w.alarms);
    var span := WindowMs(rule, open);
    var input := InputFor(rule, w.rs, t, since, intervalMs, open);
    var v := Next(w, rule, intervalMs, Check(t, since));
    SummaryDecides(rule, w.rs, input, rule.condition, span);
    if Evaluate(rule, input).RaiseIt? {
      RaiseKeeps(w, v, rule, intervalMs, t);
    } else if Evaluate(rule, input).ClearIt? {
      ClearKeeps(w, v, rule, intervalMs, t);
    } else {
      Unchanged(w, v, rule, intervalMs, t);
    }
  }

  lemma Unchanged(w: World, v: World, rule: Rule, intervalMs: int, t: int)
    requires Inv(w, rule, intervalMs) && t >= w.now && v == w.(now := t)
    ensures Inv(v, rule, intervalMs)
  {
    if |w.alarms| > 0 {
      var last := w.alarms[|w.alarms| - 1];
      if last.clearedAt.None? { EvidenceStays(w, v, rule, intervalMs, last.raisedAt, true); }
      else { EvidenceStays(w, v, rule, intervalMs, last.clearedAt.value, false); }
    }
  }

  lemma RaiseKeeps(w: World, v: World, rule: Rule, intervalMs: int, t: int)
    requires Inv(w, rule, intervalMs) && Steady(rule, intervalMs) && t >= w.now && !IsOpen(w.alarms)
    requires Spans(w.rs, t, rule.forMs, intervalMs) && Throughout(w.rs, t, rule.forMs, rule.condition, true)
    requires v == w.(alarms := w.alarms + [Alarm(t, None)], now := t)
    ensures Inv(v, rule, intervalMs)
  {
    if |w.alarms| > 0 {
      Apart(w, rule, intervalMs, w.alarms[|w.alarms| - 1].clearedAt.value, t, rule.forMs, true);
    }
    SpacedRaise(w.alarms, rule, intervalMs, t);
    NewEvidence(w, rule, intervalMs, t, rule.forMs, true);
    EvidenceStays(w.(now := t), v, rule, intervalMs, t, true);
  }

  lemma SpacedRaise(alarms: Alarms, rule: Rule, intervalMs: int, t: int)
    requires Spaced(alarms, rule, intervalMs) && !IsOpen(alarms)
    requires |alarms| > 0 ==> t - alarms[|alarms| - 1].clearedAt.value > rule.forMs - 2 * intervalMs
    ensures Spaced(alarms + [Alarm(t, None)], rule, intervalMs)
  {
  }

  lemma SpacedClear(alarms: Alarms, rule: Rule, intervalMs: int, t: int)
    requires Spaced(alarms, rule, intervalMs) && IsOpen(alarms)
    requires t - alarms[|alarms| - 1].raisedAt > rule.clearAfterMs - 2 * intervalMs
    ensures var n := |alarms| - 1; Spaced(alarms[n := alarms[n].(clearedAt := Some(t))], rule, intervalMs)
  {
  }

  lemma ClearKeeps(w: World, v: World, rule: Rule, intervalMs: int, t: int)
    requires Inv(w, rule, intervalMs) && Steady(rule, intervalMs) && t >= w.now && IsOpen(w.alarms)
    requires Spans(w.rs, t, rule.clearAfterMs, intervalMs)
             && Throughout(w.rs, t, rule.clearAfterMs, rule.condition, false)
    requires var n := |w.alarms| - 1; v == w.(alarms := w.alarms[n := w.alarms[n].(clearedAt := Some(t))], now := t)
    ensures Inv(v, rule, intervalMs)
  {
    Apart(w, rule, intervalMs, w.alarms[|w.alarms| - 1].raisedAt, t, rule.clearAfterMs, false);
    SpacedClear(w.alarms, rule, intervalMs, t);
    NewEvidence(w, rule, intervalMs, t, rule.clearAfterMs, false);
    EvidenceStays(w.(now := t), v, rule, intervalMs, t, false);
  }

  lemma ReadingsKeep(w: World, v: World, rule: Rule, intervalMs: int)
    requires Inv(w, rule, intervalMs) && v.alarms == w.alarms && v.now >= w.now && Ordered(v.rs)
    requires forall s :: s in w.rs ==> s in v.rs || s.ts < v.now - Longest(rule)
    ensures Inv(v, rule, intervalMs)
  {
    if |w.alarms| > 0 {
      var last := w.alarms[|w.alarms| - 1];
      if last.clearedAt.None? { EvidenceStays(w, v, rule, intervalMs, last.raisedAt, true); }
      else { EvidenceStays(w, v, rule, intervalMs, last.clearedAt.value, false); }
    }
  }

  lemma {:induction false} PlayKeeps(w: World, rule: Rule, intervalMs: int, events: seq<Event>)
    requires Inv(w, rule, intervalMs) && Steady(rule, intervalMs) && Happens(w, rule, intervalMs, events)
    ensures Inv(Play(w, rule, intervalMs, events), rule, intervalMs)
    decreases |events|
  {
    if events != [] {
      var v := Next(w, rule, intervalMs, events[0]);
      match events[0] {
        case Arrive(r) => InsertedIs(w.rs, r); ReadingsKeep(w, v, rule, intervalMs);
        case Prune(t, before) => FromIs(w.rs, before); ReadingsKeep(w, v, rule, intervalMs);
        case Check(t, since) => CheckKeeps(w, rule, intervalMs, t, since);
      }
      PlayKeeps(v, rule, intervalMs, events[1..]);
    }
  }

  /**
   Hysteresis: over any run of an unchanged threshold or bit rule with positive windows, every clear
   comes more than clearAfter less two polls after its raise, and every next raise more than `for` less
   two polls after that clear.
   */
  lemma AlertsAreSpaced(start: int, rule: Rule, intervalMs: int, events: seq<Event>)
    requires Steady(rule, intervalMs) && Happens(World([], [], start), rule, intervalMs, events)
    ensures Spaced(Play(World([], [], start), rule, intervalMs, events).alarms, rule, intervalMs)
  {
    PlayKeeps(World([], [], start), rule, intervalMs, events);
  }

  // ---- what a check makes of the readings ----------------------------------------------------------------

  /** The limit of a silence rule: its own, or five polls and at least two minutes. */
  ghost predicate IsLimit(silence: Option<int>, intervalMs: int, limit: int) {
    match silence
    case Some(ms) => limit == ms
    case None =>
      limit >= 5 * intervalMs && limit >= 120_000 && (limit == 5 * intervalMs || limit == 120_000)
  }

  /** There is a reading that is believed, none within the limit, and the limit has passed since the engine counts. */
  ghost predicate Silent(rs: Readings, t: int, since: int, intervalMs: int, silence: Option<int>) {
    exists limit :: IsLimit(silence, intervalMs, limit) && since < t - limit
                    && SomeUpTo(rs, t + FUTURE_TOLERANCE_MS) && !SomeIn(rs, t - limit, t + FUTURE_TOLERANCE_MS)
  }

  ghost predicate Heard(rs: Readings, t: int, intervalMs: int, silence: Option<int>) {
    exists limit :: IsLimit(silence, intervalMs, limit) && SomeIn(rs, t - limit, t + FUTURE_TOLERANCE_MS)
  }

  /** The readings of the span say that the limit is breached, or that it is not. */
  ghost predicate Tell(rs: Readings, t: int, intervalMs: int, c: Condition, span: int, breached: bool) {
    if span == 0 then NewestTells(rs, t, intervalMs, c, breached)
    else Spans(rs, t, span, intervalMs) && Throughout(rs, t, span, c, breached)
  }

  /** The readings speak for an alert. */
  ghost predicate ShouldRaise(rule: Rule, rs: Readings, t: int, since: int, intervalMs: int) {
    if rule.condition.NoReadingFor? then Silent(rs, t, since, intervalMs, rule.condition.silence)
    else Tell(rs, t, intervalMs, rule.condition, rule.forMs, true)
  }

  /** They speak against it. */
  ghost predicate ShouldClear(rule: Rule, rs: Readings, t: int, intervalMs: int) {
    if rule.condition.NoReadingFor? then Heard(rs, t, intervalMs, rule.condition.silence)
    else Tell(rs, t, intervalMs, rule.condition, rule.clearAfterMs, false)
  }

  ghost predicate SomeUpTo(rs: Readings, to: int) { exists r :: r in rs && r.ts <= to }

  lemma SilenceMeans(rule: Rule, rs: Readings, input: CheckInput)
    requires Ordered(rs) && rule.condition.NoReadingFor?
    requires input == InputFor(rule, rs, input.now, input.since, input.intervalMs, input.open)
    ensures Evaluate(rule, input).RaiseIt? <==>
              !input.open && ShouldRaise(rule, rs, input.now, input.since, input.intervalMs)
    ensures Evaluate(rule, input).ClearIt? <==> input.open && ShouldClear(rule, rs, input.now, input.intervalMs)
  {
    var silence, to := rule.condition.silence, input.now + FUTURE_TOLERANCE_MS;
    var auto := if 5 * input.intervalMs >= 120_000 then 5 * input.intervalMs else 120_000;
    var limit := if silence.Some? then silence.value else auto;
    assert IsLimit(silence, input.intervalMs, limit);
    assert forall l :: IsLimit(silence, input.intervalMs, l) ==> l == limit;
    SilenceDecides(rule, rs, input, silence, limit, to);
  }

  lemma InstantMeans(rule: Rule, rs: Readings, input: CheckInput)
    requires Ordered(rs) && !rule.condition.NoReadingFor?
    requires (if input.open then rule.clearAfterMs else rule.forMs) == 0
    requires input == InputFor(rule, rs, input.now, input.since, input.intervalMs, input.open)
    ensures Evaluate(rule, input).RaiseIt? <==>
              !input.open && ShouldRaise(rule, rs, input.now, input.since, input.intervalMs)
    ensures Evaluate(rule, input).ClearIt? <==> input.open && ShouldClear(rule, rs, input.now, input.intervalMs)
  {
    InstantDecides(rule, rs, input);
  }

  lemma DecisionMeans(rule: Rule, rs: Readings, input: CheckInput)
    requires Ordered(rs) && input.intervalMs >= 0 && rule.forMs >= 0 && rule.clearAfterMs >= 0
    requires input == InputFor(rule, rs, input.now, input.since, input.intervalMs, input.open)
    ensures Evaluate(rule, input).RaiseIt? <==>
              !input.open && ShouldRaise(rule, rs, input.now, input.since, input.intervalMs)
    ensures Evaluate(rule, input).ClearIt? <==> input.open && ShouldClear(rule, rs, input.now, input.intervalMs)
  {
    var span := if input.open then rule.clearAfterMs else rule.forMs;
    if rule.condition.NoReadingFor? {
      SilenceMeans(rule, rs, input);
    } else if span == 0 {
      InstantMeans(rule, rs, input);
    } else {
      SummaryDecides(rule, rs, input, rule.condition, span);
    }
  }

  /**
   A check raises an alert exactly when none is open and the readings speak for it, clears the open one exactly when
   they speak against it, no earlier than it was raised, and otherwise leaves the rows as they are.
   */
  lemma CheckMeans(alarms: Alarms, rule: Rule, rs: Readings, t: int, since: int, intervalMs: int)
    requires Ordered(rs) && intervalMs >= 0 && rule.forMs >= 0 && rule.clearAfterMs >= 0
    ensures var n, v := |alarms|, AfterCheck(alarms, rule, rs, t, since, intervalMs);
            if n == 0 || alarms[n - 1].clearedAt.Some? then
              v == if ShouldRaise(rule, rs, t, since, intervalMs) then alarms + [Alarm(t, None)] else alarms
            else if ShouldClear(rule, rs, t, intervalMs) then
              |v| == n && v[..n - 1] == alarms[..n - 1] && v[n - 1].raisedAt == alarms[n - 1].raisedAt
              && v[n - 1].clearedAt.Some?
              && v[n - 1].clearedAt.value >= t && v[n - 1].clearedAt.value >= alarms[n - 1].raisedAt
              && (v[n - 1].clearedAt.value == t || v[n - 1].clearedAt.value == alarms[n - 1].raisedAt)
            else v == alarms
  {
    DecisionMeans(rule, rs, InputFor(rule, rs, t, since, intervalMs, IsOpen(alarms)));
  }
}
