/**
 The notifications outbox (packages/notify/src/outbox.ts), what queues rows in it
 (packages/notify/src/enqueue.ts) and the clock that keeps their times true (packages/notify/src/sender.ts).
 A log keeps every row ever queued, in order; the table holds those neither withdrawn nor pruned.
 Rules, metrics, messages and webhook ids are numbers.
 */
module Outbox {
  import opened Results

  datatype Severity = Warning | Critical

  function Rank(s: Severity): nat { if s.Warning? then 0 else 1 }

  /** A rule and the metric it watches. */
  datatype Watch = Watch(rule: nat, metric: nat)

  datatype Event = Raised | Cleared

  datatype Reason = Condition | RuleRemoved | RuleChanged

  datatype Alert = Alert(id: nat, watch: Watch, severity: Severity, message: nat, raisedAt: int,
                         clearedAt: Option<int>, clearedBy: Reason)

  datatype Webhook = Webhook(id: nat, events: set<Event>, minSeverity: Severity)

  datatype Status = Pending | Sent(at: int) | Failed(at: int) | Withdrawn

  /**
   A queued notification. `born` and `skipped` are not stored: they say when it was queued on the
   monotonic clock, and what the ignored jumps of the wall clock had added up to by then.
   */
  datatype Row = Row(id: nat, webhook: nat, alert: nat, event: Event, watch: Watch, status: Status, pruned: bool,
                     attempts: nat, nextAt: int, createdAt: int, born: int, skipped: int)

  type Log = seq<Row>

  const CHANGED_CLEAR_DELAY_MS: int := 30_000
  const FIRST_RETRY_MS: int := 5_000
  const MAX_RETRY_MS: int := 300_000
  const GIVE_UP_AFTER_MS: int := 21_600_000
  const CLOCK_JUMP_MS: int := 60_000

  /** Whether the row is in the table. */
  predicate Stored(r: Row) { !r.status.Withdrawn? && !r.pruned }

  predicate IsPending(r: Row) { r.status.Pending? && !r.pruned }

  /** The id SQLite gives: one more than the largest in the table. */
  function NextId(log: Log): (id: nat)
    ensures forall i :: 0 <= i < |log| && Stored(log[i]) ==> log[i].id < id
  {
    if log == [] then 1
    else
      var last := log[|log| - 1];
      var rest := NextId(log[..|log| - 1]);
      assert forall i :: 0 <= i < |log| - 1 ==> log[i] == log[..|log| - 1][i];
      if Stored(last) && last.id >= rest then last.id + 1 else rest
  }

  // ---- statements --------------------------------------------------------------------------------

  /** UPDATE ... WHERE: every row of the table that matches. */
  function Each(log: Log, f: Row -> Row): (r: Log)
    ensures |r| == |log| && forall i :: 0 <= i < |log| ==> r[i] == f(log[i])
  {
    seq(|log|, i requires 0 <= i < |log| => f(log[i]))
  }

  /** The index of the webhook's pending row with the smallest id. */
  function HeadOf(log: Log, webhook: nat): (h: Option<nat>)
    ensures h.None? ==> forall i :: 0 <= i < |log| && IsPending(log[i]) ==> log[i].webhook != webhook
    ensures h.Some? ==> h.value < |log| && IsPending(log[h.value]) && log[h.value].webhook == webhook
    ensures h.Some? ==>
              forall i :: 0 <= i < |log| && IsPending(log[i]) && log[i].webhook == webhook ==>
                log[h.value].id <= log[i].id
  {
    if log == [] then None
    else
      var n := |log| - 1;
      var h := HeadOf(log[..n], webhook);
      assert forall i :: 0 <= i < n ==> log[i] == log[..n][i];
      if IsPending(log[n]) && log[n].webhook == webhook && (h.None? || log[n].id < log[h.value].id) then Some(n) else h
  }

  function SentRow(r: Row, id: nat, at: int): Row {
    if Stored(r) && r.id == id then r.(status := Sent(at), attempts := r.attempts + 1) else r
  }

  function MarkSent(log: Log, id: nat, at: int): Log { Each(log, r => SentRow(r, id, at)) }

  function RetriedRow(r: Row, id: nat, nextAt: int): Row {
    if Stored(r) && r.id == id then r.(attempts := r.attempts + 1, nextAt := nextAt) else r
  }

  function MarkAttemptFailed(log: Log, id: nat, nextAt: int): Log { Each(log, r => RetriedRow(r, id, nextAt)) }

  function GivenUpRow(r: Row, id: nat, at: int): Row {
    if Stored(r) && r.id == id then r.(status := Failed(at), attempts := r.attempts + 1) else r
  }

  function MarkGivenUp(log: Log, id: nat, at: int): Log { Each(log, r => GivenUpRow(r, id, at)) }

  function PostponedRow(r: Row, id: nat, nextAt: int): Row {
    if Stored(r) && r.id == id then r.(nextAt := nextAt) else r
  }

  function SetNextAt(log: Log, id: nat, nextAt: int): Log { Each(log, r => PostponedRow(r, id, nextAt)) }

  function WithdrawnRow(r: Row, alert: nat, webhooks: set<nat>): Row {
    if IsPending(r) && r.event.Cleared? && r.alert == alert && r.webhook in webhooks then r.(status := Withdrawn) else r
  }

  function DeletePendingClears(log: Log, alert: nat, webhooks: set<nat>): Log {
    Each(log, r => WithdrawnRow(r, alert, webhooks))
  }

  function ShiftedRow(r: Row, ms: int): Row {
    if IsPending(r) then r.(createdAt := r.createdAt + ms, nextAt := r.nextAt + ms) else r
  }

  function ShiftPending(log: Log, ms: int): Log { Each(log, r => ShiftedRow(r, ms)) }

  function UnwantedRow(r: Row, keep: set<nat>, at: int): Row {
    if IsPending(r) && r.webhook !in keep then r.(status := Failed(at)) else r
  }

  function FailRemovedWebhooks(log: Log, keep: set<nat>, at: int): Log { Each(log, r => UnwantedRow(r, keep, at)) }

  function PrunedRow(r: Row, before: int): Row {
    if (r.status.Sent? || r.status.Failed?) && r.status.at < before then r.(pruned := true) else r
  }

  /** DELETE of rows sent or failed before; a failed row's time is its last attempt's. */
  function PruneNotifications(log: Log, before: int): Log { Each(log, r => PrunedRow(r, before)) }

  // ---- the clock ---------------------------------------------------------------------------------

  /** Both clocks as read at one moment, in ms. */
  datatype Reading = Reading(wall: int, mono: int)

  /** The last reading, and what the ignored jumps add up to. */
  datatype Clock = Clock(wall: int, mono: int, ignored: int)

  datatype Outbox = Outbox(log: Log, clock: Clock)

  function Jump(c: Clock, r: Reading): int { r.wall - c.wall - (r.mono - c.mono) }

  predicate IsJump(ms: int) { ms >= CLOCK_JUMP_MS || -ms >= CLOCK_JUMP_MS }

  /** Reads the time; if the wall clock jumped by a minute or more either way, moves every pending row with it. */
  function Now(o: Outbox, r: Reading): Outbox {
    var jump := Jump(o.clock, r);
    if IsJump(jump) then Outbox(ShiftPending(o.log, jump), Clock(r.wall, r.mono, o.clock.ignored))
    else Outbox(o.log, Clock(r.wall, r.mono, o.clock.ignored + jump))
  }

  // ---- queueing ----------------------------------------------------------------------------------

  predicate Reaches(w: Webhook, s: Severity) { Rank(s) >= Rank(w.minSeverity) }

  predicate Wants(w: Webhook, event: Event, s: Severity) { event in w.events && Reaches(w, s) }

  /** Inserts one row, created now. */
  function Insert(o: Outbox, w: Webhook, event: Event, a: Alert, nextAt: int, r: Reading): Outbox {
    var n := Now(o, r);
    n.(log := n.log
        + [Row(NextId(n.log), w.id, a.id, event, a.watch, Pending, false, 0, nextAt, r.wall, r.mono, n.clock.ignored)])
  }

  /** One row for each webhook that wants the event; the clock is read for each. */
  function Queue(o: Outbox, hooks: seq<Webhook>, event: Event, a: Alert, nextAt: int, clock: nat -> Reading): Outbox
    decreases |hooks|
  {
    if hooks == [] then o
    else
      var n := |hooks| - 1;
      var rest := Queue(o, hooks[..n], event, a, nextAt, clock);
      if Wants(hooks[n], event, a.severity) then Insert(rest, hooks[n], event, a, nextAt, clock(n + 1)) else rest
  }

  /** The alert an edit closed at the moment this one opened: the newest of them. */
  function ClosedByEdit(alerts: seq<Alert>, a: Alert): (p: Option<Alert>)
    ensures p.Some? ==> p.value in alerts && ClosedFor(p.value, a)
    ensures p.None? ==> forall b :: b in alerts ==> !ClosedFor(b, a)
  {
    if alerts == [] then None
    else
      var last := alerts[|alerts| - 1];
      if ClosedFor(last, a) then Some(last) else ClosedByEdit(alerts[..|alerts| - 1], a)
  }

  predicate ClosedFor(b: Alert, a: Alert) {
    b.watch == a.watch && b.clearedAt == Some(a.raisedAt) && b.clearedBy.RuleChanged?
  }

  function Reached(hooks: seq<Webhook>, s: Severity): set<nat> {
    set w | w in hooks && Reaches(w, s) :: w.id
  }

  function OnCleared(o: Outbox, hooks: seq<Webhook>, a: Alert, clock: nat -> Reading): Outbox {
    ToldCleared(o, hooks, hooks, a, clock)
  }

  /** As far as the rows of `told`, the first of the webhooks. */
  function ToldCleared(o: Outbox, hooks: seq<Webhook>, told: seq<Webhook>, a: Alert, clock: nat -> Reading): Outbox {
    if hooks == [] || a.clearedBy.RuleRemoved? then o
    else
      var delay := if a.clearedBy.RuleChanged? then CHANGED_CLEAR_DELAY_MS else 0;
      Queue(Now(o, clock(0)), told, Cleared, a, clock(0).wall + delay, clock)
  }

  /** `alerts` is the table, in which `a` has just been inserted. */
  function OnRaised(o: Outbox, hooks: seq<Webhook>, alerts: seq<Alert>, a: Alert, clock: nat -> Reading): Outbox {
    ToldRaised(o, hooks, hooks, alerts, a, clock)
  }

  /** As far as the rows of `told`, the first of the webhooks. */
  function ToldRaised(o: Outbox, hooks: seq<Webhook>, told: seq<Webhook>, alerts: seq<Alert>, a: Alert,
                      clock: nat -> Reading): Outbox {
    var previous := ClosedByEdit(alerts, a);
    if hooks == [] then o
    else if previous.Some? then
      var left := o.(log := DeletePendingClears(o.log, previous.value.id, Reached(hooks, a.severity)));
      if previous.value.severity == a.severity && previous.value.message == a.message then left
      else Queue(Now(left, clock(0)), told, Raised, a, clock(0).wall, clock)
    else Queue(Now(o, clock(0)), told, Raised, a, clock(0).wall, clock)
  }

  // ---- delivering --------------------------------------------------------------------------------

  function Doubled(n: nat): nat { if n == 0 then 1 else 2 * Doubled(n - 1) }

  /** 5 s after the first attempt, twice as long after each, and no more than 5 min. */
  function RetryDelay(attempts: int): int {
    var ms := FIRST_RETRY_MS * Doubled(if attempts - 1 > 0 then attempts - 1 else 0);
    if ms < MAX_RETRY_MS then ms else MAX_RETRY_MS
  }

  lemma {:induction false} DoubledGrows(m: nat, n: nat)
    requires m <= n
    ensures 1 <= Doubled(m) <= Doubled(n)
  {
    if n > 0 { DoubledGrows(if m > 0 then m - 1 else 0, n - 1); }
  }

  /** Delays never shrink, start at 5 s, and reach 5 min with the seventh attempt. */
  lemma RetryDelays(m: int, n: int)
    requires m <= n
    ensures FIRST_RETRY_MS <= RetryDelay(m) <= RetryDelay(n) <= MAX_RETRY_MS
    ensures RetryDelay(n) == MAX_RETRY_MS <==> n >= 7
    ensures 1 <= n < 6 ==> RetryDelay(n + 1) == 2 * RetryDelay(n)
  {
    DoubledGrows(if m > 1 then m - 1 else 0, if n > 1 then n - 1 else 0);
    assert Doubled(5) == 32 && Doubled(6) == 64;
    if n >= 7 { DoubledGrows(6, n - 1); } else { DoubledGrows(if n > 1 then n - 1 else 0, 5); }
  }

  datatype Outcome = Delivered | Refused | Aborted

  /** The start of sendNext: the row to deliver, if one is due. */
  function BeginSend(o: Outbox, webhook: nat, r: Reading): (b: (Outbox, Option<nat>))
    ensures b.1.Some? ==> b.1.value < |b.0.log|
  {
    var n := Now(o, r);
    var h := HeadOf(n.log, webhook);
    if h.None? then (n, None)
    else
      var row := n.log[h.value];
      if row.nextAt - r.wall > MAX_RETRY_MS then (n.(log := SetNextAt(n.log, row.id, r.wall + MAX_RETRY_MS)), None)
      else if row.nextAt > r.wall then (n, None)
      else (n, h)
  }

  /** The creation time of the row with this id, as last shifted. */
  function CreatedAtOf(log: Log, id: nat): Option<int> {
    if log == [] then None
    else
      var last := log[|log| - 1];
      if Stored(last) && last.id == id then Some(last.createdAt) else CreatedAtOf(log[..|log| - 1], id)
  }

  /** The end of sendNext, for the row as it was read when the attempt started. */
  function EndSend(o: Outbox, row: Row, outcome: Outcome, r: Reading): Outbox {
    match outcome
    case Aborted => o
    case Delivered =>
      var n := Now(o, r);
      n.(log := MarkSent(n.log, row.id, r.wall))
    case Refused =>
      var n := Now(o, r);
      var created := CreatedAtOf(n.log, row.id);
      if r.wall - (if created.Some? then created.value else row.createdAt) >= GIVE_UP_AFTER_MS
      then n.(log := MarkGivenUp(n.log, row.id, r.wall))
      else n.(log := MarkAttemptFailed(n.log, row.id, r.wall + RetryDelay(row.attempts + 1)))
  }

  // ---- the notifier ------------------------------------------------------------------------------

  class Notifier {
    const hooks: seq<Webhook>
    var log: Log
    var lastWall: int
    var lastMono: int
    /** Only measured: what the jumps too small to follow add up to. */
    var ignored: int

    ghost function Snapshot(): Outbox
      reads this
    {
      Outbox(log, Clock(lastWall, lastMono, ignored))
    }

    constructor (hooks: seq<Webhook>, log: Log, r: Reading)
      ensures this.hooks == hooks && Snapshot() == Outbox(log, Clock(r.wall, r.mono, 0))
    {
      this.hooks, this.log, lastWall, lastMono, ignored := hooks, log, r.wall, r.mono, 0;
    }

    method ReadClock(r: Reading) returns (wall: int)
      modifies this
      ensures wall == r.wall && Snapshot() == Now(old(Snapshot()), r)
    {
      var jump := r.wall - lastWall - (r.mono - lastMono);
      lastWall, lastMono := r.wall, r.mono;
      if IsJump(jump) {
        log := ShiftPending(log, jump);
      } else {
        ignored := ignored + jump;
      }
      wall := r.wall;
    }

    method QueueFor(event: Event, a: Alert, nextAt: int, clock: nat -> Reading)
      modifies this
      ensures Snapshot() == Queue(old(Snapshot()), hooks, event, a, nextAt, clock)
    {
      assert hooks[..0] == [];
      for i := 0 to |hooks|
        invariant Snapshot() == Queue(old(Snapshot()), hooks[..i], event, a, nextAt, clock)
      {
        assert hooks[..i + 1][..i] == hooks[..i];
        if event !in hooks[i].events || Rank(a.severity) < Rank(hooks[i].minSeverity) { continue; }
        var createdAt := ReadClock(clock(i + 1));
        log := log + [Row(NextId(log), hooks[i].id, a.id, event, a.watch, Pending, false, 0, nextAt, createdAt,
            lastMono, ignored)];
      }
      assert hooks[..|hooks|] == hooks;
    }

    method EnqueueCleared(a: Alert, clock: nat -> Reading)
      modifies this
      ensures Snapshot() == OnCleared(old(Snapshot()), hooks, a, clock)
    {
      if |hooks| == 0 || a.clearedBy.RuleRemoved? { return; }
      var t := ReadClock(clock(0));
      QueueFor(Cleared, a, t + (if a.clearedBy.RuleChanged? then CHANGED_CLEAR_DELAY_MS else 0), clock);
    }

    method EnqueueRaised(alerts: seq<Alert>, a: Alert, clock: nat -> Reading)
      modifies this
      ensures Snapshot() == OnRaised(old(Snapshot()), hooks, alerts, a, clock)
    {
      if |hooks| == 0 { return; }
      var previous := ClosedByEdit(alerts, a);
      if previous.Some? {
        log := DeletePendingClears(log, previous.value.id, Reached(hooks, a.severity));
        if previous.value.severity == a.severity && previous.value.message == a.message { return; }
      }
      var t := ReadClock(clock(0));
      QueueFor(Raised, a, t, clock);
    }

    /** sendNext up to the delivery: the row to deliver, if the oldest pending one is due. */
    method StartDelivery(webhook: nat, r: Reading) returns (head: Option<nat>)
      modifies this
      ensures (Snapshot(), head) == BeginSend(old(Snapshot()), webhook, r)
    {
      var t := ReadClock(r);
      head := HeadOf(log, webhook);
      if head.None? { return; }
      var row := log[head.value];
      if row.nextAt - t > MAX_RETRY_MS {
        log := SetNextAt(log, row.id, t + MAX_RETRY_MS);
        return None;
      }
      if row.nextAt > t { return None; }
    }

    /** sendNext after the delivery. */
    method EndDelivery(row: Row, outcome: Outcome, r: Reading)
      modifies this
      ensures Snapshot() == EndSend(old(Snapshot()), row, outcome, r)
    {
      if outcome.Aborted? { return; }
      var at := ReadClock(r);
      if outcome.Delivered? {
        log := MarkSent(log, row.id, at);
        return;
      }
      var created := CreatedAtOf(log, row.id);
      var createdAt := if created.Some? then created.value else row.createdAt;
      if at - createdAt >= GIVE_UP_AFTER_MS {
        log := MarkGivenUp(log, row.id, at);
      } else {
        log := MarkAttemptFailed(log, row.id, at + RetryDelay(row.attempts + 1));
      }
    }
  }
}
