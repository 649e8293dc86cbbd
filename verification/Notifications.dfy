/**
 The alert engine's checks (packages/alerts/src/engine.ts), the outbox they fill, and the delivery
 lanes that empty it (packages/notify/src/sender.ts), as one machine. Queueing wakes the lanes at
 once, so clock reads, prunes and the starts of deliveries happen inside a check as well as between
 checks; a check is synchronous, so a delivery only ends between them. The process may stop or die
 between any two statements. A lane has at most one delivery in flight.
 */
module Notifications {
  import opened Results
  import opened Outbox

  /** A delivery under way: where its row is in the log, and the row as it was read. */
  datatype Flight = Flight(at: nat, row: Row)

  /**
   `hooks` are the webhooks configured now. `t` is the time of the last check; while `checking`, `closed` says
   which watches it closed alerts of, `decided` which it has evaluated, and `mark` where the log ended when it began.
   */
  datatype World = World(hooks: seq<Webhook>, o: Outbox, alerts: seq<Alert>, t: int, checking: bool, mark: nat,
                         closed: map<Watch, Reason>, decided: set<Watch>, flight: map<nat, Flight>)

  datatype Step =
    | BeginCheck(t: int)
    | Close(watch: Watch, reason: Reason, clock: nat -> Reading)
    | Raise(watch: Watch, severity: Severity, message: nat, clock: nat -> Reading)
    | Clear(watch: Watch, clock: nat -> Reading)
    | EndCheck
    | Start(webhook: nat, r: Reading)
    | Finish(webhook: nat, outcome: Outcome, r: Reading)
    | Tick(r: Reading)
    | Prune(before: int)
    | Restart(hooks: seq<Webhook>, r: Reading)
    | Crash(during: Step, told: Option<nat>, hooks: seq<Webhook>, r: Reading)

  /** Webhook ids are distinct. */
  predicate ValidHooks(hooks: seq<Webhook>) {
    forall i, j :: 0 <= i < j < |hooks| ==> hooks[i].id != hooks[j].id
  }

  /** The watch's open alert: there is at most one. */
  function OpenFor(alerts: seq<Alert>, watch: Watch): (a: Option<nat>)
    ensures a.Some? ==> a.value < |alerts| && alerts[a.value].watch == watch && alerts[a.value].clearedAt.None?
    ensures a.None? ==> forall i :: 0 <= i < |alerts| && alerts[i].watch == watch ==> alerts[i].clearedAt.Some?
  {
    if alerts == [] then None
    else
      var n := |alerts| - 1;
      assert forall i :: 0 <= i < n ==> alerts[i] == alerts[..n][i];
      if alerts[n].watch == watch && alerts[n].clearedAt.None? then Some(n) else OpenFor(alerts[..n], watch)
  }

  /** Check times increase; each watch is closed at most once and evaluated at most once a check. */
  predicate Enabled(w: World, s: Step) {
    match s
    case BeginCheck(t) => !w.checking && t > w.t
    case Close(_, _, _) => Decides(w, s)
    case Raise(_, _, _, _) => Decides(w, s)
    case Clear(_, _) => Decides(w, s)
    case EndCheck => w.checking
    case Start(webhook, _) => webhook !in w.flight
    case Finish(webhook, _, _) => !w.checking && webhook in w.flight
    case Tick(_) => true
    case Prune(_) => true
    case Restart(hooks, _) => ValidHooks(hooks)
    case Crash(during, told, hooks, _) =>
      Decides(w, during) && (told.Some? ==> told.value <= |w.hooks|) && ValidHooks(hooks)
  }

  /** The check may write an alert row: to close one after an edit, to raise or to clear one. */
  predicate Decides(w: World, s: Step) {
    match s
    case Close(watch, reason, _) =>
      w.checking && w.decided == {} && watch !in w.closed && !reason.Condition? && OpenFor(w.alerts, watch).Some?
    case Raise(watch, _, _, _) =>
      && w.checking && watch !in w.decided && OpenFor(w.alerts, watch).None?
      && !(watch in w.closed && w.closed[watch].RuleRemoved?)
    case Clear(watch, _) => w.checking && watch !in w.decided && OpenFor(w.alerts, watch).Some?
    case _ => false
  }

  /** The time of a clear: a clock that stepped back must not put it before the raise. */
  function ClearedAlert(a: Alert, t: int, reason: Reason): Alert {
    a.(clearedAt := Some(if t >= a.raisedAt then t else a.raisedAt), clearedBy := reason)
  }

  function AfterClear(w: World, i: nat, reason: Reason, clock: nat -> Reading): World
    requires i < |w.alerts|
  {
    var a := ClearedAlert(w.alerts[i], w.t, reason);
    w.(alerts := w.alerts[i := a], o := OnCleared(w.o, w.hooks, a, clock))
  }

  function Ids(hooks: seq<Webhook>): set<nat> { set h | h in hooks :: h.id }

  /** A new run measures the age of what is pending from what its times say now. */
  function RebasedRow(row: Row, r: Reading): Row { row.(born := r.mono - (r.wall - row.createdAt), skipped := 0) }

  function Rebased(log: Log, r: Reading): Log { Each(log, row => RebasedRow(row, r)) }

  /** The server after a stop or a death, with the webhooks it then has. */
  function Restarted(w: World, hooks: seq<Webhook>, r: Reading): World {
    w.(hooks := hooks,
       o := Outbox(FailRemovedWebhooks(Rebased(w.o.log, r), Ids(hooks), r.wall), Clock(r.wall, r.mono, 0)),
       checking := false, flight := map[])
  }

  /**
   An alert row has been written, and of its notifications as much as `told` says: nothing, or, after the clears that
   a raise withdraws, the rows of that many webhooks.
   */
  function Partly(w: World, s: Step, told: Option<nat>): World
    requires Decides(w, s) && (told.Some? ==> told.value <= |w.hooks|)
  {
    match s
    case Close(watch, reason, clock) =>
      PartlyCleared(w, OpenFor(w.alerts, watch).value, reason, told, clock).(closed := w.closed[watch := reason])
    case Clear(watch, clock) => PartlyCleared(w, OpenFor(w.alerts, watch).value, Condition, told, clock)
    case Raise(_, _, _, clock) =>
      var a := Raising(w, s);
      w.(alerts := w.alerts + [a],
         o := if told.None? then w.o else ToldRaised(w.o, w.hooks, w.hooks[..told.value], w.alerts + [a], a, clock))
  }

  /** The alert that a raise writes. */
  function Raising(w: World, s: Step): Alert
    requires s.Raise?
  {
    Alert(|w.alerts|, s.watch, s.severity, s.message, w.t, None, Condition)
  }

  function PartlyCleared(w: World, i: nat, reason: Reason, told: Option<nat>, clock: nat -> Reading): World
    requires i < |w.alerts| && (told.Some? ==> told.value <= |w.hooks|)
  {
    var a := ClearedAlert(w.alerts[i], w.t, reason);
    w.(alerts := w.alerts[i := a],
       o := if told.None? then w.o else ToldCleared(w.o, w.hooks, w.hooks[..told.value], a, clock))
  }

  function Next(w: World, s: Step): World
    requires Enabled(w, s)
  {
    match s
    case BeginCheck(t) => w.(t := t, checking := true, mark := |w.o.log|, closed := map[], decided := {})
    case Close(watch, reason, clock) =>
      AfterClear(w, OpenFor(w.alerts, watch).value, reason, clock).(closed := w.closed[watch := reason])
    case Raise(watch, severity, message, clock) =>
      var a := Alert(|w.alerts|, watch, severity, message, w.t, None, Condition);
      w.(alerts := w.alerts + [a], o := OnRaised(w.o, w.hooks, w.alerts + [a], a, clock),
          decided := w.decided + {watch})
    case Clear(watch, clock) =>
      AfterClear(w, OpenFor(w.alerts, watch).value, Condition, clock).(decided := w.decided + {watch})
    case EndCheck => w.(checking := false)
    case Start(webhook, r) =>
      var begun := BeginSend(w.o, webhook, r);
      w.(o := begun.0,
          flight := if begun.1.Some? then w.flight[webhook := Flight(begun.1.value, begun.0.log[begun.1.value])]
              else w.flight)
    case Finish(webhook, outcome, r) =>
      w.(o := EndSend(w.o, w.flight[webhook].row, outcome, r), flight := w.flight - {webhook})
    case Tick(r) => w.(o := Now(w.o, r))
    case Prune(before) => w.(o := w.o.(log := PruneNotifications(w.o.log, before)))
    case Restart(hooks, r) => Restarted(w, hooks, r)
    case Crash(during, told, hooks, r) => Restarted(Partly(w, during, told), hooks, r)
  }

  predicate Runs(w: World, steps: seq<Step>)
    decreases |steps|
  {
    steps == [] || (Enabled(w, steps[0]) && Runs(Next(w, steps[0]), steps[1..]))
  }

  function Play(w: World, steps: seq<Step>): World
    requires Runs(w, steps)
    decreases |steps|
  {
    if steps == [] then w else Play(Next(w, steps[0]), steps[1..])
  }

  /** A run goes on by one step. */
  lemma {:induction false} RunsOn(w: World, steps: seq<Step>, s: Step)
    requires Runs(w, steps) && Enabled(Play(w, steps), s)
    ensures Runs(w, steps + [s]) && Play(w, steps + [s]) == Next(Play(w, steps), s)
    decreases |steps|
  {
    if steps == [] {
      assert (steps + [s])[0] == s && (steps + [s])[1..] == [];
    } else {
      assert (steps + [s])[1..] == steps[1..] + [s];
      RunsOn(Next(w, steps[0]), steps[1..], s);
    }
  }

  /** A clock that is read the same every time. */
  function Always(r: Reading): nat -> Reading { (n: nat) => r }

  /** Nothing raised, nothing queued. */
  function Fresh(t: int, r: Reading, hooks: seq<Webhook>): World {
    World(hooks, Outbox([], Clock(r.wall, r.mono, 0)), [], t, false, 0, map[], {}, map[])
  }

  // ---- what queueing does to the log ---------------------------------------------------------------

  /** Everything about the row but its times is the same. */
  predicate Same(r: Row, s: Row) {
    r.id == s.id && r.webhook == s.webhook && r.alert == s.alert && r.event == s.event && r.watch == s.watch
    && r.status == s.status && r.pruned == s.pruned && r.attempts == s.attempts
  }

  predicate IsFor(r: Row, event: Event, a: Alert) {
    r.event == event && r.alert == a.id && r.watch == a.watch && r.status.Pending? && !r.pruned
  }

  /** The old rows stay; the new ones tell the webhooks that want it, and only those, of the event. */
  ghost predicate Queued(log: Log, p: Log, hooks: seq<Webhook>, event: Event, a: Alert) {
    && |p| >= |log| && (forall i :: 0 <= i < |log| ==> Same(log[i], p[i]))
    && (forall i :: |log| <= i < |p| ==> IsFor(p[i], event, a) && Told(hooks, p[i].webhook, event, a.severity))
    && (forall h :: h in hooks && Wants(h, event, a.severity) ==> exists i :: |log| <= i < |p| && p[i].webhook == h.id)
    && (forall i, j :: |log| <= i < j < |p| ==> p[i].webhook != p[j].webhook)
  }

  ghost predicate Told(hooks: seq<Webhook>, id: nat, event: Event, s: Severity) {
    exists h :: h in hooks && h.id == id && Wants(h, event, s)
  }

  lemma NowIsSame(o: Outbox, r: Reading)
    ensures var p := Now(o, r).log; |p| == |o.log| && forall i :: 0 <= i < |p| ==> Same(o.log[i], p[i])
  {
  }

  lemma {:induction false} QueueIs(o: Outbox, hooks: seq<Webhook>, event: Event, a: Alert, nextAt: int,
                                   clock: nat -> Reading)
    requires ValidHooks(hooks)
    ensures Queued(o.log, Queue(o, hooks, event, a, nextAt, clock).log, hooks, event, a)
    decreases |hooks|
  {
    if hooks != [] {
      var n := |hooks| - 1;
      var rest := Queue(o, hooks[..n], event, a, nextAt, clock);
      QueueIs(o, hooks[..n], event, a, nextAt, clock);
      QueueOne(o.log, rest, hooks, event, a, nextAt, clock(n + 1));
    }
  }

  lemma ToldMore(hooks: seq<Webhook>, id: nat, event: Event, s: Severity)
    requires |hooks| > 0 && Told(hooks[..|hooks| - 1], id, event, s)
    ensures Told(hooks, id, event, s)
  {
    var h :| h in hooks[..|hooks| - 1] && h.id == id && Wants(h, event, s);
    assert h in hooks;
  }

  lemma NotTheLast(hooks: seq<Webhook>, id: nat, event: Event, s: Severity)
    requires |hooks| > 0 && ValidHooks(hooks) && Told(hooks[..|hooks| - 1], id, event, s)
    ensures id != hooks[|hooks| - 1].id
  {
  }

  lemma MoreHooks(log: Log, p: Log, hooks: seq<Webhook>, event: Event, a: Alert)
    requires |hooks| > 0 && Queued(log, p, hooks[..|hooks| - 1], event, a)
             && !Wants(hooks[|hooks| - 1], event, a.severity)
    ensures Queued(log, p, hooks, event, a)
  {
    var n := |hooks| - 1;
    forall i | |log| <= i < |p|
      ensures Told(hooks, p[i].webhook, event, a.severity)
    {
      assert IsFor(p[i], event, a);
      ToldMore(hooks, p[i].webhook, event, a.severity);
    }
    forall h | h in hooks && Wants(h, event, a.severity)
      ensures exists i :: |log| <= i < |p| && p[i].webhook == h.id
    {
      assert h in hooks[..n];
    }
  }

  /** One more row, for the last webhook. */
  lemma OneMoreRow(log: Log, m: Log, p: Log, row: Row, hooks: seq<Webhook>, event: Event, a: Alert)
    requires |hooks| > 0 && Queued(log, m, hooks[..|hooks| - 1], event, a)
             && Wants(hooks[|hooks| - 1], event, a.severity)
    requires |p| == |m| + 1 && (forall i :: 0 <= i < |m| ==> Same(m[i], p[i])) && p[|m|] == row
    requires IsFor(row, event, a) && row.webhook == hooks[|hooks| - 1].id && ValidHooks(hooks)
    ensures Queued(log, p, hooks, event, a)
  {
    var n := |hooks| - 1;
    forall i | |log| <= i < |p|
      ensures IsFor(p[i], event, a) && Told(hooks, p[i].webhook, event, a.severity)
              && (i < |m| ==> p[i].webhook != row.webhook)
    {
      if i < |m| {
        assert IsFor(m[i], event, a) && Same(m[i], p[i]);
        ToldMore(hooks, m[i].webhook, event, a.severity);
        NotTheLast(hooks, m[i].webhook, event, a.severity);
      } else {
        assert hooks[n] in hooks;
      }
    }
    forall i | 0 <= i < |log|
      ensures Same(log[i], p[i])
    {
      assert Same(log[i], m[i]) && Same(m[i], p[i]);
    }
    forall h | h in hooks && Wants(h, event, a.severity)
      ensures exists i :: |log| <= i < |p| && p[i].webhook == h.id
    {
      if h in hooks[..n] {
        var i :| |log| <= i < |m| && m[i].webhook == h.id;
        assert Same(m[i], p[i]);
      } else {
        assert p[|m|].webhook == h.id;
      }
    }
  }

  lemma QueueOne(log: Log, o: Outbox, hooks: seq<Webhook>, event: Event, a: Alert, nextAt: int, r: Reading)
    requires |hooks| > 0 && ValidHooks(hooks) && Queued(log, o.log, hooks[..|hooks| - 1], event, a)
    ensures var h := hooks[|hooks| - 1];
            Queued(log, if Wants(h, event, a.severity) then Insert(o, h, event, a, nextAt, r).log else o.log,
                   hooks, event, a)
  {
    var h := hooks[|hooks| - 1];
    if Wants(h, event, a.severity) {
      NowIsSame(o, r);
      var p := Insert(o, h, event, a, nextAt, r).log;
      OneMoreRow(log, o.log, p, p[|o.log|], hooks, event, a);
    } else {
      MoreHooks(log, o.log, hooks, event, a);
    }
  }

  lemma SameThenQueued(log: Log, m: Log, p: Log, hooks: seq<Webhook>, event: Event, a: Alert)
    requires |m| == |log| && (forall i :: 0 <= i < |m| ==> Same(log[i], m[i])) && Queued(m, p, hooks, event, a)
    ensures Queued(log, p, hooks, event, a)
  {
    forall i | 0 <= i < |log|
      ensures Same(log[i], p[i])
    {
      assert Same(log[i], m[i]) && Same(m[i], p[i]);
    }
  }

  /** Reading the clock and queueing. */
  lemma NowThenQueue(o: Outbox, hooks: seq<Webhook>, event: Event, a: Alert, nextAt: int, clock: nat -> Reading)
    requires ValidHooks(hooks)
    ensures Queued(o.log, Queue(Now(o, clock(0)), hooks, event, a, nextAt, clock).log, hooks, event, a)
  {
    NowIsSame(o, clock(0));
    QueueIs(Now(o, clock(0)), hooks, event, a, nextAt, clock);
    SameThenQueued(o.log, Now(o, clock(0)).log, Queue(Now(o, clock(0)), hooks, event, a, nextAt, clock).log, hooks,
        event, a);
  }

  lemma ClearedIs(o: Outbox, hooks: seq<Webhook>, a: Alert, clock: nat -> Reading)
    requires ValidHooks(hooks)
    ensures var p := OnCleared(o, hooks, a, clock).log;
            if a.clearedBy.RuleRemoved? then p == o.log else Queued(o.log, p, hooks, Cleared, a)
  {
    ToldClearedIs(o, hooks, hooks, a, clock);
  }

  lemma ToldClearedIs(o: Outbox, hooks: seq<Webhook>, told: seq<Webhook>, a: Alert, clock: nat -> Reading)
    requires ValidHooks(told) && (hooks == [] ==> told == [])
    ensures var p := ToldCleared(o, hooks, told, a, clock).log;
            if a.clearedBy.RuleRemoved? then p == o.log else Queued(o.log, p, told, Cleared, a)
  {
    if hooks != [] && !a.clearedBy.RuleRemoved? {
      NowThenQueue(o, told, Cleared, a,
                   clock(0).wall + (if a.clearedBy.RuleChanged? then CHANGED_CLEAR_DELAY_MS else 0), clock);
    }
  }

  /** What stays after the withdrawals of a raise. */
  function LeftByRaise(log: Log, hooks: seq<Webhook>, alerts: seq<Alert>, a: Alert): Log {
    var p := ClosedByEdit(alerts, a);
    if p.Some? then DeletePendingClears(log, p.value.id, Reached(hooks, a.severity)) else log
  }

  /** A reopened alert that says the same is not raised again. */
  predicate Reopens(alerts: seq<Alert>, a: Alert) {
    var p := ClosedByEdit(alerts, a);
    p.Some? && p.value.severity == a.severity && p.value.message == a.message
  }

  lemma RaisedIs(o: Outbox, hooks: seq<Webhook>, alerts: seq<Alert>, a: Alert, clock: nat -> Reading)
    requires ValidHooks(hooks) && |hooks| > 0
    ensures var p, left := OnRaised(o, hooks, alerts, a, clock).log, LeftByRaise(o.log, hooks, alerts, a);
            if Reopens(alerts, a) then p == left else Queued(left, p, hooks, Raised, a)
  {
    ToldRaisedIs(o, hooks, hooks, alerts, a, clock);
  }

  lemma ToldRaisedIs(o: Outbox, hooks: seq<Webhook>, told: seq<Webhook>, alerts: seq<Alert>, a: Alert,
                     clock: nat -> Reading)
    requires ValidHooks(told) && |hooks| > 0
    ensures var p, left := ToldRaised(o, hooks, told, alerts, a, clock).log, LeftByRaise(o.log, hooks, alerts, a);
            if Reopens(alerts, a) then p == left else Queued(left, p, told, Raised, a)
  {
    if !Reopens(alerts, a) {
      NowThenQueue(o.(log := LeftByRaise(o.log, hooks, alerts, a)), told, Raised, a, clock(0).wall, clock);
    }
  }
}
