/** What every step of the notification machine keeps: true ages, and rows that are over. */
module NotifyTable {
  import opened Results
  import opened Outbox
  import opened Notifications
  import opened NotifySense

  // ---- the table -------------------------------------------------------------------------------------

  predicate IdsGrow(log: Log) {
    forall i, j :: 0 <= i < j < |log| && Stored(log[i]) && Stored(log[j]) ==> log[i].id < log[j].id
  }

  /** On the wall clock a pending row is as old as on the monotonic clock, but for the jumps ignored since. */
  predicate Aged(c: Clock, r: Row) {
    r.status.Pending? ==> !r.pruned && c.wall - r.createdAt == c.mono - r.born + (c.ignored - r.skipped)
  }

  predicate AllAged(o: Outbox) { forall i :: 0 <= i < |o.log| ==> Aged(o.clock, o.log[i]) }

  predicate TableOk(o: Outbox) { IdsGrow(o.log) && AllAged(o) }

  lemma NowOk(o: Outbox, r: Reading)
    requires TableOk(o)
    ensures TableOk(Now(o, r)) && Now(o, r).clock.wall == r.wall && Now(o, r).clock.mono == r.mono
  {
    var p := Now(o, r);
    forall i | 0 <= i < |p.log|
      ensures Aged(p.clock, p.log[i])
    {
      assert Aged(o.clock, o.log[i]);
    }
    forall i, j | 0 <= i < j < |p.log| && Stored(p.log[i]) && Stored(p.log[j])
      ensures p.log[i].id < p.log[j].id
    {
      assert Stored(o.log[i]) && Stored(o.log[j]);
    }
  }

  lemma InsertOk(o: Outbox, h: Webhook, event: Event, a: Alert, nextAt: int, r: Reading)
    requires TableOk(o)
    ensures TableOk(Insert(o, h, event, a, nextAt, r))
  {
    NowOk(o, r);
    var n, p := Now(o, r), Insert(o, h, event, a, nextAt, r);
    forall i | 0 <= i < |p.log|
      ensures Aged(p.clock, p.log[i])
    {
      assert i < |n.log| ==> Aged(n.clock, n.log[i]);
    }
  }

  lemma {:induction false} QueueOk(o: Outbox, hooks: seq<Webhook>, event: Event, a: Alert, nextAt: int,
                                   clock: nat -> Reading)
    requires TableOk(o)
    ensures TableOk(Queue(o, hooks, event, a, nextAt, clock))
    decreases |hooks|
  {
    if hooks != [] {
      var n := |hooks| - 1;
      QueueOk(o, hooks[..n], event, a, nextAt, clock);
      InsertOk(Queue(o, hooks[..n], event, a, nextAt, clock), hooks[n], event, a, nextAt, clock(n + 1));
    }
  }

  lemma WithdrawOk(o: Outbox, alert: nat, ids: set<nat>)
    requires TableOk(o)
    ensures TableOk(o.(log := DeletePendingClears(o.log, alert, ids)))
  {
    var p := o.(log := DeletePendingClears(o.log, alert, ids));
    forall i | 0 <= i < |p.log|
      ensures Aged(p.clock, p.log[i])
    {
      assert Aged(o.clock, o.log[i]);
    }
  }

  lemma RaisedOk(o: Outbox, hooks: seq<Webhook>, told: seq<Webhook>, alerts: seq<Alert>, a: Alert,
                 clock: nat -> Reading)
    requires TableOk(o)
    ensures TableOk(ToldRaised(o, hooks, told, alerts, a, clock))
  {
    var left := o.(log := LeftByRaise(o.log, hooks, alerts, a));
    var p := ClosedByEdit(alerts, a);
    if p.Some? { WithdrawOk(o, p.value.id, Reached(hooks, a.severity)); }
    NowOk(left, clock(0));
    QueueOk(Now(left, clock(0)), told, Raised, a, clock(0).wall, clock);
  }

  lemma ClearedOk(o: Outbox, hooks: seq<Webhook>, told: seq<Webhook>, a: Alert, clock: nat -> Reading)
    requires TableOk(o)
    ensures TableOk(ToldCleared(o, hooks, told, a, clock))
  {
    var delay := if a.clearedBy.RuleChanged? then CHANGED_CLEAR_DELAY_MS else 0;
    NowOk(o, clock(0));
    QueueOk(Now(o, clock(0)), told, Cleared, a, clock(0).wall + delay, clock);
  }

  /** The rows keep their ids and times, but for the next attempt of those that wait. */
  ghost predicate KeepsTimes(log: Log, p: Log) {
    |p| == |log| && forall i :: 0 <= i < |log| ==>
      && log[i].id == p[i].id && (Stored(p[i]) ==> Stored(log[i]))
      && (p[i].status.Pending? ==> log[i].status.Pending? && p[i].pruned == log[i].pruned)
      && log[i].createdAt == p[i].createdAt && log[i].born == p[i].born && log[i].skipped == p[i].skipped
  }

  lemma TimesKept(o: Outbox, p: Log)
    requires TableOk(o) && KeepsTimes(o.log, p)
    ensures TableOk(o.(log := p))
  {
    forall i | 0 <= i < |p|
      ensures Aged(o.clock, p[i])
    {
      assert Aged(o.clock, o.log[i]);
    }
  }

  lemma BeginSendOk(o: Outbox, webhook: nat, r: Reading)
    requires TableOk(o)
    ensures TableOk(BeginSend(o, webhook, r).0)
  {
    NowOk(o, r);
    TimesKept(Now(o, r), BeginSend(o, webhook, r).0.log);
  }

  lemma EndSendOk(o: Outbox, row: Row, outcome: Outcome, r: Reading)
    requires TableOk(o)
    ensures TableOk(EndSend(o, row, outcome, r))
  {
    NowOk(o, r);
    if !outcome.Aborted? {
      EndKeepsTimes(Now(o, r).log, EndSend(o, row, outcome, r).log, row.id);
      TimesKept(Now(o, r), EndSend(o, row, outcome, r).log);
    }
  }

  /** The statements at the end of an attempt change only what became of the row. */
  lemma EndKeepsTimes(log: Log, p: Log, id: nat)
    requires (exists at :: p == MarkSent(log, id, at)) || (exists at :: p == MarkGivenUp(log, id, at))
             || (exists at :: p == MarkAttemptFailed(log, id, at))
    ensures KeepsTimes(log, p)
  {
  }

  lemma RestartOk(w: World, hooks: seq<Webhook>, r: Reading)
    requires TableOk(w.o)
    ensures TableOk(Restarted(w, hooks, r).o)
  {
    var v := Restarted(w, hooks, r);
    forall i | 0 <= i < |v.o.log|
      ensures Aged(v.o.clock, v.o.log[i])
    {
      assert Aged(w.o.clock, w.o.log[i]);
    }
  }

  lemma PartlyOk(w: World, s: Step, told: Option<nat>)
    requires TableOk(w.o) && Decides(w, s) && (told.Some? ==> told.value <= |w.hooks|)
    ensures TableOk(Partly(w, s, told).o)
  {
    var u := Partly(w, s, told);
    if told.Some? {
      var firsts := w.hooks[..told.value];
      if s.Raise? {
        RaisedOk(w.o, w.hooks, firsts, u.alerts, Raising(w, s), s.clock);
      } else {
        ClearedOk(w.o, w.hooks, firsts, u.alerts[Clearing(w, s).0], s.clock);
      }
    }
  }

  lemma CrashOk(w: World, s: Step)
    requires TableOk(w.o) && s.Crash? && Enabled(w, s)
    ensures TableOk(Next(w, s).o)
  {
    PartlyOk(w, s.during, s.told);
    RestartOk(Partly(w, s.during, s.told), s.hooks, s.r);
  }

  /** Whatever happens, the table stays in order of id and its rows keep their true age. */
  lemma StepTable(w: World, s: Step)
    requires TableOk(w.o) && Enabled(w, s)
    ensures TableOk(Next(w, s).o)
  {
    match s
    case BeginCheck(_) =>
    case EndCheck =>
    case Close(_, _, clock) => ClearedOk(w.o, w.hooks, w.hooks, AlertCleared(w, s), clock);
    case Clear(_, clock) => ClearedOk(w.o, w.hooks, w.hooks, AlertCleared(w, s), clock);
    case Raise(_, _, _, clock) =>
      var v := Next(w, s);
      RaisedOk(w.o, w.hooks, w.hooks, v.alerts, v.alerts[|w.alerts|], clock);
    case Start(webhook, r) => BeginSendOk(w.o, webhook, r);
    case Finish(webhook, outcome, r) => EndSendOk(w.o, w.flight[webhook].row, outcome, r);
    case Tick(r) => NowOk(w.o, r);
    case Prune(before) => TimesKept(w.o, PruneNotifications(w.o.log, before));
    case Restart(hooks, r) => RestartOk(w, hooks, r);
    case Crash(_, _, _, _) => CrashOk(w, s);
  }

  /** The alert as the step clears it. */
  function AlertCleared(w: World, s: Step): Alert
    requires Enabled(w, s) && (s.Close? || s.Clear?)
  {
    ClearedAlert(w.alerts[Clearing(w, s).0], w.t, Clearing(w, s).1)
  }

  lemma {:induction false} PlayTable(w: World, steps: seq<Step>)
    requires TableOk(w.o) && Runs(w, steps)
    ensures TableOk(Play(w, steps).o)
    decreases |steps|
  {
    if steps != [] {
      StepTable(w, steps[0]);
      PlayTable(Next(w, steps[0]), steps[1..]);
    }
  }

  /** True age: a pending row's wall-clock age is its age in this run plus the jumps ignored since. */
  lemma TrueAge(t: int, r: Reading, hooks: seq<Webhook>, steps: seq<Step>, i: nat)
    requires Runs(Fresh(t, r, hooks), steps)
    ensures var o := Play(Fresh(t, r, hooks), steps).o;
            i < |o.log| && o.log[i].status.Pending? ==>
              o.clock.wall - o.log[i].createdAt == (o.clock.mono - o.log[i].born) + (o.clock.ignored - o.log[i].skipped)
  {
    PlayTable(Fresh(t, r, hooks), steps);
    var o := Play(Fresh(t, r, hooks), steps).o;
    if i < |o.log| { assert Aged(o.clock, o.log[i]); }
  }

  /**
   Only jumps of less than a minute are ignored: at any other, either way, each row that waits keeps its age and the
   time left to its next attempt but for what passed on the monotonic clock.
   */
  lemma JumpsAreFollowed(o: Outbox, r: Reading, i: nat)
    requires i < |o.log|
    ensures var n := Now(o, r); var passed := r.mono - o.clock.mono;
            && |n.log| == |o.log| && -60_000 < n.clock.ignored - o.clock.ignored < 60_000
            && (-60_000 < r.wall - o.clock.wall - passed < 60_000 ==> n.log == o.log)
            && (IsPending(o.log[i]) && n.clock.ignored == o.clock.ignored ==>
                  && r.wall - n.log[i].createdAt == o.clock.wall - o.log[i].createdAt + passed
                  && n.log[i].nextAt - r.wall == o.log[i].nextAt - o.clock.wall - passed)
  {
  }

  // ---- done for good -------------------------------------------------------------------------------------

  predicate Done(r: Row) { r.status.Sent? || r.status.Failed? }

  /** A row that was sent or failed is one of the two, and a withdrawn row stays so. */
  predicate StaysOver(r: Row, s: Row) {
    (Done(r) ==> Done(s)) && (r.status.Withdrawn? ==> s.status.Withdrawn?)
  }

  ghost predicate AllStayOver(log: Log, p: Log) {
    |p| >= |log| && forall i :: 0 <= i < |log| ==> StaysOver(log[i], p[i])
  }

  lemma QueuedStaysOver(log: Log, p: Log, hooks: seq<Webhook>, event: Event, a: Alert)
    requires Queued(log, p, hooks, event, a)
    ensures AllStayOver(log, p)
  {
    forall i | 0 <= i < |log|
      ensures StaysOver(log[i], p[i])
    {
      assert Same(log[i], p[i]);
    }
  }

  lemma RaiseStaysOver(o: Outbox, hooks: seq<Webhook>, told: seq<Webhook>, alerts: seq<Alert>, a: Alert,
                       clock: nat -> Reading)
    requires ValidHooks(told)
    ensures AllStayOver(o.log, ToldRaised(o, hooks, told, alerts, a, clock).log)
  {
    if hooks != [] {
      var p, left := ToldRaised(o, hooks, told, alerts, a, clock).log, LeftByRaise(o.log, hooks, alerts, a);
      ToldRaisedIs(o, hooks, told, alerts, a, clock);
      WithdrawingStaysOver(o.log, hooks, alerts, a);
      if p != left {
        QueuedStaysOver(left, p, told, Raised, a);
        forall i | 0 <= i < |left|
          ensures StaysOver(o.log[i], p[i])
        {
          assert StaysOver(o.log[i], left[i]) && StaysOver(left[i], p[i]);
        }
      }
    }
  }

  lemma WithdrawingStaysOver(log: Log, hooks: seq<Webhook>, alerts: seq<Alert>, a: Alert)
    ensures AllStayOver(log, LeftByRaise(log, hooks, alerts, a)) && |LeftByRaise(log, hooks, alerts, a)| == |log|
  {
  }

  lemma ClearStaysOver(o: Outbox, hooks: seq<Webhook>, told: seq<Webhook>, a: Alert, clock: nat -> Reading)
    requires ValidHooks(told) && (hooks == [] ==> told == [])
    ensures AllStayOver(o.log, ToldCleared(o, hooks, told, a, clock).log)
  {
    ToldClearedIs(o, hooks, told, a, clock);
    if ToldCleared(o, hooks, told, a, clock).log != o.log {
      QueuedStaysOver(o.log, ToldCleared(o, hooks, told, a, clock).log, told, Cleared, a);
    }
  }

  lemma CrashStaysOver(w: World, s: Step)
    requires ValidHooks(w.hooks) && s.Crash? && Enabled(w, s)
    ensures AllStayOver(w.o.log, Next(w, s).o.log)
  {
    var u := Partly(w, s.during, s.told);
    if s.told.Some? {
      var told := w.hooks[..s.told.value];
      if s.during.Raise? {
        RaiseStaysOver(w.o, w.hooks, told, u.alerts, Raising(w, s.during), s.during.clock);
      } else {
        ClearStaysOver(w.o, w.hooks, told, u.alerts[Clearing(w, s.during).0], s.during.clock);
      }
    }
    RestartStaysOver(u, s.hooks, s.r);
    forall i | 0 <= i < |w.o.log|
      ensures StaysOver(w.o.log[i], Next(w, s).o.log[i])
    {
      assert StaysOver(w.o.log[i], u.o.log[i]) && StaysOver(u.o.log[i], Next(w, s).o.log[i]);
    }
  }

  lemma RestartStaysOver(w: World, hooks: seq<Webhook>, r: Reading)
    ensures AllStayOver(w.o.log, Restarted(w, hooks, r).o.log)
  {
  }

  lemma NowStaysOver(o: Outbox, r: Reading)
    ensures AllStayOver(o.log, Now(o, r).log)
  {
  }

  lemma SendStaysOver(o: Outbox, webhook: nat, r: Reading)
    ensures AllStayOver(o.log, BeginSend(o, webhook, r).0.log)
  {
    NowStaysOver(o, r);
  }

  lemma PruneStaysOver(log: Log, before: int)
    ensures AllStayOver(log, PruneNotifications(log, before))
  {
  }

  lemma FinishStaysOver(w: World, s: Step)
    requires s.Finish? && Enabled(w, s)
    ensures AllStayOver(w.o.log, Next(w, s).o.log)
  {
  }

  lemma StepStaysOver(w: World, s: Step)
    requires ValidHooks(w.hooks) && Enabled(w, s)
    ensures AllStayOver(w.o.log, Next(w, s).o.log)
  {
    match s
    case Close(_, _, clock) => ClearStaysOver(w.o, w.hooks, w.hooks, AlertCleared(w, s), clock);
    case Clear(_, clock) => ClearStaysOver(w.o, w.hooks, w.hooks, AlertCleared(w, s), clock);
    case Raise(_, _, _, clock) =>
      var v := Next(w, s);
      RaiseStaysOver(w.o, w.hooks, w.hooks, v.alerts, v.alerts[|w.alerts|], clock);
    case Finish(_, _, _) => FinishStaysOver(w, s);
    case Restart(hooks, r) => RestartStaysOver(w, hooks, r);
    case Crash(_, _, _, _) => CrashStaysOver(w, s);
    case BeginCheck(_) =>
    case EndCheck =>
    case Start(webhook, r) => SendStaysOver(w.o, webhook, r);
    case Tick(r) => NowStaysOver(w.o, r);
    case Prune(before) => PruneStaysOver(w.o.log, before);
  }

  lemma HooksStayValid(w: World, s: Step)
    requires ValidHooks(w.hooks) && Enabled(w, s)
    ensures ValidHooks(Next(w, s).hooks)
  {
  }

  /** Whatever happens later, a row that is over is never pending again, nor is a withdrawn one anything else. */
  lemma {:induction false} NeverPendingAgain(w: World, steps: seq<Step>, i: nat)
    requires ValidHooks(w.hooks) && Runs(w, steps) && i < |w.o.log|
    ensures var v := Play(w, steps); i < |v.o.log| && StaysOver(w.o.log[i], v.o.log[i])
    decreases |steps|
  {
    if steps != [] {
      StepStaysOver(w, steps[0]);
      HooksStayValid(w, steps[0]);
      assert StaysOver(w.o.log[i], Next(w, steps[0]).o.log[i]);
      NeverPendingAgain(Next(w, steps[0]), steps[1..], i);
    }
  }
}
