/** Who hears of what: alerts reach exactly the webhooks configured for them, and withdraw only the clears of edits. */
module NotifyTold {
  import opened Results
  import opened Outbox
  import opened Notifications
  import opened NotifySense

  /** The webhook is configured to hear of this event of an alert so severe. */
  predicate Hears(h: Webhook, event: Event, s: Severity) {
    event in h.events && (h.minSeverity.Warning? || s.Critical?)
  }

  ghost predicate Configured(hooks: seq<Webhook>, id: nat) { exists h :: h in hooks && h.id == id }

  /** The row at `i`, a new one, is the webhook's only new one. */
  predicate OnlyNew(p: Log, n: nat, i: int, webhook: nat) {
    n <= i < |p| && p[i].webhook == webhook && forall j :: n <= j < |p| && j != i ==> p[j].webhook != webhook
  }

  /** The rows from `n` on: one for each webhook that hears of the event, none for any other, each about this alert. */
  ghost predicate Tells(p: Log, n: nat, hooks: seq<Webhook>, event: Event, a: Alert) {
    && (forall i :: n <= i < |p| ==>
          p[i].event == event && p[i].alert == a.id && p[i].watch == a.watch && IsPending(p[i])
          && Configured(hooks, p[i].webhook))
    && (forall h :: h in hooks && Hears(h, event, a.severity) ==> exists i :: OnlyNew(p, n, i, h.id))
    && (forall h, i :: h in hooks && !Hears(h, event, a.severity) && n <= i < |p| ==> p[i].webhook != h.id)
  }

  lemma WantsIsHears(h: Webhook, event: Event, s: Severity)
    ensures Wants(h, event, s) <==> Hears(h, event, s)
    ensures Reaches(h, s) <==> h.minSeverity.Warning? || s.Critical?
  {
  }

  lemma QueuedTells(log: Log, p: Log, hooks: seq<Webhook>, event: Event, a: Alert)
    requires ValidHooks(hooks) && Queued(log, p, hooks, event, a)
    ensures Tells(p, |log|, hooks, event, a)
  {
    forall i | |log| <= i < |p|
      ensures p[i].event == event && p[i].alert == a.id && p[i].watch == a.watch && IsPending(p[i])
              && Configured(hooks, p[i].webhook)
    {
      assert IsFor(p[i], event, a) && Told(hooks, p[i].webhook, event, a.severity);
    }
    forall h | h in hooks && Hears(h, event, a.severity)
      ensures exists i :: OnlyNew(p, |log|, i, h.id)
    {
      WantsIsHears(h, event, a.severity);
      var i :| |log| <= i < |p| && p[i].webhook == h.id;
      assert OnlyNew(p, |log|, i, h.id);
    }
    forall h, i | h in hooks && !Hears(h, event, a.severity) && |log| <= i < |p|
      ensures p[i].webhook != h.id
    {
      assert Told(hooks, p[i].webhook, event, a.severity);
      if p[i].webhook == h.id {
        ToldIsWanted(hooks, h, event, a.severity);
        WantsIsHears(h, event, a.severity);
      }
    }
  }

  /** What a queueing does to the table, whatever the clock does meanwhile. */
  lemma QueueTells(o: Outbox, hooks: seq<Webhook>, event: Event, a: Alert, nextAt: int, clock: nat -> Reading)
    requires ValidHooks(hooks)
    ensures var p := Queue(o, hooks, event, a, nextAt, clock).log;
            && |p| >= |o.log| && (forall i :: 0 <= i < |o.log| ==> Same(o.log[i], p[i]))
            && Tells(p, |o.log|, hooks, event, a)
  {
    QueueIs(o, hooks, event, a, nextAt, clock);
    QueuedTells(o.log, Queue(o, hooks, event, a, nextAt, clock).log, hooks, event, a);
  }

  // ---- when the rows are due -----------------------------------------------------------------------------

  /** The new rows are created at this moment, due at that, and not yet tried. */
  predicate DueAt(p: Log, n: nat, at: int, nextAt: int) {
    forall i :: n <= i < |p| ==> p[i].createdAt == at && p[i].nextAt == nextAt && p[i].attempts == 0
  }

  /** A clock at which no time passes. */
  ghost predicate Still(clock: nat -> Reading) { forall n :: clock(n) == clock(0) }

  lemma {:induction false} QueueDue(o: Outbox, hooks: seq<Webhook>, event: Event, a: Alert, nextAt: int,
                                    clock: nat -> Reading)
    requires Still(clock) && o.clock.wall == clock(0).wall && o.clock.mono == clock(0).mono
    ensures var q := Queue(o, hooks, event, a, nextAt, clock);
            && q.clock == o.clock && |q.log| >= |o.log| && q.log[..|o.log|] == o.log
            && DueAt(q.log, |o.log|, clock(0).wall, nextAt)
    decreases |hooks|
  {
    if hooks != [] { QueueDue(o, hooks[..|hooks| - 1], event, a, nextAt, clock); }
  }

  lemma NowThenDue(o: Outbox, hooks: seq<Webhook>, event: Event, a: Alert, nextAt: int, clock: nat -> Reading)
    requires Still(clock)
    ensures var p := Queue(Now(o, clock(0)), hooks, event, a, nextAt, clock).log;
            DueAt(p, |o.log|, clock(0).wall, nextAt)
  {
    QueueDue(Now(o, clock(0)), hooks, event, a, nextAt, clock);
  }

  // ---- what an edit closed ---------------------------------------------------------------------------------

  /** Of one watch, a check's edits close one alert at most. */
  ghost predicate Single(w: World) {
    forall i, j :: 0 <= i < j < |w.alerts| && w.alerts[i].watch == w.alerts[j].watch ==>
      !JustChanged(w, w.alerts[i]) || !JustChanged(w, w.alerts[j])
  }

  lemma ClosingSingle(w: World, v: World, i: nat, reason: Reason)
    requires Base(w) && Single(w) && i < |w.alerts| && v.t == w.t
    requires v.alerts == w.alerts[i := ClearedAlert(w.alerts[i], w.t, reason)]
    requires reason.RuleChanged? ==> w.alerts[i].watch !in w.closed
    ensures Single(v)
  {
  }

  lemma DecidingSingle(w: World, v: World, s: Step)
    requires Base(w) && Single(w) && Decides(w, s) && v.t == w.t
    requires if s.Raise? then v.alerts == w.alerts + [Raising(w, s)]
             else var i := OpenFor(w.alerts, s.watch).value;
               v.alerts == w.alerts[i := ClearedAlert(w.alerts[i], w.t, if s.Close? then s.reason else Condition)]
    ensures Single(v)
  {
    if !s.Raise? {
      ClosingSingle(w, v, OpenFor(w.alerts, s.watch).value, if s.Close? then s.reason else Condition);
    }
  }

  lemma StepSingle(w: World, s: Step)
    requires Base(w) && Single(w) && Enabled(w, s)
    ensures Single(Next(w, s))
  {
    match s
    case Close(_, _, _) => DecidingSingle(w, Next(w, s), s);
    case Raise(_, _, _, _) => DecidingSingle(w, Next(w, s), s);
    case Clear(_, _) => DecidingSingle(w, Next(w, s), s);
    case Crash(during, _, _, _) => DecidingSingle(w, Next(w, s), during);
    case _ =>
  }

  lemma {:induction false} PlaySingle(w: World, steps: seq<Step>)
    requires Base(w) && Single(w) && Runs(w, steps)
    ensures Base(Play(w, steps)) && Single(Play(w, steps))
    decreases |steps|
  {
    if steps != [] {
      StepBase(w, steps[0]);
      StepSingle(w, steps[0]);
      PlaySingle(Next(w, steps[0]), steps[1..]);
    }
  }

  // ---- clears ------------------------------------------------------------------------------------------------

  /** The alert of the watch that was open is closed now, or when it was raised if the clock stepped back since. */
  ghost predicate Closes(w: World, v: World, i: nat, reason: Reason) {
    && i < |w.alerts| && w.alerts[i].clearedAt.None? && |v.alerts| == |w.alerts|
    && (forall k :: 0 <= k < |w.alerts| && k != i ==> v.alerts[k] == w.alerts[k])
    && v.alerts[i].id == w.alerts[i].id && v.alerts[i].watch == w.alerts[i].watch
    && v.alerts[i].severity == w.alerts[i].severity && v.alerts[i].raisedAt == w.alerts[i].raisedAt
    && v.alerts[i].clearedAt == Some(w.t) && v.alerts[i].clearedBy == reason
  }

  ghost predicate ClearTold(w: World, v: World, watch: Watch, reason: Reason, clock: nat -> Reading) {
    exists i: nat :: Closes(w, v, i, reason) && w.alerts[i].watch == watch
      && if reason.RuleRemoved? then v.o == w.o
         else
           && |v.o.log| >= |w.o.log| && (forall k :: 0 <= k < |w.o.log| ==> Same(w.o.log[k], v.o.log[k]))
           && Tells(v.o.log, |w.o.log|, w.hooks, Cleared, w.alerts[i])
           && (Still(clock) ==>
                 DueAt(v.o.log, |w.o.log|, clock(0).wall,
                       clock(0).wall + if reason.RuleChanged? then CHANGED_CLEAR_DELAY_MS else 0))
  }

  lemma ClearTells(o: Outbox, hooks: seq<Webhook>, a: Alert, clock: nat -> Reading)
    requires ValidHooks(hooks) && !a.clearedBy.RuleRemoved?
    ensures var p := OnCleared(o, hooks, a, clock).log;
            && |p| >= |o.log| && (forall k :: 0 <= k < |o.log| ==> Same(o.log[k], p[k]))
            && Tells(p, |o.log|, hooks, Cleared, a)
            && (Still(clock) ==>
                  DueAt(p, |o.log|, clock(0).wall,
                        clock(0).wall + if a.clearedBy.RuleChanged? then CHANGED_CLEAR_DELAY_MS else 0))
  {
    ClearedIs(o, hooks, a, clock);
    QueuedTells(o.log, OnCleared(o, hooks, a, clock).log, hooks, Cleared, a);
    if Still(clock) && hooks != [] {
      NowThenDue(o, hooks, Cleared, a,
                 clock(0).wall + (if a.clearedBy.RuleChanged? then CHANGED_CLEAR_DELAY_MS else 0), clock);
    }
  }

  /** Tells speaks of the alert's id, watch and severity only. */
  lemma SameTells(p: Log, n: nat, hooks: seq<Webhook>, event: Event, a: Alert, b: Alert)
    requires Tells(p, n, hooks, event, a) && a.id == b.id && a.watch == b.watch && a.severity == b.severity
    ensures Tells(p, n, hooks, event, b)
  {
  }

  lemma AfterClearTold(w: World, i: nat, watch: Watch, reason: Reason, clock: nat -> Reading)
    requires Base(w) && i < |w.alerts| && w.alerts[i].clearedAt.None? && w.alerts[i].watch == watch
    ensures ClearTold(w, AfterClear(w, i, reason, clock), watch, reason, clock)
  {
    var a := ClearedAlert(w.alerts[i], w.t, reason);
    var v := AfterClear(w, i, reason, clock);
    if !reason.RuleRemoved? {
      ClearTells(w.o, w.hooks, a, clock);
      SameTells(v.o.log, |w.o.log|, w.hooks, Cleared, a, w.alerts[i]);
    }
    assert Closes(w, v, i, reason);
  }

  // ---- raises ------------------------------------------------------------------------------------------------

  /** An edit closed this very alert in this check, and it says the same again. */
  ghost predicate SaysTheSame(w: World, s: Step)
    requires s.Raise?
  {
    exists b :: b in w.alerts && b.watch == s.watch && JustChanged(w, b) && b.severity == s.severity
      && b.message == s.message
  }

  /** A clear that this raise makes needless: waiting, of an alert that an edit closed, for a webhook it reaches. */
  ghost predicate Needless(w: World, r: Row, s: Step)
    requires s.Raise?
  {
    && r.event.Cleared? && IsPending(r)
    && (exists b :: b in w.alerts && b.id == r.alert && b.watch == s.watch && JustChanged(w, b))
    && (exists h :: h in w.hooks && h.id == r.webhook && (h.minSeverity.Warning? || s.severity.Critical?))
  }

  ghost predicate RaiseTold(w: World, v: World, s: Step)
    requires s.Raise?
  {
    var n := |w.o.log|;
    && |v.o.log| >= n && v.alerts == w.alerts + [Raising(w, s)]
    && (forall k :: 0 <= k < n ==>
          Same(if Needless(w, w.o.log[k], s) then w.o.log[k].(status := Withdrawn) else w.o.log[k], v.o.log[k]))
    && (if SaysTheSame(w, s) then |v.o.log| == n else Tells(v.o.log, n, w.hooks, Raised, Raising(w, s)))
    && (Still(s.clock) ==> DueAt(v.o.log, n, s.clock(0).wall, s.clock(0).wall))
  }

  lemma ClosedByEditIs(w: World, s: Step)
    requires Base(w) && Single(w) && s.Raise?
    ensures var a := Raising(w, s); var p := ClosedByEdit(w.alerts + [a], a);
            && (forall b :: b in w.alerts && b.watch == s.watch && JustChanged(w, b) <==> p == Some(b))
  {
    var a := Raising(w, s);
    var p := ClosedByEdit(w.alerts + [a], a);
    if p.Some? { PreviousIs(w, a, p.value.id); }
    forall b | b in w.alerts && b.watch == s.watch && JustChanged(w, b)
      ensures p == Some(b)
    {
      assert b in w.alerts + [a] && ClosedFor(b, a);
      assert p.Some? && w.alerts[p.value.id] == p.value && w.alerts[b.id] == b;
    }
  }

  lemma WithdrawsNeedless(w: World, s: Step, k: nat)
    requires Base(w) && Single(w) && s.Raise? && k < |w.o.log|
    ensures var a := Raising(w, s); var left := LeftByRaise(w.o.log, w.hooks, w.alerts + [a], a);
            && |left| == |w.o.log|
            && left[k] == if Needless(w, w.o.log[k], s) then w.o.log[k].(status := Withdrawn) else w.o.log[k]
  {
    ClosedByEditIs(w, s);
    var a := Raising(w, s);
    var p := ClosedByEdit(w.alerts + [a], a);
    var r := w.o.log[k];
    assert r.webhook in Reached(w.hooks, s.severity)
      <==> exists h :: h in w.hooks && h.id == r.webhook && (h.minSeverity.Warning? || s.severity.Critical?);
    if p.Some? { assert p.value in w.alerts; }
  }

  lemma RaiseDue(w: World, s: Step)
    requires Base(w) && s.Raise? && Still(s.clock) && w.hooks != []
    ensures var a := Raising(w, s);
            DueAt(OnRaised(w.o, w.hooks, w.alerts + [a], a, s.clock).log, |w.o.log|, s.clock(0).wall, s.clock(0).wall)
  {
    var a := Raising(w, s);
    if !Reopens(w.alerts + [a], a) {
      NowThenDue(w.o.(log := LeftByRaise(w.o.log, w.hooks, w.alerts + [a], a)), w.hooks, Raised, a, s.clock(0).wall,
                 s.clock);
    }
  }

  lemma RaiseTells(w: World, s: Step)
    requires Base(w) && Single(w) && s.Raise? && Enabled(w, s) && w.hooks != []
    ensures var n, p := |w.o.log|, Next(w, s).o.log;
            |p| >= n && if SaysTheSame(w, s) then |p| == n else Tells(p, n, w.hooks, Raised, Raising(w, s))
  {
    var a := Raising(w, s);
    RaisedIs(w.o, w.hooks, w.alerts + [a], a, s.clock);
    SaysTheSameReopens(w, s);
    if !SaysTheSame(w, s) {
      QueuedTells(LeftByRaise(w.o.log, w.hooks, w.alerts + [a], a), Next(w, s).o.log, w.hooks, Raised, a);
    }
  }

  lemma SaysTheSameReopens(w: World, s: Step)
    requires Base(w) && Single(w) && s.Raise?
    ensures SaysTheSame(w, s) <==> Reopens(w.alerts + [Raising(w, s)], Raising(w, s))
  {
    ClosedByEditIs(w, s);
    var p := ClosedByEdit(w.alerts + [Raising(w, s)], Raising(w, s));
    if p.Some? { assert p.value in w.alerts; }
  }

  lemma RaiseLeaves(w: World, s: Step, k: nat)
    requires Base(w) && Single(w) && s.Raise? && Enabled(w, s) && w.hooks != [] && k < |w.o.log|
    ensures var p, r := Next(w, s).o.log, w.o.log[k];
            k < |p| && Same(if Needless(w, r, s) then r.(status := Withdrawn) else r, p[k])
  {
    var a := Raising(w, s);
    RaisedIs(w.o, w.hooks, w.alerts + [a], a, s.clock);
    WithdrawsNeedless(w, s, k);
  }

  lemma RaiseIsTold(w: World, s: Step)
    requires Base(w) && Single(w) && s.Raise? && Enabled(w, s)
    ensures RaiseTold(w, Next(w, s), s)
  {
    if w.hooks != [] {
      RaiseTells(w, s);
      if Still(s.clock) { RaiseDue(w, s); }
      forall k: nat | k < |w.o.log| { RaiseLeaves(w, s, k); }
    }
  }

  // ---- main result ---------------------------------------------------------------------------------------------

  /**
   After any run, whatever was configured, restarted, pruned or delivered before: an alert that is closed, cleared or
   raised is told, by one row each, to exactly the webhooks that hear of such an event of such an alert, unless its rule
   was removed or an edit closed the same alert in this check; and what a raise makes needless, and nothing else, is
   withdrawn.
   */
  lemma ToldRightly(t: int, r: Reading, hooks: seq<Webhook>, steps: seq<Step>, s: Step)
    requires ValidHooks(hooks) && Runs(Fresh(t, r, hooks), steps) && Enabled(Play(Fresh(t, r, hooks), steps), s)
    ensures var w := Play(Fresh(t, r, hooks), steps); var v := Next(w, s);
            && (s.Raise? ==> RaiseTold(w, v, s))
            && (s.Close? ==> ClearTold(w, v, s.watch, s.reason, s.clock))
            && (s.Clear? ==> ClearTold(w, v, s.watch, Condition, s.clock))
  {
    var start := Fresh(t, r, hooks);
    var w := Play(start, steps);
    assert Base(start) && Single(start);
    PlaySingle(start, steps);
    if s.Raise? {
      RaiseIsTold(w, s);
    } else if s.Close? || s.Clear? {
      var c := Clearing(w, s);
      AfterClearTold(w, c.0, s.watch, c.1, s.clock);
      SameClearTold(w, AfterClear(w, c.0, c.1, s.clock), Next(w, s), s.watch, c.1, s.clock);
    }
  }

  lemma SameClearTold(w: World, u: World, v: World, watch: Watch, reason: Reason, clock: nat -> Reading)
    requires ClearTold(w, u, watch, reason, clock) && v.o == u.o && v.alerts == u.alerts
    ensures ClearTold(w, v, watch, reason, clock)
  {
  }

  // ---- nobody waits for a webhook that is gone -------------------------------------------------------------------

  ghost predicate WaitFor(hooks: seq<Webhook>, log: Log) {
    forall i :: 0 <= i < |log| && IsPending(log[i]) ==> Configured(hooks, log[i].webhook)
  }

  /** No row begins to wait, and none changes its webhook. */
  predicate NoneBeginsToWait(log: Log, p: Log) {
    |p| == |log|
    && forall i :: 0 <= i < |p| ==> p[i].webhook == log[i].webhook && (IsPending(p[i]) ==> IsPending(log[i]))
  }

  lemma LessWait(hooks: seq<Webhook>, log: Log, p: Log)
    requires WaitFor(hooks, log) && NoneBeginsToWait(log, p)
    ensures WaitFor(hooks, p)
  {
  }

  lemma NewWait(hooks: seq<Webhook>, log: Log, p: Log, event: Event, a: Alert)
    requires WaitFor(hooks, log) && Queued(log, p, hooks, event, a) && ValidHooks(hooks)
    ensures WaitFor(hooks, p)
  {
    QueuedTells(log, p, hooks, event, a);
    forall i | 0 <= i < |p| && IsPending(p[i])
      ensures Configured(hooks, p[i].webhook)
    {
      if i < |log| { assert Same(log[i], p[i]); }
    }
  }

  lemma DeliveriesWait(w: World, s: Step)
    requires WaitFor(w.hooks, w.o.log) && Enabled(w, s) && (s.Start? || s.Finish? || s.Tick? || s.Prune?)
    ensures WaitFor(w.hooks, Next(w, s).o.log)
  {
    match s
    case Start(webhook, r) => LessWait(w.hooks, w.o.log, BeginSend(w.o, webhook, r).0.log);
    case Finish(webhook, outcome, r) => EndWait(w.hooks, w.o, w.flight[webhook].row, outcome, r);
    case Tick(r) => LessWait(w.hooks, w.o.log, Now(w.o, r).log);
    case Prune(before) => LessWait(w.hooks, w.o.log, PruneNotifications(w.o.log, before));
  }

  lemma EndWait(hooks: seq<Webhook>, o: Outbox, row: Row, outcome: Outcome, r: Reading)
    requires WaitFor(hooks, o.log)
    ensures WaitFor(hooks, EndSend(o, row, outcome, r).log)
  {
    if !outcome.Aborted? {
      var n := Now(o, r).log;
      LessWait(hooks, o.log, n);
      LessWait(hooks, n, EndSend(o, row, outcome, r).log);
    }
  }

  lemma DecisionsWait(w: World, s: Step)
    requires WaitFor(w.hooks, w.o.log) && ValidHooks(w.hooks) && Enabled(w, s) && (s.Close? || s.Raise? || s.Clear?)
    ensures WaitFor(w.hooks, Next(w, s).o.log)
  {
    var p := Next(w, s).o.log;
    if s.Raise? {
      if w.hooks != [] {
        var a := Raising(w, s);
        var left := LeftByRaise(w.o.log, w.hooks, w.alerts + [a], a);
        RaisedIs(w.o, w.hooks, w.alerts + [a], a, s.clock);
        LessWait(w.hooks, w.o.log, left);
        if p != left { NewWait(w.hooks, left, p, Raised, a); }
      }
    } else {
      var c := Clearing(w, s);
      var a := ClearedAlert(w.alerts[c.0], w.t, c.1);
      ClearedIs(w.o, w.hooks, a, s.clock);
      if p != w.o.log { NewWait(w.hooks, w.o.log, p, Cleared, a); }
    }
  }

  lemma RestartWait(w: World, hooks: seq<Webhook>, r: Reading)
    ensures WaitFor(hooks, Restarted(w, hooks, r).o.log)
  {
    var p := Restarted(w, hooks, r).o.log;
    forall i | 0 <= i < |p| && IsPending(p[i])
      ensures Configured(hooks, p[i].webhook)
    {
      assert p[i].webhook in Ids(hooks);
    }
  }

  lemma StepWait(w: World, s: Step)
    requires WaitFor(w.hooks, w.o.log) && ValidHooks(w.hooks) && Enabled(w, s)
    ensures WaitFor(Next(w, s).hooks, Next(w, s).o.log)
  {
    match s
    case Restart(hooks, r) => RestartWait(w, hooks, r);
    case Crash(during, told, hooks, r) => RestartWait(Partly(w, during, told), hooks, r);
    case BeginCheck(_) =>
    case EndCheck =>
    case Start(_, _) => DeliveriesWait(w, s);
    case Finish(_, _, _) => DeliveriesWait(w, s);
    case Tick(_) => DeliveriesWait(w, s);
    case Prune(_) => DeliveriesWait(w, s);
    case _ => DecisionsWait(w, s);
  }

  lemma {:induction false} PlayWait(w: World, steps: seq<Step>)
    requires WaitFor(w.hooks, w.o.log) && Base(w) && Runs(w, steps)
    ensures WaitFor(Play(w, steps).hooks, Play(w, steps).o.log)
    decreases |steps|
  {
    if steps != [] {
      StepWait(w, steps[0]);
      StepBase(w, steps[0]);
      PlayWait(Next(w, steps[0]), steps[1..]);
    }
  }

  /** In every run each waiting row is of a webhook that is configured: restarts give up those of removed ones. */
  lemma NoneWaitsForTheGone(t: int, r: Reading, hooks: seq<Webhook>, steps: seq<Step>)
    requires ValidHooks(hooks) && Runs(Fresh(t, r, hooks), steps)
    ensures var w := Play(Fresh(t, r, hooks), steps);
            forall i :: 0 <= i < |w.o.log| && IsPending(w.o.log[i]) ==>
              exists h :: h in w.hooks && h.id == w.o.log[i].webhook
  {
    PlayWait(Fresh(t, r, hooks), steps);
    var w := Play(Fresh(t, r, hooks), steps);
    forall i | 0 <= i < |w.o.log| && IsPending(w.o.log[i])
      ensures exists h :: h in w.hooks && h.id == w.o.log[i].webhook
    {
      assert Configured(w.hooks, w.o.log[i].webhook);
    }
  }

  // ---- why a row no longer waits -----------------------------------------------------------------------------------

  lemma EndingSend(o: Outbox, row: Row, outcome: Outcome, r: Reading, i: nat)
    requires i < |o.log| && IsPending(o.log[i]) && (outcome.Aborted? || row.id != o.log[i].id)
    ensures var p := EndSend(o, row, outcome, r).log; i < |p| && IsPending(p[i])
  {
    if !outcome.Aborted? {
      var n := Now(o, r).log;
      assert IsPending(n[i]) && n[i].id == o.log[i].id;
    }
  }

  lemma BeginningSend(o: Outbox, webhook: nat, r: Reading, i: nat)
    requires i < |o.log| && IsPending(o.log[i])
    ensures var p := BeginSend(o, webhook, r).0.log; i < |p| && IsPending(p[i])
  {
    var n := Now(o, r).log;
    assert IsPending(n[i]);
  }

  lemma RestartingKeeps(w: World, hooks: seq<Webhook>, r: Reading, i: nat)
    requires i < |w.o.log| && IsPending(w.o.log[i])
    ensures var p := Restarted(w, hooks, r).o.log;
            i < |p| && (IsPending(p[i]) <==> Configured(hooks, w.o.log[i].webhook))
  {
    var id := w.o.log[i].webhook;
    assert id in Ids(hooks) <==> Configured(hooks, id);
  }

  /** What a death leaves of a row that waited, before the restart. */
  lemma PartlyEnds(w: World, s: Step, told: Option<nat>, i: nat)
    requires Base(w) && Single(w) && Decides(w, s) && (told.Some? ==> told.value <= |w.hooks|)
    requires i < |w.o.log| && IsPending(w.o.log[i])
    ensures var p := Partly(w, s, told).o.log;
            && i < |p| && p[i].webhook == w.o.log[i].webhook
            && (IsPending(p[i]) || (s.Raise? && Needless(w, w.o.log[i], s)))
  {
    if told.Some? {
      var hooks := w.hooks[..told.value];
      FirstsArePart(w.hooks, told.value);
      if s.Raise? {
        if w.hooks != [] {
          var a := Raising(w, s);
          ToldRaisedIs(w.o, w.hooks, hooks, w.alerts + [a], a, s.clock);
          WithdrawsNeedless(w, s, i);
        }
      } else {
        var k := OpenFor(w.alerts, s.watch).value;
        ToldClearedIs(w.o, w.hooks, hooks, ClearedAlert(w.alerts[k], w.t, if s.Close? then s.reason else Condition),
                      s.clock);
      }
    }
  }

  /**
   A row that waits only ever stops waiting because its own delivery ended, because a raise made it needless, or
   because the server came back without its webhook.
   */
  ghost predicate EndsFor(w: World, s: Step, row: Row) {
    match s
    case Finish(webhook, outcome, _) => webhook in w.flight && w.flight[webhook].row.id == row.id && !outcome.Aborted?
    case Raise(_, _, _, _) => Needless(w, row, s)
    case Restart(hooks, _) => !Configured(hooks, row.webhook)
    case Crash(during, _, hooks, _) =>
      !Configured(hooks, row.webhook) || (during.Raise? && Needless(w, row, during))
    case _ => false
  }

  lemma StepEnds(w: World, s: Step, i: nat)
    requires Base(w) && Single(w) && Enabled(w, s) && i < |w.o.log| && IsPending(w.o.log[i])
    ensures var p := Next(w, s).o.log; i < |p| && (IsPending(p[i]) || EndsFor(w, s, w.o.log[i]))
  {
    match s
    case Start(webhook, r) => BeginningSend(w.o, webhook, r, i);
    case Finish(webhook, outcome, r) =>
      var row := w.flight[webhook].row;
      if outcome.Aborted? || row.id != w.o.log[i].id { EndingSend(w.o, row, outcome, r, i); }
      FinishGoesOn(w, s);
    case Restart(hooks, r) => RestartingKeeps(w, hooks, r, i);
    case Crash(during, told, hooks, r) =>
      PartlyEnds(w, during, told, i);
      var u := Partly(w, during, told);
      RestartGoesOn(u, hooks, r);
      if IsPending(u.o.log[i]) { RestartingKeeps(u, hooks, r, i); }
    case Raise(_, _, _, _) => RaiseIsTold(w, s);
    case Close(_, _, _) => ClearingKeeps(w, s, i);
    case Clear(_, _) => ClearingKeeps(w, s, i);
    case _ =>
  }

  lemma ClearingKeeps(w: World, s: Step, i: nat)
    requires Base(w) && Enabled(w, s) && (s.Close? || s.Clear?) && i < |w.o.log| && IsPending(w.o.log[i])
    ensures var p := Next(w, s).o.log; i < |p| && IsPending(p[i])
  {
    var c := Clearing(w, s);
    ClearedIs(w.o, w.hooks, ClearedAlert(w.alerts[c.0], w.t, c.1), s.clock);
  }

  /** In every run, whatever step comes next. */
  lemma WhyItEnds(t: int, r: Reading, hooks: seq<Webhook>, steps: seq<Step>, s: Step, i: nat)
    requires ValidHooks(hooks) && Runs(Fresh(t, r, hooks), steps) && Enabled(Play(Fresh(t, r, hooks), steps), s)
    ensures var w := Play(Fresh(t, r, hooks), steps); var p := Next(w, s).o.log;
            i < |w.o.log| && IsPending(w.o.log[i]) ==> i < |p| && (IsPending(p[i]) || EndsFor(w, s, w.o.log[i]))
  {
    var w := Play(Fresh(t, r, hooks), steps);
    PlaySingle(Fresh(t, r, hooks), steps);
    if i < |w.o.log| && IsPending(w.o.log[i]) { StepEnds(w, s, i); }
  }

  /** A pruning deletes exactly the rows sent or given up before its cutoff, in every run. */
  lemma PrunesExactly(t: int, r: Reading, hooks: seq<Webhook>, steps: seq<Step>, before: int, i: nat)
    requires Runs(Fresh(t, r, hooks), steps) && i < |Play(Fresh(t, r, hooks), steps).o.log|
    ensures var w := Play(Fresh(t, r, hooks), steps); var p := Next(w, Prune(before)).o.log;
            && |p| == |w.o.log| && Same(w.o.log[i].(pruned := p[i].pruned), p[i])
            && (p[i].pruned <==>
                  || w.o.log[i].pruned
                  || ((w.o.log[i].status.Sent? || w.o.log[i].status.Failed?) && w.o.log[i].status.at < before))
  {
  }
}
