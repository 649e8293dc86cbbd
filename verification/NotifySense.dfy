/** A webhook that gets both events never hears two clears of one watch without a raise between them. */
module NotifySense {
  import opened Results
  import opened Outbox
  import opened Notifications

  // ---- clears and the raises after them ------------------------------------------------------------

  predicate KeptClear(r: Row, id: nat, watch: Watch) {
    r.webhook == id && r.watch == watch && r.event.Cleared? && !r.status.Withdrawn?
  }

  predicate KeptRaise(r: Row, id: nat, watch: Watch) {
    r.webhook == id && r.watch == watch && r.event.Raised? && !r.status.Withdrawn?
  }

  ghost predicate RaiseWithin(log: Log, id: nat, watch: Watch, i: int, j: int) {
    exists k :: i < k < j && 0 <= k < |log| && KeptRaise(log[k], id, watch)
  }

  /** Between two clears there is a raise. */
  ghost predicate Alternates(log: Log, id: nat, watch: Watch) {
    forall i, j :: 0 <= i < j < |log| && KeptClear(log[i], id, watch) && KeptClear(log[j], id, watch) ==>
      RaiseWithin(log, id, watch, i, j)
  }

  /** Every clear, but for those of alert `but`, has a raise after it: another clear may follow. */
  ghost predicate Armed(log: Log, id: nat, watch: Watch, but: Option<nat>) {
    forall i :: 0 <= i < |log| && KeptClear(log[i], id, watch) && Some(log[i].alert) != but ==>
      RaiseWithin(log, id, watch, i, |log|)
  }

  // ---- the invariant -------------------------------------------------------------------------------

  predicate AlertsOk(w: World) {
    && (forall i :: 0 <= i < |w.alerts| ==>
          var a := w.alerts[i];
          a.id == i && a.raisedAt <= w.t && (a.clearedAt.Some? ==> a.clearedAt.value <= w.t))
    && (forall i, j :: 0 <= i < j < |w.alerts| && w.alerts[i].watch == w.alerts[j].watch ==>
         w.alerts[i].clearedAt.Some?)
  }

  /** Closed at this check because its rule changed. */
  predicate JustChanged(w: World, a: Alert) { a.clearedAt == Some(w.t) && a.clearedBy.RuleChanged? }

  predicate ClosedOk(w: World) {
    forall i :: 0 <= i < |w.alerts| && JustChanged(w, w.alerts[i]) ==> w.alerts[i].watch in w.closed
  }

  /** A clear speaks of a closed alert; those queued in this check are still pending. */
  predicate RowOk(w: World, i: nat)
    requires i < |w.o.log|
  {
    var r := w.o.log[i];
    r.event.Cleared? ==>
      && r.alert < |w.alerts| && w.alerts[r.alert].watch == r.watch && w.alerts[r.alert].clearedAt.Some?
      && (w.checking && w.alerts[r.alert].clearedAt == Some(w.t)
         ==> i >= w.mark && (IsPending(r) || r.status.Withdrawn?))
  }

  predicate RowsOk(w: World) { w.mark <= |w.o.log| && forall i: nat :: i < |w.o.log| ==> RowOk(w, i) }

  predicate Both(h: Webhook) { h.events == {Raised, Cleared} }

  ghost predicate SenseOk(w: World, h: Webhook, watch: Watch) {
    && Alternates(w.o.log, h.id, watch)
    && (forall i ::
          0 <= i < |w.alerts| && w.alerts[i].watch == watch && w.alerts[i].clearedAt.None?
          && Reaches(h, w.alerts[i].severity) ==>
            Armed(w.o.log, h.id, watch, None))
    && (w.checking && watch !in w.decided ==>
          forall i ::
            0 <= i < |w.alerts| && w.alerts[i].watch == watch && JustChanged(w, w.alerts[i])
            && Reaches(h, w.alerts[i].severity) ==>
              Armed(w.o.log, h.id, watch, Some(i)))
  }

  ghost predicate Base(w: World) { ValidHooks(w.hooks) && AlertsOk(w) && ClosedOk(w) && RowsOk(w) }

  ghost predicate Inv(w: World, h: Webhook, watch: Watch) { Base(w) && h in w.hooks && SenseOk(w, h, watch) }

  // ---- how the log changes -------------------------------------------------------------------------

  predicate Kin(r: Row, s: Row) {
    r.webhook == s.webhook && r.alert == s.alert && r.event == s.event && r.watch == s.watch
    && (r.status.Withdrawn? <==> s.status.Withdrawn?)
  }

  /** The log goes on: nothing in it changed but times and deliveries. */
  predicate GoesOn(log: Log, p: Log) {
    |p| >= |log| && forall i :: 0 <= i < |log| ==> Kin(log[i], p[i])
  }

  lemma RaisesStay(log: Log, p: Log, id: nat, watch: Watch, i: int, j: int)
    requires GoesOn(log, p) && RaiseWithin(log, id, watch, i, j)
    ensures RaiseWithin(p, id, watch, i, j)
  {
    var k :| i < k < j && 0 <= k < |log| && KeptRaise(log[k], id, watch);
    assert Kin(log[k], p[k]);
  }

  /** Rows added say nothing of clears here. */
  predicate NoClearsFrom(p: Log, n: nat, id: nat, watch: Watch) {
    forall i :: n <= i < |p| ==> !KeptClear(p[i], id, watch)
  }

  lemma AlternatesOn(log: Log, p: Log, id: nat, watch: Watch)
    requires GoesOn(log, p) && Alternates(log, id, watch) && NoClearsFrom(p, |log|, id, watch)
    ensures Alternates(p, id, watch)
  {
    forall i, j | 0 <= i < j < |p| && KeptClear(p[i], id, watch) && KeptClear(p[j], id, watch)
      ensures RaiseWithin(p, id, watch, i, j)
    {
      assert Kin(log[i], p[i]) && Kin(log[j], p[j]);
      RaisesStay(log, p, id, watch, i, j);
    }
  }

  lemma ArmedOn(log: Log, p: Log, id: nat, watch: Watch, but: Option<nat>)
    requires GoesOn(log, p) && Armed(log, id, watch, but) && NoClearsFrom(p, |log|, id, watch)
    ensures Armed(p, id, watch, but)
  {
    forall i | 0 <= i < |p| && KeptClear(p[i], id, watch) && Some(p[i].alert) != but
      ensures RaiseWithin(p, id, watch, i, |p|)
    {
      assert Kin(log[i], p[i]);
      RaisesStay(log, p, id, watch, i, |log|);
      var k :| i < k < |log| && KeptRaise(p[k], id, watch);
    }
  }

  /** A clear after which every earlier one was answered. */
  lemma ClearAfterRaise(log: Log, p: Log, id: nat, watch: Watch, alert: nat)
    requires GoesOn(log, p) && Alternates(log, id, watch) && Armed(log, id, watch, None)
    requires forall i, j :: |log| <= i < j < |p| && KeptClear(p[i], id, watch) ==> !KeptClear(p[j], id, watch)
    requires forall i :: |log| <= i < |p| ==> p[i].alert == alert
    ensures Alternates(p, id, watch) && Armed(p, id, watch, Some(alert))
  {
    forall i, j | 0 <= i < j < |p| && KeptClear(p[i], id, watch) && KeptClear(p[j], id, watch)
      ensures RaiseWithin(p, id, watch, i, j)
    {
      assert i < |log| ==> Kin(log[i], p[i]);
      if j < |log| {
        assert Kin(log[j], p[j]);
        RaisesStay(log, p, id, watch, i, j);
      } else {
        RaisesStay(log, p, id, watch, i, |log|);
        var k :| i < k < |log| && KeptRaise(p[k], id, watch);
      }
    }
    forall i | 0 <= i < |p| && KeptClear(p[i], id, watch) && p[i].alert != alert
      ensures RaiseWithin(p, id, watch, i, |p|)
    {
      assert Kin(log[i], p[i]);
      RaisesStay(log, p, id, watch, i, |log|);
      var k :| i < k < |log| && KeptRaise(p[k], id, watch);
    }
  }

  /** A raise at the end answers every clear. */
  lemma RaiseArms(p: Log, id: nat, watch: Watch, k: nat)
    requires k < |p| && KeptRaise(p[k], id, watch) && NoClearsFrom(p, k, id, watch)
    ensures Armed(p, id, watch, None)
  {
  }

  // ---- what is queued for one webhook ----------------------------------------------------------------

  lemma NewRows(log: Log, p: Log, hooks: seq<Webhook>, event: Event, a: Alert, h: Webhook, watch: Watch)
    requires Queued(log, p, hooks, event, a) && ValidHooks(hooks)
             && (h in hooks || forall k :: k in hooks ==> k.id != h.id)
    ensures GoesOn(log, p)
    ensures event.Raised? || a.watch != watch || h !in hooks || !Wants(h, event, a.severity) ==>
              NoClearsFrom(p, |log|, h.id, watch)
    ensures forall i, j :: |log| <= i < j < |p| && KeptClear(p[i], h.id, watch) ==> !KeptClear(p[j], h.id, watch)
    ensures forall i :: |log| <= i < |p| ==> p[i].alert == a.id
    ensures event.Raised? && a.watch == watch && h in hooks && Wants(h, event, a.severity) ==>
              exists k :: |log| <= k < |p| && KeptRaise(p[k], h.id, watch)
  {
    QueuedGoesOn(log, p, hooks, event, a);
    forall i | |log| <= i < |p|
      ensures p[i].alert == a.id
      ensures KeptClear(p[i], h.id, watch) ==>
                event.Cleared? && a.watch == watch && h in hooks && Wants(h, event, a.severity)
    {
      assert IsFor(p[i], event, a) && Told(hooks, p[i].webhook, event, a.severity);
      if p[i].webhook == h.id { ToldIsWanted(hooks, h, event, a.severity); }
    }
    if event.Raised? && a.watch == watch && h in hooks && Wants(h, event, a.severity) {
      var k :| |log| <= k < |p| && p[k].webhook == h.id;
      assert IsFor(p[k], event, a);
    }
  }

  lemma QueuedGoesOn(log: Log, p: Log, hooks: seq<Webhook>, event: Event, a: Alert)
    requires Queued(log, p, hooks, event, a)
    ensures GoesOn(log, p)
  {
    forall i | 0 <= i < |log|
      ensures Kin(log[i], p[i])
    {
      assert Same(log[i], p[i]);
    }
  }

  lemma ToldIsWanted(hooks: seq<Webhook>, h: Webhook, event: Event, s: Severity)
    requires ValidHooks(hooks) && (h in hooks || forall k :: k in hooks ==> k.id != h.id)
    requires Told(hooks, h.id, event, s)
    ensures h in hooks && Wants(h, event, s)
  {
    var g :| g in hooks && g.id == h.id && Wants(g, event, s);
  }

  lemma {:induction false} Withdrawing(log: Log, alert: nat, ids: set<nat>, id: nat, watch: Watch, but: Option<nat>)
    requires Alternates(log, id, watch)
    ensures Alternates(DeletePendingClears(log, alert, ids), id, watch)
    ensures Armed(log, id, watch, but) ==> Armed(DeletePendingClears(log, alert, ids), id, watch, but)
  {
    var p := DeletePendingClears(log, alert, ids);
    forall i, j | 0 <= i < j < |p| && KeptClear(p[i], id, watch) && KeptClear(p[j], id, watch)
      ensures RaiseWithin(p, id, watch, i, j)
    {
      assert RaiseWithin(log, id, watch, i, j);
      var k :| i < k < j && KeptRaise(log[k], id, watch);
      assert KeptRaise(p[k], id, watch);
    }
    if Armed(log, id, watch, but) {
      forall i | 0 <= i < |p| && KeptClear(p[i], id, watch) && Some(p[i].alert) != but
        ensures RaiseWithin(p, id, watch, i, |p|)
      {
        assert RaiseWithin(log, id, watch, i, |log|);
        var k :| i < k < |log| && KeptRaise(log[k], id, watch);
        assert KeptRaise(p[k], id, watch);
      }
    }
  }

  /** Withdrawing the clear of the alert that an edit closed leaves every clear answered. */
  lemma WithdrawingArms(w: World, alert: nat, ids: set<nat>, h: Webhook, watch: Watch)
    requires RowsOk(w) && alert < |w.alerts| && w.checking && w.alerts[alert].clearedAt == Some(w.t) && h.id in ids
    requires Alternates(w.o.log, h.id, watch) && Armed(w.o.log, h.id, watch, Some(alert))
    ensures Armed(DeletePendingClears(w.o.log, alert, ids), h.id, watch, None)
  {
    Withdrawing(w.o.log, alert, ids, h.id, watch, Some(alert));
    var p := DeletePendingClears(w.o.log, alert, ids);
    forall i | 0 <= i < |p| && KeptClear(p[i], h.id, watch)
      ensures p[i].alert != alert
    {
      assert RowOk(w, i);
    }
  }

  // ---- the steps -------------------------------------------------------------------------------------

  predicate IsDelivery(s: Step) { s.Start? || s.Finish? || s.Tick? || s.Prune? || s.Restart? }

  /** Nothing that waits stops waiting. */
  predicate StillPending(log: Log, p: Log) {
    |p| == |log| && forall i :: 0 <= i < |log| && IsPending(log[i]) ==> IsPending(p[i])
  }

  /** Only rows' deliveries and times change. */
  ghost predicate OnlyDelivers(w: World, v: World) {
    && v == w.(hooks := v.hooks, o := v.o, checking := v.checking, flight := v.flight)
    && |v.o.log| == |w.o.log| && GoesOn(w.o.log, v.o.log)
    && (v.checking ==> w.checking && StillPending(w.o.log, v.o.log))
  }

  lemma StartGoesOn(w: World, s: Step)
    requires Enabled(w, s) && s.Start?
    ensures OnlyDelivers(w, Next(w, s)) && Next(w, s).hooks == w.hooks
  {
    var n := Now(w.o, s.r).log;
    forall i | 0 <= i < |w.o.log|
      ensures Kin(w.o.log[i], n[i]) && n[i].status == w.o.log[i].status && n[i].pruned == w.o.log[i].pruned
    {
    }
  }

  lemma TickGoesOn(w: World, s: Step)
    requires Enabled(w, s) && s.Tick?
    ensures OnlyDelivers(w, Next(w, s)) && Next(w, s).hooks == w.hooks
  {
  }

  lemma FinishGoesOn(w: World, s: Step)
    requires Enabled(w, s) && s.Finish?
    ensures OnlyDelivers(w, Next(w, s)) && Next(w, s).hooks == w.hooks
  {
    EndGoesOn(w.o, w.flight[s.webhook].row, s.outcome, s.r);
  }

  lemma EndGoesOn(o: Outbox, row: Row, outcome: Outcome, r: Reading)
    ensures var p := EndSend(o, row, outcome, r).log; |p| == |o.log| && GoesOn(o.log, p)
  {
    if !outcome.Aborted? {
      var n := Now(o, r).log;
      assert GoesOn(o.log, n);
    }
  }

  lemma RestartGoesOn(w: World, hooks: seq<Webhook>, r: Reading)
    ensures OnlyDelivers(w, Restarted(w, hooks, r))
  {
  }

  lemma DeliveryGoesOn(w: World, s: Step)
    requires Enabled(w, s) && IsDelivery(s)
    ensures OnlyDelivers(w, Next(w, s)) && Next(w, s).hooks == if s.Restart? then s.hooks else w.hooks
  {
    match s
    case Start(_, _) => StartGoesOn(w, s);
    case Tick(_) => TickGoesOn(w, s);
    case Finish(_, _, _) => FinishGoesOn(w, s);
    case Prune(_) => PruneGoesOn(w, s);
    case Restart(hooks, r) => RestartGoesOn(w, hooks, r);
  }

  lemma PruneGoesOn(w: World, s: Step)
    requires Enabled(w, s) && s.Prune?
    ensures OnlyDelivers(w, Next(w, s)) && Next(w, s).hooks == w.hooks
  {
  }

  lemma DeliveryBase(w: World, v: World)
    requires Base(w) && OnlyDelivers(w, v) && ValidHooks(v.hooks)
    ensures Base(v)
  {
    forall i: nat | i < |v.o.log|
      ensures RowOk(v, i)
    {
      assert RowOk(w, i) && Kin(w.o.log[i], v.o.log[i]);
    }
  }

  lemma DeliverySense(w: World, v: World, h: Webhook, watch: Watch)
    requires Inv(w, h, watch) && OnlyDelivers(w, v)
    ensures SenseOk(v, h, watch)
  {
    AlternatesOn(w.o.log, v.o.log, h.id, watch);
    forall but | Armed(w.o.log, h.id, watch, but)
      ensures Armed(v.o.log, h.id, watch, but)
    {
      ArmedOn(w.o.log, v.o.log, h.id, watch, but);
    }
  }

  lemma BeginBase(w: World, t: int)
    requires Base(w) && Enabled(w, BeginCheck(t))
    ensures Base(Next(w, BeginCheck(t)))
  {
    var v := Next(w, BeginCheck(t));
    forall i: nat | i < |v.o.log|
      ensures RowOk(v, i)
    {
      assert RowOk(w, i);
    }
  }

  lemma EndBase(w: World)
    requires Base(w) && Enabled(w, EndCheck)
    ensures Base(Next(w, EndCheck))
  {
    var v := Next(w, EndCheck);
    forall i: nat | i < |v.o.log|
      ensures RowOk(v, i)
    {
      assert RowOk(w, i);
    }
  }

  /** The rows after an alert is cleared. */
  lemma ClearRows(w: World, v: World, hooks: seq<Webhook>, i: nat)
    requires RowsOk(w) && AlertsOk(w) && i < |w.alerts| && w.alerts[i].clearedAt.None? && w.checking && v.checking
    requires v.t == w.t && v.mark == w.mark && |v.alerts| == |w.alerts| && v.alerts[i].watch == w.alerts[i].watch
             && v.alerts[i].clearedAt.Some?
    requires forall k :: 0 <= k < |w.alerts| && k != i ==> v.alerts[k] == w.alerts[k]
    requires v.o.log == w.o.log || (Queued(w.o.log, v.o.log, hooks, Cleared, v.alerts[i]) && v.alerts[i].id == i)
    ensures RowsOk(v)
  {
    forall k: nat | k < |v.o.log|
      ensures RowOk(v, k)
    {
      if k < |w.o.log| {
        assert RowOk(w, k);
        assert Same(w.o.log[k], v.o.log[k]);
      } else {
        assert IsFor(v.o.log[k], Cleared, v.alerts[i]);
      }
    }
  }

  lemma AfterClearRows(w: World, i: nat, reason: Reason, clock: nat -> Reading)
    requires ValidHooks(w.hooks) && RowsOk(w) && AlertsOk(w) && i < |w.alerts| && w.alerts[i].clearedAt.None?
             && w.checking
    ensures var v := AfterClear(w, i, reason, clock);
            && AlertsOk(v) && RowsOk(v) && v.alerts == w.alerts[i := ClearedAlert(w.alerts[i], w.t, reason)]
            && v.alerts[i].clearedAt == Some(w.t)
            && if reason.RuleRemoved? then v.o.log == w.o.log
               else Queued(w.o.log, v.o.log, w.hooks, Cleared, v.alerts[i])
  {
    var v := AfterClear(w, i, reason, clock);
    ClearedIs(w.o, w.hooks, v.alerts[i], clock);
    forall k: nat | k < |w.o.log|
      ensures Same(w.o.log[k], w.o.log[k])
    {
    }
    ClearRows(w, v, w.hooks, i);
  }

  /** Some of the webhooks. */
  ghost predicate PartOf(told: seq<Webhook>, hooks: seq<Webhook>) {
    ValidHooks(hooks) && ValidHooks(told) && forall k :: k in told ==> k in hooks
  }

  lemma NotAnother(told: seq<Webhook>, hooks: seq<Webhook>, h: Webhook)
    requires PartOf(told, hooks) && h in hooks
    ensures h in told || forall k :: k in told ==> k.id != h.id
  {
  }

  lemma FirstsArePart(hooks: seq<Webhook>, n: nat)
    requires ValidHooks(hooks) && n <= |hooks|
    ensures PartOf(hooks[..n], hooks)
  {
  }

  /** Clears alternate with raises after a clear is queued, and only it may go unanswered. */
  lemma AfterClearSense(w: World, v: World, i: nat, reason: Reason, h: Webhook, watch: Watch, told: seq<Webhook>)
    requires Inv(w, h, watch) && Both(h) && i < |w.alerts| && w.alerts[i].clearedAt.None? && PartOf(told, w.hooks)
    requires i < |v.alerts| && v.alerts[i] == ClearedAlert(w.alerts[i], w.t, reason)
    requires v.o.log == w.o.log || Queued(w.o.log, v.o.log, told, Cleared, v.alerts[i])
    ensures Alternates(v.o.log, h.id, watch)
    ensures w.alerts[i].watch == watch && Reaches(h, w.alerts[i].severity) ==> Armed(v.o.log, h.id, watch, Some(i))
    ensures w.alerts[i].watch != watch
            ==> forall but :: Armed(w.o.log, h.id, watch, but) ==> Armed(v.o.log, h.id, watch, but)
  {
    if v.o.log != w.o.log {
      NotAnother(told, w.hooks, h);
      NewRows(w.o.log, v.o.log, told, Cleared, v.alerts[i], h, watch);
      if w.alerts[i].watch == watch && h in told && Reaches(h, w.alerts[i].severity) {
        ClearAfterRaise(w.o.log, v.o.log, h.id, watch, i);
      } else {
        AlternatesOn(w.o.log, v.o.log, h.id, watch);
        forall but | Armed(w.o.log, h.id, watch, but)
          ensures Armed(v.o.log, h.id, watch, but)
        {
          ArmedOn(w.o.log, v.o.log, h.id, watch, but);
        }
      }
    }
  }

  /** The alert that the step clears, and why. */
  function Clearing(w: World, s: Step): (nat, Reason)
    requires Enabled(w, s) && (s.Close? || s.Clear?)
  {
    (OpenFor(w.alerts, s.watch).value, if s.Close? then s.reason else Condition)
  }

  lemma ClearBase(w: World, s: Step)
    requires Base(w) && (s.Close? || s.Clear?) && Enabled(w, s)
    ensures Base(Next(w, s))
  {
    var c := Clearing(w, s);
    AfterClearRows(w, c.0, c.1, s.clock);
    SameRowsOk(AfterClear(w, c.0, c.1, s.clock), Next(w, s));
  }

  lemma ClearSense(w: World, s: Step, h: Webhook, watch: Watch)
    requires Inv(w, h, watch) && (s.Close? || s.Clear?) && Enabled(w, s) && Both(h)
    ensures SenseOk(Next(w, s), h, watch)
  {
    var c := Clearing(w, s);
    AfterClearRows(w, c.0, c.1, s.clock);
    AfterClearSense(w, Next(w, s), c.0, c.1, h, watch, w.hooks);
  }

  lemma SameRowsOk(u: World, v: World)
    requires RowsOk(u) && v.o == u.o && v.alerts == u.alerts && v.t == u.t && v.checking == u.checking
             && v.mark == u.mark
    ensures RowsOk(v)
  {
    forall i: nat | i < |v.o.log|
      ensures RowOk(v, i)
    {
      assert RowOk(u, i);
    }
  }

  // ---- raising -----------------------------------------------------------------------------------------

  /** The alert an edit just closed, if this one opens at the same check. */
  lemma PreviousIs(w: World, a: Alert, i: nat)
    requires AlertsOk(w) && a.raisedAt == w.t && a.clearedAt.None? && ClosedByEdit(w.alerts + [a], a).Some?
    requires i == ClosedByEdit(w.alerts + [a], a).value.id
    ensures i < |w.alerts| && w.alerts[i] == ClosedByEdit(w.alerts + [a], a).value && JustChanged(w, w.alerts[i])
    ensures w.alerts[i].watch == a.watch
  {
    var p := ClosedByEdit(w.alerts + [a], a).value;
    assert p in w.alerts;
  }

  lemma RaiseRows(w: World, v: World, hooks: seq<Webhook>, left: Log, a: Alert)
    requires RowsOk(w) && w.checking && v.checking && v.t == w.t && v.mark == w.mark && v.alerts == w.alerts + [a]
    requires |left| == |w.o.log|
             && forall i :: 0 <= i < |left| ==> left[i] == w.o.log[i] || left[i] == w.o.log[i].(status := Withdrawn)
    requires v.o.log == left || Queued(left, v.o.log, hooks, Raised, a)
    ensures RowsOk(v)
  {
    forall k: nat | k < |v.o.log|
      ensures RowOk(v, k)
    {
      if k < |left| {
        assert RowOk(w, k);
        assert v.o.log != left ==> Same(left[k], v.o.log[k]);
      } else {
        assert IsFor(v.o.log[k], Raised, a);
      }
    }
  }

  /** After a raise: if the webhook hears of the alert, whether anew or as before, the next clear may follow. */
  lemma RaiseSense(w: World, p: Log, a: Alert, h: Webhook, told: seq<Webhook>)
    requires Inv(w, h, a.watch) && w.checking && a.watch !in w.decided && Both(h) && PartOf(told, w.hooks)
    requires h in told || Reopens(w.alerts + [a], a) || !Reaches(h, a.severity)
    requires a.raisedAt == w.t && a.clearedAt.None?
    requires var left := LeftByRaise(w.o.log, w.hooks, w.alerts + [a], a);
             if Reopens(w.alerts + [a], a) then p == left else Queued(left, p, told, Raised, a)
    ensures Alternates(p, h.id, a.watch) && (Reaches(h, a.severity) ==> Armed(p, h.id, a.watch, None))
  {
    var left := LeftByRaise(w.o.log, w.hooks, w.alerts + [a], a);
    var previous := ClosedByEdit(w.alerts + [a], a);
    if previous.Some? {
      PreviousIs(w, a, previous.value.id);
      Withdrawing(w.o.log, previous.value.id, Reached(w.hooks, a.severity), h.id, a.watch, None);
    }
    if Reopens(w.alerts + [a], a) {
      if Reaches(h, a.severity) {
        WithdrawingArms(w, previous.value.id, Reached(w.hooks, a.severity), h, a.watch);
      }
    } else {
      NotAnother(told, w.hooks, h);
      NewRows(left, p, told, Raised, a, h, a.watch);
      AlternatesOn(left, p, h.id, a.watch);
      if Reaches(h, a.severity) {
        var k :| |left| <= k < |p| && KeptRaise(p[k], h.id, a.watch);
        RaiseArms(p, h.id, a.watch, k);
      }
    }
  }

  lemma RaiseElsewhere(w: World, p: Log, a: Alert, h: Webhook, watch: Watch, but: Option<nat>, told: seq<Webhook>)
    requires Inv(w, h, watch) && a.watch != watch && PartOf(told, w.hooks)
    requires var left := LeftByRaise(w.o.log, w.hooks, w.alerts + [a], a);
             if Reopens(w.alerts + [a], a) then p == left else Queued(left, p, told, Raised, a)
    ensures Alternates(p, h.id, watch) && (Armed(w.o.log, h.id, watch, but) ==> Armed(p, h.id, watch, but))
  {
    var left := LeftByRaise(w.o.log, w.hooks, w.alerts + [a], a);
    var previous := ClosedByEdit(w.alerts + [a], a);
    if previous.Some? {
      Withdrawing(w.o.log, previous.value.id, Reached(w.hooks, a.severity), h.id, watch, but);
    }
    if !Reopens(w.alerts + [a], a) {
      NotAnother(told, w.hooks, h);
      NewRows(left, p, told, Raised, a, h, watch);
      AlternatesOn(left, p, h.id, watch);
      if Armed(left, h.id, watch, but) { ArmedOn(left, p, h.id, watch, but); }
    }
  }

  lemma RaiseBase(w: World, s: Step)
    requires Base(w) && s.Raise? && Enabled(w, s)
    ensures Base(Next(w, s))
  {
    var v := Next(w, s);
    var a := v.alerts[|w.alerts|];
    if w.hooks == [] {
      RaiseRows(w, v, w.hooks, w.o.log, a);
    } else {
      RaisedIs(w.o, w.hooks, w.alerts + [a], a, s.clock);
      RaiseRows(w, v, w.hooks, LeftByRaise(w.o.log, w.hooks, w.alerts + [a], a), a);
    }
  }

  lemma RaiseStepSense(w: World, s: Step, h: Webhook, watch: Watch)
    requires Inv(w, h, watch) && s.Raise? && Enabled(w, s) && Both(h)
    ensures SenseOk(Next(w, s), h, watch)
  {
    var v, a := Next(w, s), Raising(w, s);
    RaisedIs(w.o, w.hooks, w.alerts + [a], a, s.clock);
    if a.watch == watch { RaiseSense(w, v.o.log, a, h, w.hooks); }
        else { RaiseAnywhere(w, v.o.log, a, h, watch, w.hooks); }
  }

  lemma RaiseAnywhere(w: World, p: Log, a: Alert, h: Webhook, watch: Watch, told: seq<Webhook>)
    requires Inv(w, h, watch) && a.watch != watch && PartOf(told, w.hooks)
    requires var left := LeftByRaise(w.o.log, w.hooks, w.alerts + [a], a);
             if Reopens(w.alerts + [a], a) then p == left else Queued(left, p, told, Raised, a)
    ensures Alternates(p, h.id, watch)
    ensures forall but :: Armed(w.o.log, h.id, watch, but) ==> Armed(p, h.id, watch, but)
  {
    forall but
      ensures Alternates(p, h.id, watch) && (Armed(w.o.log, h.id, watch, but) ==> Armed(p, h.id, watch, but))
    {
      RaiseElsewhere(w, p, a, h, watch, but, told);
    }
  }

  // ---- a death while an alert is written or told of ----------------------------------------------------

  lemma PartlyClearedRows(w: World, i: nat, reason: Reason, told: Option<nat>, clock: nat -> Reading)
    requires ValidHooks(w.hooks) && RowsOk(w) && AlertsOk(w) && i < |w.alerts| && w.alerts[i].clearedAt.None?
    requires w.checking && (told.Some? ==> told.value <= |w.hooks|)
    ensures var v := PartlyCleared(w, i, reason, told, clock);
            && AlertsOk(v) && RowsOk(v) && v.alerts == w.alerts[i := ClearedAlert(w.alerts[i], w.t, reason)]
            && v.alerts[i].clearedAt == Some(w.t)
            && (v.o.log == w.o.log
               || (told.Some? && Queued(w.o.log, v.o.log, w.hooks[..told.value], Cleared, v.alerts[i])))
  {
    var v := PartlyCleared(w, i, reason, told, clock);
    if told.Some? { ToldClearedIs(w.o, w.hooks, w.hooks[..told.value], v.alerts[i], clock); }
    ClearRows(w, v, if told.Some? then w.hooks[..told.value] else [], i);
  }

  lemma PartlyClearedBase(w: World, s: Step, told: Option<nat>)
    requires Base(w) && (s.Close? || s.Clear?) && Decides(w, s) && (told.Some? ==> told.value <= |w.hooks|)
    ensures Base(Partly(w, s, told))
  {
    var c := Clearing(w, s);
    PartlyClearedRows(w, c.0, c.1, told, s.clock);
    SameRowsOk(PartlyCleared(w, c.0, c.1, told, s.clock), Partly(w, s, told));
  }

  /** The rows of the log after a raise was partly told of. */
  lemma PartlyRaisedIs(w: World, s: Step, told: nat)
    requires ValidHooks(w.hooks) && s.Raise? && Decides(w, s) && told <= |w.hooks| && w.hooks != []
    ensures var a, p := Raising(w, s),
            Partly(w, s, Some(told)).o.log; var left := LeftByRaise(w.o.log, w.hooks, w.alerts + [a], a);
            if Reopens(w.alerts + [a], a) then p == left else Queued(left, p, w.hooks[..told], Raised, a)
  {
    var a := Raising(w, s);
    ToldRaisedIs(w.o, w.hooks, w.hooks[..told], w.alerts + [a], a, s.clock);
  }

  lemma PartlyRaisedBase(w: World, s: Step, told: Option<nat>)
    requires Base(w) && s.Raise? && Decides(w, s) && (told.Some? ==> told.value <= |w.hooks|)
    ensures Base(Partly(w, s, told))
  {
    var v, a := Partly(w, s, told), Raising(w, s);
    if told.None? || w.hooks == [] {
      RaiseRows(w, v, w.hooks, w.o.log, a);
    } else {
      PartlyRaisedIs(w, s, told.value);
      RaiseRows(w, v, w.hooks[..told.value], LeftByRaise(w.o.log, w.hooks, w.alerts + [a], a), a);
    }
  }

  lemma CrashBase(w: World, s: Step)
    requires Base(w) && s.Crash? && Enabled(w, s)
    ensures Base(Next(w, s))
  {
    var u := Partly(w, s.during, s.told);
    if s.during.Raise? { PartlyRaisedBase(w, s.during, s.told); } else { PartlyClearedBase(w, s.during, s.told); }
    RestartGoesOn(u, s.hooks, s.r);
    DeliveryBase(u, Next(w, s));
  }

  /** A death after which the webhook, if the alert reaches it, either has its row or needs none. */
  predicate Harmless(w: World, s: Step, h: Webhook)
    requires Enabled(w, s)
  {
    s.Crash? && s.during.Raise? && Reaches(h, s.during.severity) ==>
      && s.told.Some?
      && (h in w.hooks[..s.told.value] || Reopens(w.alerts + [Raising(w, s.during)], Raising(w, s.during)))
  }

  /** Every clear of the watch that has an open alert is answered: what matters between checks. */
  ghost predicate Sensible(w: World, h: Webhook, watch: Watch) {
    && Alternates(w.o.log, h.id, watch)
    && (forall i ::
          0 <= i < |w.alerts| && w.alerts[i].watch == watch && w.alerts[i].clearedAt.None?
          && Reaches(h, w.alerts[i].severity) ==>
            Armed(w.o.log, h.id, watch, None))
  }

  lemma PartlyClearedSense(w: World, s: Step, told: Option<nat>, h: Webhook, watch: Watch)
    requires Inv(w, h, watch) && (s.Close? || s.Clear?) && Decides(w, s) && Both(h)
    requires told.Some? ==> told.value <= |w.hooks|
    ensures Sensible(Partly(w, s, told), h, watch)
  {
    var c := Clearing(w, s);
    PartlyClearedRows(w, c.0, c.1, told, s.clock);
    FirstsArePart(w.hooks, if told.Some? then told.value else 0);
    AfterClearSense(w, Partly(w, s, told), c.0, c.1, h, watch, w.hooks[..if told.Some? then told.value else 0]);
  }

  lemma PartlyRaisedSense(w: World, s: Step, told: Option<nat>, h: Webhook, watch: Watch)
    requires Inv(w, h, watch) && s.Raise? && Decides(w, s) && Both(h)
    requires told.Some? ==> told.value <= |w.hooks|
    requires Reaches(h, s.severity) ==>
               told.Some? && (h in w.hooks[..told.value] || Reopens(w.alerts + [Raising(w, s)], Raising(w, s)))
    ensures Sensible(Partly(w, s, told), h, watch)
  {
    var v, a := Partly(w, s, told), Raising(w, s);
    if told.Some? {
      var firsts := w.hooks[..told.value];
      FirstsArePart(w.hooks, told.value);
      PartlyRaisedIs(w, s, told.value);
      if a.watch == watch {
        RaiseSense(w, v.o.log, a, h, firsts);
      } else {
        RaiseAnywhere(w, v.o.log, a, h, watch, firsts);
      }
    }
  }

  lemma CrashSense(w: World, s: Step, h: Webhook, watch: Watch)
    requires Inv(w, h, watch) && s.Crash? && Enabled(w, s) && Both(h) && Harmless(w, s, h)
    ensures SenseOk(Next(w, s), h, watch)
  {
    var u := Partly(w, s.during, s.told);
    if s.during.Raise? {
      PartlyRaisedSense(w, s.during, s.told, h, watch);
    } else {
      PartlyClearedSense(w, s.during, s.told, h, watch);
    }
    RestartGoesOn(u, s.hooks, s.r);
    SensibleOn(u, Next(w, s), h, watch);
  }

  lemma SensibleOn(w: World, v: World, h: Webhook, watch: Watch)
    requires Sensible(w, h, watch) && OnlyDelivers(w, v) && !v.checking
    ensures SenseOk(v, h, watch)
  {
    AlternatesOn(w.o.log, v.o.log, h.id, watch);
    if Armed(w.o.log, h.id, watch, None) { ArmedOn(w.o.log, v.o.log, h.id, watch, None); }
  }

  // ---- every run ---------------------------------------------------------------------------------------

  lemma StepBase(w: World, s: Step)
    requires Base(w) && Enabled(w, s)
    ensures Base(Next(w, s))
  {
    match s
    case BeginCheck(t) => BeginBase(w, t);
    case EndCheck => EndBase(w);
    case Close(_, _, _) => ClearBase(w, s);
    case Clear(_, _) => ClearBase(w, s);
    case Raise(_, _, _, _) => RaiseBase(w, s);
    case Crash(_, _, _, _) => CrashBase(w, s);
    case _ =>
      DeliveryGoesOn(w, s);
      DeliveryBase(w, Next(w, s));
  }

  lemma StepSense(w: World, s: Step, h: Webhook, watch: Watch)
    requires Inv(w, h, watch) && Enabled(w, s) && Both(h) && Harmless(w, s, h)
    ensures SenseOk(Next(w, s), h, watch)
  {
    match s
    case BeginCheck(t) =>
    case EndCheck =>
    case Close(_, _, _) => ClearSense(w, s, h, watch);
    case Clear(_, _) => ClearSense(w, s, h, watch);
    case Raise(_, _, _, _) => RaiseStepSense(w, s, h, watch);
    case Crash(_, _, _, _) => CrashSense(w, s, h, watch);
    case _ =>
      DeliveryGoesOn(w, s);
      DeliverySense(w, Next(w, s), h, watch);
  }

  /** The webhook is configured the same whenever the server restarts. */
  predicate Stays(h: Webhook, steps: seq<Step>) {
    forall i :: 0 <= i < |steps| && (steps[i].Restart? || steps[i].Crash?) ==> h in steps[i].hooks
  }

  /** No death loses the webhook's row of a raise. */
  predicate LosesNone(w: World, steps: seq<Step>, h: Webhook)
    requires Runs(w, steps)
    decreases |steps|
  {
    steps == [] || (Harmless(w, steps[0], h) && LosesNone(Next(w, steps[0]), steps[1..], h))
  }

  lemma StaysIn(w: World, s: Step, h: Webhook)
    requires Enabled(w, s) && h in w.hooks && (s.Restart? || s.Crash? ==> h in s.hooks)
    ensures h in Next(w, s).hooks
  {
  }

  lemma {:induction false} PlayKeeps(w: World, steps: seq<Step>, h: Webhook, watch: Watch)
    requires Inv(w, h, watch) && Runs(w, steps) && Stays(h, steps) && LosesNone(w, steps, h) && Both(h)
    ensures Inv(Play(w, steps), h, watch)
    decreases |steps|
  {
    if steps != [] {
      StepBase(w, steps[0]);
      StepSense(w, steps[0], h, watch);
      StaysIn(w, steps[0], h);
      PlayKeeps(Next(w, steps[0]), steps[1..], h, watch);
    }
  }

  /**
   Notification sense: over any run of checks, rule edits, deliveries that start inside a check or between
   checks, clock jumps, deaths between any two statements and restarts with other webhooks, what a webhook
   subscribed to both events and configured throughout is told of one rule and metric, withdrawn rows aside,
   never has two clears without a raise between them, unless a death loses its row of a raise.
   */
  lemma ClearsAlternate(t: int, r: Reading, hooks: seq<Webhook>, steps: seq<Step>, h: Webhook, watch: Watch)
    requires ValidHooks(hooks) && h in hooks && Runs(Fresh(t, r, hooks), steps) && Stays(h, steps) && Both(h)
    requires LosesNone(Fresh(t, r, hooks), steps, h)
    ensures Alternates(Play(Fresh(t, r, hooks), steps).o.log, h.id, watch)
  {
    PlayKeeps(Fresh(t, r, hooks), steps, h, watch);
  }
}
