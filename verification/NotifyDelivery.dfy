/**
 Each webhook's rows are delivered in order, and given up on by their true age, as long as the clock does not
 run past an edit's clear inside the check that queued it.
 */
module NotifyDelivery {
  import opened Results
  import opened Outbox
  import opened Notifications
  import opened NotifySense
  import opened NotifyTable

  // ---- the clock inside a check ------------------------------------------------------------------------

  /** A clear queued by the check under way for an alert that an edit closed, and that it may yet open again. */
  predicate Retractable(w: World, row: Row) {
    && w.checking && row.event.Cleared? && row.alert < |w.alerts|
    && JustChanged(w, w.alerts[row.alert]) && w.alerts[row.alert].watch !in w.decided
  }

  /**
   How far the clock has gone since a clear's due time was worked out: the monotonic time since it was queued,
   the jumps ignored since, and what the wall clock had moved on by when it was queued.
   */
  function Gain(c: Clock, row: Row): int {
    (c.mono - row.born) + (c.ignored - row.skipped) + (row.createdAt - (row.nextAt - CHANGED_CLEAR_DELAY_MS))
  }

  /** When a lane is woken inside a check, the clock has gained less than `gain` on the clears it may yet withdraw. */
  predicate Calm(w: World, s: Step, gain: int) {
    s.Start? ==>
      var n := Now(w.o, s.r);
      forall i ::
        0 <= i < |n.log| && IsPending(n.log[i]) && n.log[i].webhook == s.webhook && Retractable(w, n.log[i]) ==>
          Gain(n.clock, n.log[i]) < gain
  }

  predicate CalmRuns(w: World, steps: seq<Step>, gain: int)
    requires Runs(w, steps)
    decreases |steps|
  {
    steps == [] || (Calm(w, steps[0], gain) && CalmRuns(Next(w, steps[0]), steps[1..], gain))
  }

  /** A clear is due exactly when the clock has gained its delay. */
  lemma GainIsDue(o: Outbox, row: Row)
    requires Aged(o.clock, row) && row.status.Pending?
    ensures row.nextAt <= o.clock.wall <==> Gain(o.clock, row) >= CHANGED_CLEAR_DELAY_MS
  {
  }

  // ---- the order of delivery ---------------------------------------------------------------------------

  /** No older row of the webhook is waiting. */
  predicate NoneWaits(log: Log, webhook: nat, before: nat) {
    forall i :: 0 <= i < before && i < |log| && log[i].webhook == webhook ==> !log[i].status.Pending?
  }

  predicate InOrder(log: Log) {
    forall j: nat :: j < |log| && Done(log[j]) ==> NoneWaits(log, log[j].webhook, j)
  }

  /** A flight's row is its webhook's oldest pending one, and will not be withdrawn. */
  predicate FlightOk(w: World, id: nat)
    requires id in w.flight
  {
    var f := w.flight[id];
    && f.at < |w.o.log| && IsPending(w.o.log[f.at]) && w.o.log[f.at].webhook == id
    && w.o.log[f.at].id == f.row.id && w.o.log[f.at].attempts == f.row.attempts
    && NoneWaits(w.o.log, id, f.at) && !Retractable(w, w.o.log[f.at])
  }

  ghost predicate DeliveryInv(w: World) {
    Base(w) && TableOk(w.o) && InOrder(w.o.log) && forall id :: id in w.flight ==> FlightOk(w, id)
  }

  /** A row goes on waiting, or stops. */
  predicate Settles(r: Row, s: Row) {
    r.webhook == s.webhook && (s.status.Pending? ==> r.status.Pending?)
  }

  lemma WaitsLess(log: Log, p: Log, webhook: nat, before: nat)
    requires NoneWaits(log, webhook, before) && |p| >= |log| && before <= |log|
    requires forall i :: 0 <= i < |log| ==> Settles(log[i], p[i])
    ensures NoneWaits(p, webhook, before)
  {
    forall i | 0 <= i < before && i < |p| && p[i].webhook == webhook
      ensures !p[i].status.Pending?
    {
      assert Settles(log[i], p[i]);
    }
  }

  /** Order is kept when nothing new is done, and new rows wait. */
  lemma OrderOn(log: Log, p: Log)
    requires InOrder(log) && |p| >= |log|
    requires forall i :: 0 <= i < |log| ==> Settles(log[i], p[i]) && (Done(p[i]) ==> Done(log[i]))
    requires forall i :: |log| <= i < |p| ==> p[i].status.Pending?
    ensures InOrder(p)
  {
    forall j: nat | j < |p| && Done(p[j])
      ensures NoneWaits(p, p[j].webhook, j)
    {
      assert Settles(log[j], p[j]) && Done(log[j]);
      WaitsLess(log, p, p[j].webhook, j);
    }
  }

  lemma FlightOn(w: World, v: World, id: nat)
    requires id in w.flight && FlightOk(w, id) && id in v.flight && v.flight[id] == w.flight[id]
    requires |v.o.log| >= |w.o.log| && forall i :: 0 <= i < |w.o.log| ==> Settles(w.o.log[i], v.o.log[i])
    requires var at := w.flight[id].at;
             && IsPending(v.o.log[at]) && v.o.log[at].id == w.o.log[at].id
                && v.o.log[at].attempts == w.o.log[at].attempts
             && !Retractable(v, v.o.log[at])
    ensures FlightOk(v, id)
  {
    var at := w.flight[id].at;
    assert Settles(w.o.log[at], v.o.log[at]);
    WaitsLess(w.o.log, v.o.log, id, at);
  }

  // ---- steps of a check ----------------------------------------------------------------------------------

  /** Old rows keep their place, unless they are clears that may be withdrawn, and new ones wait. */
  predicate CheckRow(w: World, r: Row, s: Row) {
    Same(r, s) || (Retractable(w, r) && r.webhook == s.webhook && r.status.Pending? && s.status.Withdrawn?)
  }

  ghost predicate CheckRows(w: World, p: Log) {
    && |p| >= |w.o.log| && (forall i :: |w.o.log| <= i < |p| ==> p[i].status.Pending?)
    && (forall i :: 0 <= i < |w.o.log| ==> CheckRow(w, w.o.log[i], p[i]))
  }

  /** What may not be withdrawn before a step of the check may not be after it. */
  ghost predicate RetractsLess(w: World, v: World) {
    forall i :: 0 <= i < |w.o.log| && i < |v.o.log| && Same(w.o.log[i], v.o.log[i]) && Retractable(v, v.o.log[i]) ==>
      Retractable(w, w.o.log[i])
  }

  lemma CheckOrder(w: World, v: World)
    requires DeliveryInv(w) && v.flight == w.flight && CheckRows(w, v.o.log) && RetractsLess(w, v)
    ensures InOrder(v.o.log) && forall id :: id in v.flight ==> FlightOk(v, id)
  {
    CheckRowsOrder(w, v.o.log);
    forall id | id in v.flight
      ensures FlightOk(v, id)
    {
      assert FlightOk(w, id);
      var at := w.flight[id].at;
      assert CheckRow(w, w.o.log[at], v.o.log[at]);
      FlightOn(w, v, id);
    }
  }

  lemma QueuedRows(w: World, left: Log, p: Log, told: seq<Webhook>, event: Event, a: Alert)
    requires CheckRows(w, left) && |left| == |w.o.log| && (p == left || Queued(left, p, told, event, a))
    ensures CheckRows(w, p)
  {
    if p != left {
      forall i | |w.o.log| <= i < |p|
        ensures p[i].status.Pending?
      {
        assert IsFor(p[i], event, a);
      }
      forall i | 0 <= i < |w.o.log|
        ensures CheckRow(w, w.o.log[i], p[i])
      {
        assert Same(left[i], p[i]) && CheckRow(w, w.o.log[i], left[i]);
      }
    }
  }

  /** A raise withdraws only clears of the alert that an edit just closed. */
  lemma WithdrawnRows(w: World, a: Alert)
    requires Base(w) && w.checking && a.raisedAt == w.t && a.clearedAt.None? && a.watch !in w.decided
    ensures CheckRows(w, LeftByRaise(w.o.log, w.hooks, w.alerts + [a], a))
  {
    var left := LeftByRaise(w.o.log, w.hooks, w.alerts + [a], a);
    var p := ClosedByEdit(w.alerts + [a], a);
    if p.Some? { PreviousIs(w, a, p.value.id); }
    forall i | 0 <= i < |w.o.log|
      ensures CheckRow(w, w.o.log[i], left[i])
    {
    }
  }

  lemma ClearCheckRows(w: World, s: Step)
    requires DeliveryInv(w) && (s.Close? || s.Clear?) && Enabled(w, s)
    ensures CheckRows(w, Next(w, s).o.log)
  {
    ClearedIs(w.o, w.hooks, AlertCleared(w, s), s.clock);
    assert CheckRows(w, w.o.log);
    QueuedRows(w, w.o.log, Next(w, s).o.log, w.hooks, Cleared, AlertCleared(w, s));
  }

  /** Clears that are in flight are of alerts closed before this step. */
  lemma ClearRetracts(w: World, s: Step)
    requires DeliveryInv(w) && (s.Close? || s.Clear?) && Enabled(w, s)
    ensures RetractsLess(w, Next(w, s))
  {
    var v := Next(w, s);
    forall i: nat | i < |w.o.log| && i < |v.o.log| && Same(w.o.log[i], v.o.log[i]) && Retractable(v, v.o.log[i])
      ensures Retractable(w, w.o.log[i])
    {
      assert RowOk(w, i);
    }
  }

  lemma ClearInv(w: World, s: Step)
    requires DeliveryInv(w) && (s.Close? || s.Clear?) && Enabled(w, s)
    ensures DeliveryInv(Next(w, s))
  {
    StepBase(w, s);
    StepTable(w, s);
    ClearCheckRows(w, s);
    ClearRetracts(w, s);
    CheckOrder(w, Next(w, s));
  }

  lemma RaiseCheckRows(w: World, s: Step)
    requires DeliveryInv(w) && s.Raise? && Enabled(w, s)
    ensures CheckRows(w, Next(w, s).o.log)
  {
    var v := Next(w, s);
    var a := v.alerts[|w.alerts|];
    if w.hooks == [] {
      assert CheckRows(w, v.o.log);
    } else {
      RaisedIs(w.o, w.hooks, v.alerts, a, s.clock);
      WithdrawnRows(w, a);
      QueuedRows(w, LeftByRaise(w.o.log, w.hooks, v.alerts, a), v.o.log, w.hooks, Raised, a);
    }
  }

  lemma RaiseRetracts(w: World, s: Step)
    requires DeliveryInv(w) && s.Raise? && Enabled(w, s)
    ensures RetractsLess(w, Next(w, s))
  {
    var v := Next(w, s);
    forall i: nat | i < |w.o.log| && i < |v.o.log| && Same(w.o.log[i], v.o.log[i]) && Retractable(v, v.o.log[i])
      ensures Retractable(w, w.o.log[i])
    {
      assert RowOk(w, i);
    }
  }

  lemma RaiseInv(w: World, s: Step)
    requires DeliveryInv(w) && s.Raise? && Enabled(w, s)
    ensures DeliveryInv(Next(w, s))
  {
    StepBase(w, s);
    StepTable(w, s);
    RaiseCheckRows(w, s);
    RaiseRetracts(w, s);
    CheckOrder(w, Next(w, s));
  }

  /** A check begins later than everything that was closed before it. */
  lemma BoundaryInv(w: World, s: Step)
    requires DeliveryInv(w) && (s.BeginCheck? || s.EndCheck?) && Enabled(w, s)
    ensures DeliveryInv(Next(w, s))
  {
    StepBase(w, s);
    var v := Next(w, s);
    forall id | id in v.flight
      ensures FlightOk(v, id)
    {
      assert FlightOk(w, id);
    }
  }

  // ---- deliveries ----------------------------------------------------------------------------------------

  /** Only times change, or rows that are over are pruned. */
  predicate QuietRow(r: Row, s: Row) {
    r.id == s.id && r.webhook == s.webhook && r.alert == s.alert && r.event == s.event && r.status == s.status
    && (r.status.Pending? ==> r.pruned == s.pruned && r.attempts == s.attempts)
  }

  lemma QuietInv(w: World, v: World)
    requires DeliveryInv(w) && Base(v) && TableOk(v.o) && v == w.(o := v.o) && |v.o.log| == |w.o.log|
    requires forall i :: 0 <= i < |w.o.log| ==> QuietRow(w.o.log[i], v.o.log[i])
    ensures DeliveryInv(v)
  {
    forall i | 0 <= i < |w.o.log|
      ensures Settles(w.o.log[i], v.o.log[i]) && (Done(v.o.log[i]) ==> Done(w.o.log[i]))
    {
      assert QuietRow(w.o.log[i], v.o.log[i]);
    }
    OrderOn(w.o.log, v.o.log);
    forall id | id in v.flight
      ensures FlightOk(v, id)
    {
      assert FlightOk(w, id);
      var at := w.flight[id].at;
      assert QuietRow(w.o.log[at], v.o.log[at]);
      FlightOn(w, v, id);
    }
  }

  lemma TickInv(w: World, r: Reading)
    requires DeliveryInv(w)
    ensures DeliveryInv(w.(o := Now(w.o, r)))
  {
    StepBase(w, Tick(r));
    StepTable(w, Tick(r));
    QuietInv(w, Next(w, Tick(r)));
  }

  lemma PruneInv(w: World, before: int)
    requires DeliveryInv(w)
    ensures DeliveryInv(Next(w, Prune(before)))
  {
    StepBase(w, Prune(before));
    StepTable(w, Prune(before));
    QuietInv(w, Next(w, Prune(before)));
  }

  /** The row with the smallest id is the oldest waiting. */
  lemma HeadIsOldest(o: Outbox, webhook: nat)
    requires TableOk(o) && HeadOf(o.log, webhook).Some?
    ensures NoneWaits(o.log, webhook, HeadOf(o.log, webhook).value)
  {
    var h := HeadOf(o.log, webhook).value;
    forall i | 0 <= i < h && o.log[i].webhook == webhook
      ensures !o.log[i].status.Pending?
    {
      assert Aged(o.clock, o.log[i]);
      if o.log[i].status.Pending? { assert IsPending(o.log[i]) && Stored(o.log[i]) && Stored(o.log[h]); }
    }
  }

  lemma StartInv(w: World, webhook: nat, r: Reading)
    requires DeliveryInv(w) && Enabled(w, Start(webhook, r)) && Calm(w, Start(webhook, r), CHANGED_CLEAR_DELAY_MS)
    ensures DeliveryInv(Next(w, Start(webhook, r)))
  {
    var v := Next(w, Start(webhook, r));
    var n := w.(o := Now(w.o, r));
    TickInv(w, r);
    StepBase(w, Start(webhook, r));
    StepTable(w, Start(webhook, r));
    var h := HeadOf(n.o.log, webhook);
    if h.Some? {
      var row := n.o.log[h.value];
      if row.nextAt - r.wall > MAX_RETRY_MS {
        QuietInv(n, v);
      } else if row.nextAt <= r.wall {
        HeadIsReady(w, webhook, r, h.value);
        StartedFlight(n, v, webhook, h.value);
      }
    }
  }

  /** A head that is due is the oldest waiting, and not a clear that the check may withdraw. */
  lemma HeadIsReady(w: World, webhook: nat, r: Reading, h: nat)
    requires TableOk(Now(w.o, r)) && Enabled(w, Start(webhook, r)) && Calm(w, Start(webhook, r), CHANGED_CLEAR_DELAY_MS)
    requires HeadOf(Now(w.o, r).log, webhook) == Some(h) && Now(w.o, r).log[h].nextAt <= r.wall
    ensures NoneWaits(Now(w.o, r).log, webhook, h) && !Retractable(w, Now(w.o, r).log[h])
  {
    var o := Now(w.o, r);
    HeadIsOldest(o, webhook);
    assert Aged(o.clock, o.log[h]);
    GainIsDue(o, o.log[h]);
  }

  lemma StartedFlight(n: World, v: World, webhook: nat, h: nat)
    requires DeliveryInv(n) && h < |n.o.log| && IsPending(n.o.log[h]) && n.o.log[h].webhook == webhook
    requires !Retractable(n, n.o.log[h]) && NoneWaits(n.o.log, webhook, h)
    requires v == n.(flight := n.flight[webhook := Flight(h, n.o.log[h])])
    ensures DeliveryInv(v)
  {
    SameRowsOk(n, v);
    forall id | id in v.flight
      ensures FlightOk(v, id)
    {
      if id != webhook { assert FlightOk(n, id); }
    }
  }

  /** Only the flight's own row has its id. */
  lemma OnlyRow(w: World, webhook: nat, i: nat)
    requires DeliveryInv(w) && webhook in w.flight && i < |w.o.log| && Stored(w.o.log[i])
    ensures w.o.log[i].id == w.flight[webhook].row.id <==> i == w.flight[webhook].at
  {
    assert FlightOk(w, webhook);
  }

  /** The flight's row alone changes: it is done, or waits for its next attempt. */
  ghost predicate Landed(w: World, v: World, webhook: nat)
    requires webhook in w.flight
  {
    var at := w.flight[webhook].at;
    && v == w.(o := v.o, flight := w.flight - {webhook}) && v.o.clock == w.o.clock && |v.o.log| == |w.o.log|
       && at < |v.o.log|
    && (forall i :: 0 <= i < |v.o.log| && i != at ==> v.o.log[i] == w.o.log[i])
    && (exists s: Status, n: nat, t: int ::
         !s.Withdrawn?
         && v.o.log[at] == w.o.log[at].(status := s, attempts := n, nextAt := t))
  }

  lemma LandedInv(w: World, v: World, webhook: nat)
    requires DeliveryInv(w) && Base(v) && webhook in w.flight && Landed(w, v, webhook) && !w.checking
    ensures DeliveryInv(v)
  {
    var at := w.flight[webhook].at;
    assert FlightOk(w, webhook);
    forall j: nat | j < |v.o.log| && Done(v.o.log[j])
      ensures NoneWaits(v.o.log, v.o.log[j].webhook, j)
    {
      if j != at { assert Done(w.o.log[j]); }
      WaitsLess(w.o.log, v.o.log, v.o.log[j].webhook, j);
    }
    forall id | id in v.flight
      ensures FlightOk(v, id)
    {
      assert FlightOk(w, id);
      WaitsLess(w.o.log, v.o.log, id, w.flight[id].at);
    }
    forall i | 0 <= i < |v.o.log|
      ensures Aged(v.o.clock, v.o.log[i])
    {
      assert Aged(w.o.clock, w.o.log[i]);
    }
  }

  /** The creation time is read from the flight's own row. */
  lemma {:induction false} CreatedIs(log: Log, at: nat, n: nat)
    requires at < n <= |log| && Stored(log[at])
    requires forall i :: 0 <= i < |log| && Stored(log[i]) && log[i].id == log[at].id ==> i == at
    ensures CreatedAtOf(log[..n], log[at].id) == Some(log[at].createdAt)
  {
    assert log[..n][n - 1] == log[n - 1];
    if at < n - 1 {
      assert log[..n][..n - 1] == log[..n - 1];
      CreatedIs(log, at, n - 1);
    }
  }

  lemma FlightCreated(w: World, webhook: nat)
    requires DeliveryInv(w) && webhook in w.flight
    ensures FlightOk(w, webhook)
    ensures CreatedAtOf(w.o.log, w.flight[webhook].row.id) == Some(w.o.log[w.flight[webhook].at].createdAt)
  {
    assert FlightOk(w, webhook);
    forall i: nat | i < |w.o.log| && Stored(w.o.log[i]) && w.o.log[i].id == w.flight[webhook].row.id
      ensures i == w.flight[webhook].at
    {
      OnlyRow(w, webhook, i);
    }
    CreatedIs(w.o.log, w.flight[webhook].at, |w.o.log|);
    assert w.o.log[..|w.o.log|] == w.o.log;
  }

  /** What the end of an attempt makes of its row. */
  function LandedRow(row: Row, outcome: Outcome, r: Reading): Row {
    match outcome
    case Aborted => row
    case Delivered => row.(status := Sent(r.wall), attempts := row.attempts + 1)
    case Refused =>
      if r.wall - row.createdAt >= GIVE_UP_AFTER_MS then row.(status := Failed(r.wall), attempts := row.attempts + 1)
      else row.(attempts := row.attempts + 1, nextAt := r.wall + RetryDelay(row.attempts + 1))
  }

  /** The statements at the end of an attempt change the flight's row and no other. */
  lemma FinishRow(n: World, webhook: nat, outcome: Outcome, r: Reading, i: nat)
    requires DeliveryInv(n) && webhook in n.flight && n.o.clock.wall == r.wall && n.o.clock.mono == r.mono
    requires !outcome.Aborted? && i < |n.o.log|
    ensures var f, p := n.flight[webhook], Landing(n, webhook, outcome, r);
            |p| == |n.o.log| && p[i] == if i == f.at then LandedRow(n.o.log[i], outcome, r) else n.o.log[i]
  {
    FlightCreated(n, webhook);
    if Stored(n.o.log[i]) { OnlyRow(n, webhook, i); }
  }

  function Landing(n: World, webhook: nat, outcome: Outcome, r: Reading): Log
    requires webhook in n.flight && !outcome.Aborted?
  {
    var row := n.flight[webhook].row;
    var created := CreatedAtOf(n.o.log, row.id);
    if outcome.Delivered? then MarkSent(n.o.log, row.id, r.wall)
    else if r.wall - (if created.Some? then created.value else row.createdAt) >= GIVE_UP_AFTER_MS
    then MarkGivenUp(n.o.log, row.id, r.wall)
    else MarkAttemptFailed(n.o.log, row.id, r.wall + RetryDelay(row.attempts + 1))
  }

  lemma FinishIs(w: World, webhook: nat, outcome: Outcome, r: Reading)
    requires DeliveryInv(w) && Enabled(w, Finish(webhook, outcome, r)) && !outcome.Aborted?
    ensures var n, v := w.(o := Now(w.o, r)), Next(w, Finish(webhook, outcome, r));
            && DeliveryInv(n) && FlightOk(n, webhook) && Landed(n, v, webhook)
            && v.o.log[w.flight[webhook].at] == LandedRow(n.o.log[w.flight[webhook].at], outcome, r)
  {
    var n, v := w.(o := Now(w.o, r)), Next(w, Finish(webhook, outcome, r));
    TickInv(w, r);
    assert FlightOk(n, webhook);
    var at := w.flight[webhook].at;
    assert v.o.log == Landing(n, webhook, outcome, r);
    FinishRow(n, webhook, outcome, r, at);
    forall i: nat | i < |n.o.log| && i != at
      ensures v.o.log[i] == n.o.log[i]
    {
      FinishRow(n, webhook, outcome, r, i);
    }
    var x := LandedRow(n.o.log[at], outcome, r);
    assert v.o.log[at] == n.o.log[at].(status := x.status, attempts := x.attempts, nextAt := x.nextAt);
  }

  lemma FinishInv(w: World, webhook: nat, outcome: Outcome, r: Reading)
    requires DeliveryInv(w) && Enabled(w, Finish(webhook, outcome, r))
    ensures DeliveryInv(Next(w, Finish(webhook, outcome, r)))
  {
    var v := Next(w, Finish(webhook, outcome, r));
    StepBase(w, Finish(webhook, outcome, r));
    if outcome.Aborted? {
      forall id | id in v.flight
        ensures FlightOk(v, id)
      {
        assert FlightOk(w, id);
      }
    } else {
      FinishIs(w, webhook, outcome, r);
      LandedInv(w.(o := Now(w.o, r)), v, webhook);
    }
  }

  lemma RestartOrder(w: World, hooks: seq<Webhook>, r: Reading)
    requires InOrder(w.o.log) && TableOk(w.o)
    ensures InOrder(Restarted(w, hooks, r).o.log)
  {
    var v := Restarted(w, hooks, r);
    forall i | 0 <= i < |w.o.log|
      ensures w.o.log[i].status.Pending? ==> IsPending(w.o.log[i])
    {
      assert Aged(w.o.clock, w.o.log[i]);
    }
    forall j: nat | j < |v.o.log| && Done(v.o.log[j])
      ensures NoneWaits(v.o.log, v.o.log[j].webhook, j)
    {
      if Done(w.o.log[j]) { WaitsLess(w.o.log, v.o.log, v.o.log[j].webhook, j); }
    }
  }

  lemma RestartInv(w: World, s: Step)
    requires DeliveryInv(w) && s.Restart? && Enabled(w, s)
    ensures DeliveryInv(Next(w, s))
  {
    StepBase(w, s);
    StepTable(w, s);
    RestartOrder(w, s.hooks, s.r);
  }

  /** The rows that a death in the middle of a decision leaves. */
  lemma PartlyCheckRows(w: World, s: Step, told: Option<nat>)
    requires Base(w) && Decides(w, s) && (told.Some? ==> told.value <= |w.hooks|)
    ensures CheckRows(w, Partly(w, s, told).o.log)
  {
    assert CheckRows(w, w.o.log);
    if told.Some? && w.hooks != [] {
      var v, firsts := Partly(w, s, told), w.hooks[..told.value];
      FirstsArePart(w.hooks, told.value);
      if s.Raise? {
        var a := Raising(w, s);
        PartlyRaisedIs(w, s, told.value);
        WithdrawnRows(w, a);
        QueuedRows(w, LeftByRaise(w.o.log, w.hooks, w.alerts + [a], a), v.o.log, firsts, Raised, a);
      } else {
        var a := v.alerts[Clearing(w, s).0];
        ToldClearedIs(w.o, w.hooks, firsts, a, s.clock);
        QueuedRows(w, w.o.log, v.o.log, firsts, Cleared, a);
      }
    }
  }

  lemma CrashInv(w: World, s: Step)
    requires DeliveryInv(w) && s.Crash? && Enabled(w, s)
    ensures DeliveryInv(Next(w, s))
  {
    var u := Partly(w, s.during, s.told);
    StepBase(w, s);
    StepTable(w, s);
    PartlyCheckRows(w, s.during, s.told);
    PartlyOk(w, s.during, s.told);
    CheckRowsOrder(w, u.o.log);
    RestartOrder(u, s.hooks, s.r);
  }

  lemma CheckRowsOrder(w: World, p: Log)
    requires InOrder(w.o.log) && CheckRows(w, p)
    ensures InOrder(p)
  {
    forall i | 0 <= i < |w.o.log|
      ensures Settles(w.o.log[i], p[i]) && (Done(p[i]) ==> Done(w.o.log[i]))
    {
      assert CheckRow(w, w.o.log[i], p[i]);
    }
    OrderOn(w.o.log, p);
  }

  lemma StepInv(w: World, s: Step)
    requires DeliveryInv(w) && Enabled(w, s) && Calm(w, s, CHANGED_CLEAR_DELAY_MS)
    ensures DeliveryInv(Next(w, s))
  {
    match s
    case BeginCheck(_) => BoundaryInv(w, s);
    case EndCheck => BoundaryInv(w, s);
    case Close(_, _, _) => ClearInv(w, s);
    case Clear(_, _) => ClearInv(w, s);
    case Raise(_, _, _, _) => RaiseInv(w, s);
    case Start(webhook, r) => StartInv(w, webhook, r);
    case Finish(webhook, outcome, r) => FinishInv(w, webhook, outcome, r);
    case Tick(r) => TickInv(w, r);
    case Prune(before) => PruneInv(w, before);
    case Restart(_, _) => RestartInv(w, s);
    case Crash(_, _, _, _) => CrashInv(w, s);
  }

  lemma {:induction false} PlayInv(w: World, steps: seq<Step>)
    requires DeliveryInv(w) && Runs(w, steps) && CalmRuns(w, steps, CHANGED_CLEAR_DELAY_MS)
    ensures DeliveryInv(Play(w, steps))
    decreases |steps|
  {
    if steps != [] {
      StepInv(w, steps[0]);
      PlayInv(Next(w, steps[0]), steps[1..]);
    }
  }

  /** Once a row is sent, failed or being delivered, every older row of its webhook is sent, failed or withdrawn. */
  predicate FirstInFirstOut(w: World) {
    forall i, j ::
      0 <= i < j < |w.o.log| && w.o.log[i].webhook == w.o.log[j].webhook && (Done(w.o.log[j]) || InFlight(w, j)) ==>
        !w.o.log[i].status.Pending?
  }

  predicate InFlight(w: World, j: int)
    requires 0 <= j < |w.o.log|
  {
    w.o.log[j].webhook in w.flight && w.flight[w.o.log[j].webhook].at == j
  }

  /** First in, first out, in every run in which the clock does not gain an edit's delay inside its check. */
  lemma DeliveredInOrder(t: int, r: Reading, hooks: seq<Webhook>, steps: seq<Step>)
    requires ValidHooks(hooks) && Runs(Fresh(t, r, hooks), steps)
             && CalmRuns(Fresh(t, r, hooks), steps, CHANGED_CLEAR_DELAY_MS)
    ensures FirstInFirstOut(Play(Fresh(t, r, hooks), steps))
  {
    PlayInv(Fresh(t, r, hooks), steps);
    InvIsOrder(Play(Fresh(t, r, hooks), steps));
  }

  lemma InvIsOrder(w: World)
    requires DeliveryInv(w)
    ensures FirstInFirstOut(w)
  {
    forall i, j | 0 <= i < j < |w.o.log| && w.o.log[i].webhook == w.o.log[j].webhook
        && (Done(w.o.log[j]) || InFlight(w, j))
      ensures !w.o.log[i].status.Pending?
    {
      if InFlight(w, j) { assert FlightOk(w, w.o.log[j].webhook); }
    }
  }

  /**
   The row of a refused delivery counts one more attempt; it is given up if and only if its true age and the jumps
   ignored since it was queued make six hours, and otherwise retried after that attempt's delay.
   */
  predicate GivenUpByAge(w: World, webhook: nat, r: Reading)
    requires Enabled(w, Finish(webhook, Refused, r))
  {
    var v, f := Next(w, Finish(webhook, Refused, r)), w.flight[webhook];
    && f.at < |v.o.log| && f.at < |w.o.log|
    && var row := v.o.log[f.at];
       && row.attempts == w.o.log[f.at].attempts + 1
       && (row.status.Failed? <==> (r.mono - row.born) + (v.o.clock.ignored - row.skipped) >= GIVE_UP_AFTER_MS)
       && (!row.status.Failed? ==> row.status.Pending? && row.nextAt == r.wall + RetryDelay(row.attempts))
  }

  /** Whichever row a refusal gives up has made its six hours of true age. */
  ghost predicate NoneEarly(w: World, webhook: nat, r: Reading)
    requires Enabled(w, Finish(webhook, Refused, r))
  {
    var v := Next(w, Finish(webhook, Refused, r));
    forall i ::
      0 <= i < |w.o.log| && i < |v.o.log| && !w.o.log[i].status.Failed? && v.o.log[i].status.Failed? ==>
        (r.mono - v.o.log[i].born) + (v.o.clock.ignored - v.o.log[i].skipped) >= GIVE_UP_AFTER_MS
  }

  lemma GivesUpByTrueAge(t: int, r0: Reading, hooks: seq<Webhook>, steps: seq<Step>, webhook: nat, r: Reading)
    requires ValidHooks(hooks) && Runs(Fresh(t, r0, hooks), steps)
             && CalmRuns(Fresh(t, r0, hooks), steps, CHANGED_CLEAR_DELAY_MS)
    requires Enabled(Play(Fresh(t, r0, hooks), steps), Finish(webhook, Refused, r))
    ensures GivenUpByAge(Play(Fresh(t, r0, hooks), steps), webhook, r)
    ensures NoneEarly(Play(Fresh(t, r0, hooks), steps), webhook, r)
  {
    PlayInv(Fresh(t, r0, hooks), steps);
    InvGivesUp(Play(Fresh(t, r0, hooks), steps), webhook, r);
    InvNoneEarly(Play(Fresh(t, r0, hooks), steps), webhook, r);
  }

  lemma InvNoneEarly(w: World, webhook: nat, r: Reading)
    requires DeliveryInv(w) && Enabled(w, Finish(webhook, Refused, r))
    ensures NoneEarly(w, webhook, r)
  {
    InvGivesUp(w, webhook, r);
    FinishIs(w, webhook, Refused, r);
    NowIsSame(w.o, r);
    var n, v, at := Now(w.o, r), Next(w, Finish(webhook, Refused, r)), w.flight[webhook].at;
    forall i | 0 <= i < |w.o.log| && i != at
      ensures v.o.log[i].status == w.o.log[i].status
    {
      assert Same(w.o.log[i], n.log[i]) && v.o.log[i] == n.log[i];
    }
  }

  lemma InvGivesUp(w: World, webhook: nat, r: Reading)
    requires DeliveryInv(w) && Enabled(w, Finish(webhook, Refused, r))
    ensures GivenUpByAge(w, webhook, r)
  {
    FinishIs(w, webhook, Refused, r);
    var n, at := Now(w.o, r), w.flight[webhook].at;
    assert FlightOk(w, webhook);
    NowIsSame(w.o, r);
    assert Same(w.o.log[at], n.log[at]);
    assert Aged(n.clock, n.log[at]);
  }

  // ---- settled for good ------------------------------------------------------------------------------------

  /** A row that is sent, failed or withdrawn is so for good. */
  ghost predicate Settled(log: Log, p: Log) {
    |p| >= |log| && forall i :: 0 <= i < |log| && !log[i].status.Pending? ==> p[i].status == log[i].status
  }

  lemma FinishSettles(w: World, webhook: nat, outcome: Outcome, r: Reading)
    requires DeliveryInv(w) && Enabled(w, Finish(webhook, outcome, r))
    ensures Settled(w.o.log, Next(w, Finish(webhook, outcome, r)).o.log)
  {
    if !outcome.Aborted? {
      FinishIs(w, webhook, outcome, r);
      assert FlightOk(w, webhook);
      NowIsSame(w.o, r);
    }
  }

  lemma CheckSettles(w: World, p: Log)
    requires CheckRows(w, p)
    ensures Settled(w.o.log, p)
  {
    forall i | 0 <= i < |w.o.log| && !w.o.log[i].status.Pending?
      ensures p[i].status == w.o.log[i].status
    {
      assert CheckRow(w, w.o.log[i], p[i]);
    }
  }

  lemma StepSettles(w: World, s: Step)
    requires DeliveryInv(w) && Enabled(w, s)
    ensures Settled(w.o.log, Next(w, s).o.log)
  {
    match s
    case Finish(webhook, outcome, r) => FinishSettles(w, webhook, outcome, r);
    case Close(_, _, _) => ClearCheckRows(w, s); CheckSettles(w, Next(w, s).o.log);
    case Clear(_, _) => ClearCheckRows(w, s); CheckSettles(w, Next(w, s).o.log);
    case Raise(_, _, _, _) => RaiseCheckRows(w, s); CheckSettles(w, Next(w, s).o.log);
    case Start(_, r) => NowIsSame(w.o, r);
    case Tick(r) => NowIsSame(w.o, r);
    case Restart(hooks, r) => RestartSettles(w, hooks, r);
    case Crash(_, _, _, _) => CrashSettles(w, s);
    case _ =>
  }

  lemma RestartSettles(w: World, hooks: seq<Webhook>, r: Reading)
    ensures Settled(w.o.log, Restarted(w, hooks, r).o.log)
  {
  }

  lemma CrashSettles(w: World, s: Step)
    requires DeliveryInv(w) && s.Crash? && Enabled(w, s)
    ensures Settled(w.o.log, Next(w, s).o.log)
  {
    var u := Partly(w, s.during, s.told);
    PartlyCheckRows(w, s.during, s.told);
    CheckSettles(w, u.o.log);
    RestartSettles(u, s.hooks, s.r);
  }

  lemma {:induction false} StaysSettled(w: World, steps: seq<Step>, i: nat)
    requires DeliveryInv(w) && Runs(w, steps) && CalmRuns(w, steps, CHANGED_CLEAR_DELAY_MS)
    requires i < |w.o.log| && !w.o.log[i].status.Pending?
    ensures var v := Play(w, steps); i < |v.o.log| && v.o.log[i].status == w.o.log[i].status
    decreases |steps|
  {
    if steps != [] {
      StepSettles(w, steps[0]);
      StepInv(w, steps[0]);
      StaysSettled(Next(w, steps[0]), steps[1..], i);
    }
  }

  /** From any point of such a run to any later one, a row sent, failed or withdrawn is never anything else. */
  lemma SettledForGood(t: int, r: Reading, hooks: seq<Webhook>, first: seq<Step>, more: seq<Step>, i: nat)
    requires ValidHooks(hooks) && Runs(Fresh(t, r, hooks), first)
             && CalmRuns(Fresh(t, r, hooks), first, CHANGED_CLEAR_DELAY_MS)
    requires Runs(Play(Fresh(t, r, hooks), first), more)
             && CalmRuns(Play(Fresh(t, r, hooks), first), more, CHANGED_CLEAR_DELAY_MS)
    requires i < |Play(Fresh(t, r, hooks), first).o.log| && !Play(Fresh(t, r, hooks), first).o.log[i].status.Pending?
    ensures var w := Play(Fresh(t, r, hooks), first); var v := Play(w, more);
            i < |v.o.log| && v.o.log[i].status == w.o.log[i].status
  {
    PlayInv(Fresh(t, r, hooks), first);
    StaysSettled(Play(Fresh(t, r, hooks), first), more, i);
  }
}
