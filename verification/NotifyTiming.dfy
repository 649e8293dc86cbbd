/** The bound on the clock that delivery in order and giving up by age need is exact. */
module NotifyTiming {
  import opened Results
  import opened Outbox
  import opened Notifications
  import opened NotifySense
  import opened NotifyTable
  import opened NotifyDelivery

  ghost predicate Reaches(start: World, w: World, gain: int) {
    exists steps :: Runs(start, steps) && CalmRuns(start, steps, gain) && Play(start, steps) == w
  }

  lemma {:induction false} CalmOn(w: World, steps: seq<Step>, s: Step, gain: int)
    requires Runs(w, steps) && CalmRuns(w, steps, gain) && Runs(w, steps + [s]) && Calm(Play(w, steps), s, gain)
    ensures CalmRuns(w, steps + [s], gain)
    decreases |steps|
  {
    if steps == [] {
      assert (steps + [s])[0] == s && (steps + [s])[1..] == [];
    } else {
      assert (steps + [s])[1..] == steps[1..] + [s];
      CalmOn(Next(w, steps[0]), steps[1..], s, gain);
    }
  }

  lemma Hop(start: World, w: World, s: Step, v: World, gain: int)
    requires Reaches(start, w, gain) && Enabled(w, s) && Calm(w, s, gain) && Next(w, s) == v
    ensures Reaches(start, v, gain)
  {
    var steps :| Runs(start, steps) && CalmRuns(start, steps, gain) && Play(start, steps) == w;
    RunsOn(start, steps, s);
    CalmOn(start, steps, s, gain);
  }

  // An edit's clear is queued for two webhooks; the clock jumps 30 s, too little to be followed, and the first
  // webhook's lane takes it up; then the alert opens again with another message.
  const H1: Webhook := Webhook(1, {Cleared}, Warning)
  const H2: Webhook := Webhook(2, {Raised, Cleared}, Warning)
  const HOOKS: seq<Webhook> := [H1, H2]
  const Y: Watch := Watch(0, 0)
  const EARLY: Reading := Reading(0, 0)
  const LATE: Reading := Reading(CHANGED_CLEAR_DELAY_MS, 0)
  const BEFORE: Clock := Clock(0, 0, 0)
  const AFTER: Clock := Clock(CHANGED_CLEAR_DELAY_MS, 0, CHANGED_CLEAR_DELAY_MS)

  const OPEN: Alert := Alert(0, Y, Warning, 0, 1, None, Condition)
  const CLOSED: Alert := Alert(0, Y, Warning, 0, 1, Some(2), RuleChanged)
  const AGAIN: Alert := Alert(1, Y, Warning, 1, 2, None, Condition)

  const RAISE: Row := Row(1, 2, 0, Raised, Y, Pending, false, 0, 0, 0, 0, 0)
  const CLEAR1: Row := Row(2, 1, 0, Cleared, Y, Pending, false, 0, CHANGED_CLEAR_DELAY_MS, 0, 0, 0)
  const CLEAR2: Row := Row(3, 2, 0, Cleared, Y, Pending, false, 0, CHANGED_CLEAR_DELAY_MS, 0, 0, 0)
  /** It has the id of the clear that was withdrawn while in flight. */
  const RAISE2: Row :=
    Row(2, 2, 1, Raised, Y, Pending, false, 0, CHANGED_CLEAR_DELAY_MS, CHANGED_CLEAR_DELAY_MS, 0,
        CHANGED_CLEAR_DELAY_MS)

  const START: World := Fresh(0, EARLY, HOOKS)
  const FIRST: World := World(HOOKS, Outbox([], BEFORE), [], 1, true, 0, map[], {}, map[])
  const RAISED: World := World(HOOKS, Outbox([RAISE], BEFORE), [OPEN], 1, true, 0, map[], {Y}, map[])
  const BETWEEN: World := World(HOOKS, Outbox([RAISE], BEFORE), [OPEN], 1, false, 0, map[], {Y}, map[])
  const SECOND: World := World(HOOKS, Outbox([RAISE], BEFORE), [OPEN], 2, true, 1, map[], {}, map[])
  const EDITED: World :=
    World(HOOKS, Outbox([RAISE, CLEAR1, CLEAR2], BEFORE), [CLOSED], 2, true, 1, map[Y := RuleChanged], {}, map[])
  const FLYING: World :=
    World(HOOKS, Outbox([RAISE, CLEAR1, CLEAR2], AFTER), [CLOSED], 2, true, 1, map[Y := RuleChanged], {},
        map[1 := Flight(1, CLEAR1)])
  const LOG: Log := [RAISE, CLEAR1.(status := Withdrawn), CLEAR2.(status := Withdrawn), RAISE2]
  const REUSED: World :=
    World(HOOKS, Outbox(LOG, AFTER), [CLOSED, AGAIN], 2, true, 1, map[Y := RuleChanged], {Y},
        map[1 := Flight(1, CLEAR1)])
  const LANDING: World := REUSED.(checking := false)

  lemma QueueTwo(o: Outbox, event: Event, a: Alert, nextAt: int, clock: nat -> Reading)
    ensures Queue(o, HOOKS, event, a, nextAt, clock) ==
            var one := if Wants(H1, event, a.severity) then Insert(o, H1, event, a, nextAt, clock(1)) else o;
            if Wants(H2, event, a.severity) then Insert(one, H2, event, a, nextAt, clock(2)) else one
  {
    assert HOOKS[..1] == [H1] && [H1][..0] == [];
    assert Queue(o, [], event, a, nextAt, clock) == o;
    assert Queue(o, [H1], event, a, nextAt, clock)
        == if Wants(H1, event, a.severity) then Insert(o, H1, event, a, nextAt, clock(1)) else o;
  }

  /** Reading the clock again at the same time changes nothing. */
  lemma NowAgain(o: Outbox, r: Reading)
    requires o.clock.wall == r.wall && o.clock.mono == r.mono
    ensures Now(o, r) == o
  {
    assert !IsJump(Jump(o.clock, r));
  }

  /** Queueing for both webhooks, or the second alone, at a time already read. */
  lemma QueueSecond(o: Outbox, a: Alert, r: Reading, row: Row)
    requires o.clock.wall == r.wall && o.clock.mono == r.mono && a.severity == Warning
    requires row == Row(NextId(o.log), 2, a.id, Raised, a.watch, Pending, false, 0, r.wall, r.wall, r.mono,
             o.clock.ignored)
    ensures Queue(Now(o, r), HOOKS, Raised, a, r.wall, Always(r)) == o.(log := o.log + [row])
  {
    NowAgain(o, r);
    QueueTwo(o, Raised, a, r.wall, Always(r));
  }

  lemma QueueBoth(o: Outbox, a: Alert, r: Reading, nextAt: int, one: Row, two: Row)
    requires o.clock.wall == r.wall && o.clock.mono == r.mono && a.severity == Warning
    requires one == Row(NextId(o.log), 1, a.id, Cleared, a.watch, Pending, false, 0, nextAt, r.wall, r.mono,
             o.clock.ignored)
    requires two == Row(NextId(o.log + [one]), 2, a.id, Cleared, a.watch, Pending, false, 0, nextAt, r.wall, r.mono,
             o.clock.ignored)
    ensures Queue(Now(o, r), HOOKS, Cleared, a, nextAt, Always(r)) == o.(log := o.log + [one] + [two])
  {
    NowAgain(o, r);
    QueueTwo(o, Cleared, a, nextAt, Always(r));
    NowAgain(o.(log := o.log + [one]), r);
  }

  lemma NotClosed(alerts: seq<Alert>, a: Alert)
    requires |alerts| == 1 && alerts[0].clearedAt.None?
    ensures ClosedByEdit(alerts, a).None?
  {
    assert alerts[..0] == [] && ClosedByEdit([], a).None?;
  }

  lemma FirstRaiseQueues()
    ensures OnRaised(Outbox([], BEFORE), HOOKS, [OPEN], OPEN, Always(EARLY)) == Outbox([RAISE], BEFORE)
  {
    NotClosed([OPEN], OPEN);
    assert NextId([]) == 1;
    QueueSecond(Outbox([], BEFORE), OPEN, EARLY, RAISE);
    assert [] + [RAISE] == [RAISE];
  }

  lemma FirstRaise()
    ensures Enabled(FIRST, Raise(Y, Warning, 0, Always(EARLY)))
            && Next(FIRST, Raise(Y, Warning, 0, Always(EARLY))) == RAISED
  {
    FirstRaiseQueues();
    var alerts: seq<Alert> := [];
    assert alerts + [OPEN] == [OPEN];
    assert OpenFor([], Y).None?;
    assert {} + {Y} == {Y};
  }

  lemma IdsOf()
    ensures NextId([RAISE]) == 2 && NextId([RAISE, CLEAR1]) == 3 && NextId(LOG[..3]) == 2
  {
    assert [RAISE][..0] == [] && [RAISE, CLEAR1][..1] == [RAISE];
    assert NextId([]) == 1;
    var w1, w2 := CLEAR1.(status := Withdrawn), CLEAR2.(status := Withdrawn);
    assert LOG[..3] == [RAISE, w1, w2] && [RAISE, w1, w2][..2] == [RAISE, w1] && [RAISE, w1][..1] == [RAISE];
    assert NextId([RAISE, w1]) == 2;
  }

  lemma EditQueues()
    ensures OnCleared(Outbox([RAISE], BEFORE), HOOKS, CLOSED, Always(EARLY)) == Outbox([RAISE, CLEAR1, CLEAR2], BEFORE)
  {
    EditIsQueued(Outbox([RAISE], BEFORE), CLOSED, EARLY);
    EditRows(Outbox([RAISE], BEFORE));
    InARow(RAISE, CLEAR1, CLEAR2);
  }

  lemma InARow<T>(x: T, y: T, z: T)
    ensures [x] + [y] + [z] == [x, y, z]
  {
  }

  lemma EditIsQueued(o: Outbox, a: Alert, r: Reading)
    requires a.clearedBy.RuleChanged?
    ensures OnCleared(o, HOOKS, a, Always(r))
            == Queue(Now(o, r), HOOKS, Cleared, a, r.wall + CHANGED_CLEAR_DELAY_MS, Always(r))
  {
  }

  lemma EditRows(o: Outbox)
    requires o == Outbox([RAISE], BEFORE)
    ensures Queue(Now(o, EARLY), HOOKS, Cleared, CLOSED, EARLY.wall + CHANGED_CLEAR_DELAY_MS, Always(EARLY))
            == o.(log := [RAISE] + [CLEAR1] + [CLEAR2])
  {
    IdsOf();
    assert [RAISE] + [CLEAR1] == [RAISE, CLEAR1];
    QueueBoth(o, CLOSED, EARLY, CHANGED_CLEAR_DELAY_MS, CLEAR1, CLEAR2);
  }

  lemma Edit()
    ensures Enabled(SECOND, Close(Y, RuleChanged, Always(EARLY)))
            && Next(SECOND, Close(Y, RuleChanged, Always(EARLY))) == EDITED
  {
    EditQueues();
    assert OpenFor([OPEN], Y) == Some(0);
    assert [OPEN][0 := CLOSED] == [CLOSED];
  }

  /** The clear is due, and taken up, inside the check. */
  lemma Fly(gain: int)
    requires gain > CHANGED_CLEAR_DELAY_MS
    ensures Enabled(EDITED, Start(1, LATE)) && Calm(EDITED, Start(1, LATE), gain)
            && Next(EDITED, Start(1, LATE)) == FLYING
  {
    EditIsLater();
    FirstHead([RAISE, CLEAR1, CLEAR2]);
    FlyFrom(EDITED, [RAISE, CLEAR1, CLEAR2], gain);
  }

  lemma EditIsLater()
    ensures Now(EDITED.o, LATE) == Outbox([RAISE, CLEAR1, CLEAR2], AFTER)
  {
  }

  lemma FirstHead(log: Log)
    requires log == [RAISE, CLEAR1, CLEAR2]
    ensures HeadOf(log, 1) == Some(1)
  {
    assert log[1] == CLEAR1 && IsPending(log[1]) && log[1].webhook == 1;
    assert log[0].webhook == 2 && log[2].webhook == 2;
  }

  lemma FlyFrom(w: World, log: Log, gain: int)
    requires Now(w.o, LATE) == Outbox(log, AFTER) && 1 !in w.flight && HeadOf(log, 1) == Some(1) && log[1] == CLEAR1
    requires gain > CHANGED_CLEAR_DELAY_MS && |log| == 3 && log[0].webhook != 1 && log[2].webhook != 1
    ensures Enabled(w, Start(1, LATE)) && Calm(w, Start(1, LATE), gain)
    ensures Next(w, Start(1, LATE)) == w.(o := Outbox(log, AFTER), flight := w.flight[1 := Flight(1, CLEAR1)])
  {
  }

  lemma ReopenLeaves()
    ensures LeftByRaise([RAISE, CLEAR1, CLEAR2], HOOKS, [CLOSED, AGAIN], AGAIN) == LOG[..3]
    ensures !Reopens([CLOSED, AGAIN], AGAIN)
  {
    assert [CLOSED, AGAIN][..1] == [CLOSED] && ClosedFor(CLOSED, AGAIN) && !ClosedFor(AGAIN, AGAIN);
    assert ClosedByEdit([CLOSED], AGAIN) == Some(CLOSED);
    assert H1 in HOOKS && H2 in HOOKS;
    assert 1 in Reached(HOOKS, Warning) && 2 in Reached(HOOKS, Warning);
  }

  lemma RaisesAnew(o: Outbox, alerts: seq<Alert>, a: Alert, r: Reading)
    requires !Reopens(alerts, a)
    ensures OnRaised(o, HOOKS, alerts, a, Always(r)) ==
            Queue(Now(o.(log := LeftByRaise(o.log, HOOKS, alerts, a)), r), HOOKS, Raised, a, r.wall, Always(r))
  {
  }

  lemma ReopenQueues(log: Log, alerts: seq<Alert>, left: Log)
    requires LeftByRaise(log, HOOKS, alerts, AGAIN) == left && !Reopens(alerts, AGAIN) && NextId(left) == 2
    ensures OnRaised(Outbox(log, AFTER), HOOKS, alerts, AGAIN, Always(LATE)) == Outbox(left + [RAISE2], AFTER)
  {
    RaisesAnew(Outbox(log, AFTER), alerts, AGAIN, LATE);
    ReopenRow(left);
  }

  lemma ReopenRow(left: Log)
    requires NextId(left) == 2
    ensures Queue(Now(Outbox(left, AFTER), LATE), HOOKS, Raised, AGAIN, LATE.wall, Always(LATE))
            == Outbox(left + [RAISE2], AFTER)
  {
    QueueSecond(Outbox(left, AFTER), AGAIN, LATE, RAISE2);
  }

  lemma Reopen()
    ensures Enabled(FLYING, Raise(Y, Warning, 1, Always(LATE)))
            && Next(FLYING, Raise(Y, Warning, 1, Always(LATE))) == REUSED
  {
    ReopenLeaves();
    IdsOf();
    ReopenQueues([RAISE, CLEAR1, CLEAR2], [CLOSED, AGAIN], LOG[..3]);
    assert LOG[..3] + [RAISE2] == LOG;
    assert [CLOSED] + [AGAIN] == [CLOSED, AGAIN];
    assert OpenFor([CLOSED], Y).None?;
    assert {} + {Y} == {Y};
  }

  lemma ReachesEdited(gain: int)
    ensures Reaches(START, EDITED, gain)
  {
    assert Runs(START, []) && CalmRuns(START, [], gain) && Play(START, []) == START;
    Hop(START, START, BeginCheck(1), FIRST, gain);
    FirstRaise();
    Hop(START, FIRST, Raise(Y, Warning, 0, Always(EARLY)), RAISED, gain);
    Hop(START, RAISED, EndCheck, BETWEEN, gain);
    Hop(START, BETWEEN, BeginCheck(2), SECOND, gain);
    Edit();
    Hop(START, SECOND, Close(Y, RuleChanged, Always(EARLY)), EDITED, gain);
  }

  /** A run to the point where a delivery is in flight whose row is gone and whose id is another row's. */
  lemma ReachesLanding(gain: int)
    requires gain > CHANGED_CLEAR_DELAY_MS
    ensures Reaches(START, LANDING, gain)
  {
    ReachesEdited(gain);
    Fly(gain);
    Hop(START, EDITED, Start(1, LATE), FLYING, gain);
    Reopen();
    Hop(START, FLYING, Raise(Y, Warning, 1, Always(LATE)), REUSED, gain);
    Hop(START, REUSED, EndCheck, LANDING, gain);
  }

  // ---- exactly when --------------------------------------------------------------------------------------

  lemma FinishAgain(w: World, webhook: nat, outcome: Outcome, r: Reading)
    requires Enabled(w, Finish(webhook, outcome, r)) && w.o.clock.wall == r.wall && w.o.clock.mono == r.mono
    ensures outcome.Delivered? ==> Next(w, Finish(webhook, outcome, r)) ==
                                   w.(o := w.o.(log := MarkSent(w.o.log, w.flight[webhook].row.id, r.wall)),
                                       flight := w.flight - {webhook})
  {
    NowAgain(w.o, r);
  }

  lemma SentOne(log: Log, id: nat, at: int, k: nat)
    requires k < |log| && Stored(log[k]) && log[k].id == id
    requires forall i :: 0 <= i < |log| && i != k ==> !Stored(log[i]) || log[i].id != id
    ensures MarkSent(log, id, at) == log[k := SentRow(log[k], id, at)]
  {
  }

  lemma LogRows()
    ensures |LOG| == 4 && LOG[0] == RAISE && LOG[3] == RAISE2 && !Stored(LOG[1]) && !Stored(LOG[2])
  {
  }

  lemma Lands(w: World, v: World)
    requires Enabled(w, Finish(1, Delivered, LATE)) && w.o.clock.wall == LATE.wall && w.o.clock.mono == LATE.mono
    requires |w.o.log| == 4 && !Stored(w.o.log[1]) && !Stored(w.o.log[2]) && w.flight[1].row.id == 2
    requires Stored(w.o.log[0]) && w.o.log[0].id == 1 && Stored(w.o.log[3]) && w.o.log[3].id == 2
    requires v == w.(o := w.o.(log := w.o.log[3 := SentRow(w.o.log[3], 2, LATE.wall)]), flight := w.flight - {1})
    ensures Next(w, Finish(1, Delivered, LATE)) == v
  {
    SentOne(w.o.log, 2, LATE.wall, 3);
    FinishAgain(w, 1, Delivered, LATE);
  }

  /** Another webhook's row has the id of the row in flight, which is gone, and an older one of that webhook waits. */
  predicate Overtaken(w: World) {
    && Enabled(w, Finish(1, Delivered, LATE)) && w.o.clock.wall == LATE.wall && w.o.clock.mono == LATE.mono
    && |w.o.log| == 4 && !Stored(w.o.log[1]) && !Stored(w.o.log[2]) && w.flight[1].row.id == 2 && w.flight[1].at == 1
    && Stored(w.o.log[0]) && w.o.log[0].status.Pending? && w.o.log[0].id == 1 && Stored(w.o.log[3])
       && w.o.log[3].id == 2
    && w.o.log[0].webhook == w.o.log[3].webhook
  }

  lemma LandingIsOvertaken()
    ensures Overtaken(LANDING)
  {
    LogRows();
  }

  /** The end of that delivery marks the other webhook's new raise sent, which never was, before its older one. */
  lemma JumpsTheQueue(w: World, gain: int) returns (v: World)
    requires Reaches(START, w, gain) && Overtaken(w)
    ensures Reaches(START, v, gain) && !FirstInFirstOut(v)
  {
    v := w.(o := w.o.(log := w.o.log[3 := SentRow(w.o.log[3], 2, LATE.wall)]), flight := w.flight - {1});
    Lands(w, v);
    Hop(START, w, Finish(1, Delivered, LATE), v, gain);
    assert Done(v.o.log[3]) && v.o.log[0].status.Pending?;
  }

  /** In order in every run whose clock gains less than `gain` on an edit's clear before a wake of its check. */
  ghost predicate AlwaysInOrder(gain: int) {
    forall t: int, r: Reading, hooks: seq<Webhook>, steps: seq<Step> ::
      ValidHooks(hooks) && Runs(Fresh(t, r, hooks), steps) && CalmRuns(Fresh(t, r, hooks), steps, gain) ==>
        FirstInFirstOut(Play(Fresh(t, r, hooks), steps))
  }

  /** A smaller bound allows fewer runs. */
  lemma {:induction false} CalmerRuns(w: World, steps: seq<Step>, gain: int, more: int)
    requires Runs(w, steps) && CalmRuns(w, steps, gain) && gain <= more
    ensures CalmRuns(w, steps, more)
    decreases |steps|
  {
    if steps != [] { CalmerRuns(Next(w, steps[0]), steps[1..], gain, more); }
  }

  lemma NotAlwaysInOrder(gain: int)
    requires gain > CHANGED_CLEAR_DELAY_MS
    ensures !AlwaysInOrder(gain)
  {
    ReachesLanding(gain);
    LandingIsOvertaken();
    var v := JumpsTheQueue(LANDING, gain);
    var steps :| Runs(START, steps) && CalmRuns(START, steps, gain) && Play(START, steps) == v;
    assert ValidHooks(HOOKS) && !FirstInFirstOut(Play(Fresh(0, EARLY, HOOKS), steps));
  }

  /** Delivery is in order in every run if and only if that gain stays below the delay of an edit's clear. */
  lemma InOrderExactly(gain: int)
    ensures AlwaysInOrder(gain) <==> gain <= CHANGED_CLEAR_DELAY_MS
  {
    if gain <= CHANGED_CLEAR_DELAY_MS {
      forall t: int, r: Reading, hooks: seq<Webhook>, steps: seq<Step>
        | ValidHooks(hooks) && Runs(Fresh(t, r, hooks), steps) && CalmRuns(Fresh(t, r, hooks), steps, gain)
        ensures FirstInFirstOut(Play(Fresh(t, r, hooks), steps))
      {
        CalmerRuns(Fresh(t, r, hooks), steps, gain, CHANGED_CLEAR_DELAY_MS);
        DeliveredInOrder(t, r, hooks, steps);
      }
    } else {
      NotAlwaysInOrder(gain);
    }
  }

  ghost predicate AlwaysCounted(gain: int) {
    forall t: int, r0: Reading, hooks: seq<Webhook>, steps: seq<Step>, webhook: nat, r: Reading ::
      ValidHooks(hooks) && Runs(Fresh(t, r0, hooks), steps) && CalmRuns(Fresh(t, r0, hooks), steps, gain)
      && Enabled(Play(Fresh(t, r0, hooks), steps), Finish(webhook, Refused, r)) ==>
        GivenUpByAge(Play(Fresh(t, r0, hooks), steps), webhook, r)
  }

  /** The refusal of a delivery whose row is gone is not counted with that row. */
  lemma RefusalForgotten(w: World, webhook: nat, r: Reading)
    requires Enabled(w, Finish(webhook, Refused, r)) && w.flight[webhook].at < |w.o.log|
             && !Stored(w.o.log[w.flight[webhook].at])
    ensures !GivenUpByAge(w, webhook, r)
  {
  }

  lemma NotAlwaysCounted(gain: int, w: World)
    requires Reaches(START, w, gain) && Overtaken(w)
    ensures !AlwaysCounted(gain)
  {
    RefusalForgotten(w, 1, LATE);
    var steps :| Runs(START, steps) && CalmRuns(START, steps, gain) && Play(START, steps) == w;
    assert ValidHooks(HOOKS) && !GivenUpByAge(Play(Fresh(0, EARLY, HOOKS), steps), 1, LATE);
  }

  /**
   A refusal is counted with its row, by its true age, in every run if and only if that gain stays below the delay.
   */
  lemma CountedExactly(gain: int)
    ensures AlwaysCounted(gain) <==> gain <= CHANGED_CLEAR_DELAY_MS
  {
    if gain <= CHANGED_CLEAR_DELAY_MS {
      forall t: int, r0: Reading, hooks: seq<Webhook>, steps: seq<Step>, webhook: nat, r: Reading
        | ValidHooks(hooks) && Runs(Fresh(t, r0, hooks), steps) && CalmRuns(Fresh(t, r0, hooks), steps, gain)
          && Enabled(Play(Fresh(t, r0, hooks), steps), Finish(webhook, Refused, r))
        ensures GivenUpByAge(Play(Fresh(t, r0, hooks), steps), webhook, r)
      {
        CalmerRuns(Fresh(t, r0, hooks), steps, gain, CHANGED_CLEAR_DELAY_MS);
        GivesUpByTrueAge(t, r0, hooks, steps, webhook, r);
      }
    } else {
      ReachesLanding(gain);
      LandingIsOvertaken();
      NotAlwaysCounted(gain, LANDING);
    }
  }

  // ---- settled exactly when ------------------------------------------------------------------------------

  /** The rows of the run above as far as the second webhook's lane goes on with them. */
  predicate Waiting(w: World) {
    && Overtaken(w) && 2 !in w.flight && !w.checking && w.o.clock == AFTER
    && IsPending(w.o.log[0]) && IsPending(w.o.log[3]) && w.o.log[0].webhook == 2 && w.o.log[0].nextAt == 0
    && w.o.log[3].nextAt == LATE.wall && w.o.log[3].createdAt == LATE.wall
    && w.o.log[3].born == LATE.mono && w.o.log[3].skipped == AFTER.ignored
  }

  lemma LandingIsWaiting()
    ensures Waiting(LANDING)
  {
    LandingIsOvertaken();
    LogRows();
  }

  /** A lane's look at a time already read takes up the head if it is due. */
  lemma StartAgain(w: World, webhook: nat, h: nat, r: Reading, gain: int)
    requires webhook !in w.flight && !w.checking && w.o.clock.wall == r.wall && w.o.clock.mono == r.mono
    requires HeadOf(w.o.log, webhook) == Some(h) && r.wall - MAX_RETRY_MS <= w.o.log[h].nextAt <= r.wall
    ensures Next(w, Start(webhook, r)) == w.(flight := w.flight[webhook := Flight(h, w.o.log[h])])
    ensures Calm(w, Start(webhook, r), gain)
  {
    NowAgain(w.o, r);
  }

  lemma TakesUp(start: World, w: World, webhook: nat, h: nat, r: Reading, gain: int, u: World)
    requires Reaches(start, w, gain) && Enabled(w, Start(webhook, r)) && Calm(w, Start(webhook, r), gain)
    requires Next(w, Start(webhook, r)) == u
    ensures Reaches(start, u, gain)
  {
    Hop(start, w, Start(webhook, r), u, gain);
  }

  /** The row in flight has an id of its own: the end of its delivery marks it sent. */
  lemma DeliversOwn(start: World, u: World, webhook: nat, k: nat, r: Reading, gain: int) returns (v: World)
    requires Reaches(start, u, gain) && !u.checking && u.o.clock.wall == r.wall && u.o.clock.mono == r.mono
    requires webhook in u.flight && k < |u.o.log| && Stored(u.o.log[k]) && u.flight[webhook].row.id == u.o.log[k].id
    requires forall i :: 0 <= i < |u.o.log| && i != k ==> !Stored(u.o.log[i]) || u.o.log[i].id != u.o.log[k].id
    ensures Reaches(start, v, gain)
    ensures v == u.(o := u.o.(log := u.o.log[k := SentRow(u.o.log[k], u.o.log[k].id, r.wall)]),
            flight := u.flight - {webhook})
  {
    v := u.(o := u.o.(log := u.o.log[k := SentRow(u.o.log[k], u.o.log[k].id, r.wall)]), flight := u.flight - {webhook});
    FinishAgain(u, webhook, Delivered, r);
    SentOne(u.o.log, u.o.log[k].id, r.wall, k);
    Hop(start, u, Finish(webhook, Delivered, r), v, gain);
  }

  /** The lane delivers its head, at place `k`, and no other row has its id. */
  lemma DeliversHead(start: World, w: World, webhook: nat, k: nat, r: Reading, gain: int) returns (v: World)
    requires Reaches(start, w, gain) && webhook !in w.flight && !w.checking && w.o.clock.wall == r.wall
             && w.o.clock.mono == r.mono
    requires HeadOf(w.o.log, webhook) == Some(k) && r.wall - MAX_RETRY_MS <= w.o.log[k].nextAt <= r.wall
    requires forall i :: 0 <= i < |w.o.log| && i != k ==> !Stored(w.o.log[i]) || w.o.log[i].id != w.o.log[k].id
    ensures Reaches(start, v, gain)
    ensures v == w.(o := w.o.(log := w.o.log[k := SentRow(w.o.log[k], w.o.log[k].id, r.wall)]), flight := v.flight)
    ensures v.flight == w.flight[webhook := Flight(k, w.o.log[k])] - {webhook}
  {
    var u := w.(flight := w.flight[webhook := Flight(k, w.o.log[k])]);
    StartAgain(w, webhook, k, r, gain);
    TakesUp(start, w, webhook, k, r, gain, u);
    v := DeliversOwn(start, u, webhook, k, r, gain);
  }

  /** Both of its rows are sent while the first webhook's delivery is still under way. */
  lemma BothSent(w: World, gain: int) returns (v: World)
    requires Reaches(START, w, gain) && Waiting(w)
    ensures Reaches(START, v, gain) && !v.checking && v.o.clock == AFTER && |v.o.log| == 4
    ensures v.o.log[3] == w.o.log[3].(status := Sent(LATE.wall), attempts := w.o.log[3].attempts + 1)
    ensures 1 in v.flight && v.flight[1].row.id == 2 && forall i :: 0 <= i < 4 ==> !IsPending(v.o.log[i])
  {
    var h := HeadOf(w.o.log, 2);
    assert h == Some(0);
    var u := DeliversHead(START, w, 2, 0, LATE, gain);
    assert u.o.log[3] == w.o.log[3] && !IsPending(u.o.log[0]);
    var k := HeadOf(u.o.log, 2);
    assert k == Some(3);
    v := DeliversHead(START, u, 2, 3, LATE, gain);
  }

  /** A second later on the monotonic clock, while the wall clock has jumped six hours ahead. */
  const LATER: Reading := Reading(LATE.wall + GIVE_UP_AFTER_MS, 1000)

  lemma NothingShifts(log: Log, ms: int)
    requires forall i :: 0 <= i < |log| ==> !IsPending(log[i])
    ensures ShiftPending(log, ms) == log
  {
  }

  /** The refusal of the delivery then gives up the row that got its id: one that was sent, and is a second old. */
  lemma GivesUpTheSent(v: World)
    requires !v.checking && v.o.clock == AFTER && |v.o.log| == 4 && 1 in v.flight && v.flight[1].row.id == 2
    requires Stored(v.o.log[3]) && v.o.log[3].id == 2 && v.o.log[3].createdAt == LATE.wall && v.o.log[3].status.Sent?
    requires v.o.log[3].born == LATE.mono && v.o.log[3].skipped == AFTER.ignored
    requires forall i :: 0 <= i < 4 ==> !IsPending(v.o.log[i])
    ensures Enabled(v, Finish(1, Refused, LATER)) && !Settled(v.o.log, Next(v, Finish(1, Refused, LATER)).o.log)
    ensures !NoneEarly(v, 1, LATER)
  {
    var n := Now(v.o, LATER);
    assert IsJump(Jump(v.o.clock, LATER));
    NothingShifts(v.o.log, Jump(v.o.clock, LATER));
    assert n.log == v.o.log;
    assert CreatedAtOf(n.log, 2) == Some(LATE.wall);
    var p := Next(v, Finish(1, Refused, LATER)).o.log;
    assert p[3] == GivenUpRow(v.o.log[3], 2, LATER.wall);
  }

  /** No step changes what became of a row, in every run with that bound. */
  ghost predicate AlwaysSettled(gain: int) {
    forall t: int, r: Reading, hooks: seq<Webhook>, steps: seq<Step>, s: Step ::
      ValidHooks(hooks) && Runs(Fresh(t, r, hooks), steps) && CalmRuns(Fresh(t, r, hooks), steps, gain)
      && Enabled(Play(Fresh(t, r, hooks), steps), s) ==>
        Settled(Play(Fresh(t, r, hooks), steps).o.log, Next(Play(Fresh(t, r, hooks), steps), s).o.log)
  }

  lemma NotAlwaysSettled(gain: int, w: World)
    requires Reaches(START, w, gain) && Waiting(w)
    ensures !AlwaysSettled(gain)
  {
    var v := BothSent(w, gain);
    GivesUpTheSent(v);
    var steps :| Runs(START, steps) && CalmRuns(START, steps, gain) && Play(START, steps) == v;
    assert ValidHooks(HOOKS) && Enabled(Play(Fresh(0, EARLY, HOOKS), steps), Finish(1, Refused, LATER));
  }

  /** A row once sent, failed or withdrawn stays just so in every run if and only if that gain stays below the delay. */
  lemma SettledExactly(gain: int)
    ensures AlwaysSettled(gain) <==> gain <= CHANGED_CLEAR_DELAY_MS
  {
    if gain <= CHANGED_CLEAR_DELAY_MS {
      forall t: int, r: Reading, hooks: seq<Webhook>, steps: seq<Step>, s: Step
        | ValidHooks(hooks) && Runs(Fresh(t, r, hooks), steps) && CalmRuns(Fresh(t, r, hooks), steps, gain)
          && Enabled(Play(Fresh(t, r, hooks), steps), s)
        ensures Settled(Play(Fresh(t, r, hooks), steps).o.log, Next(Play(Fresh(t, r, hooks), steps), s).o.log)
      {
        CalmerRuns(Fresh(t, r, hooks), steps, gain, CHANGED_CLEAR_DELAY_MS);
        PlayInv(Fresh(t, r, hooks), steps);
        StepSettles(Play(Fresh(t, r, hooks), steps), s);
      }
    } else {
      ReachesLanding(gain);
      LandingIsWaiting();
      NotAlwaysSettled(gain, LANDING);
    }
  }

  // ---- given up early exactly when -----------------------------------------------------------------------

  /** No refusal gives up a row before its six hours, in every run with that bound. */
  ghost predicate AlwaysByAge(gain: int) {
    forall t: int, r0: Reading, hooks: seq<Webhook>, steps: seq<Step>, webhook: nat, r: Reading ::
      ValidHooks(hooks) && Runs(Fresh(t, r0, hooks), steps) && CalmRuns(Fresh(t, r0, hooks), steps, gain)
      && Enabled(Play(Fresh(t, r0, hooks), steps), Finish(webhook, Refused, r)) ==>
        NoneEarly(Play(Fresh(t, r0, hooks), steps), webhook, r)
  }

  lemma NotAlwaysByAge(gain: int, w: World)
    requires Reaches(START, w, gain) && Waiting(w)
    ensures !AlwaysByAge(gain)
  {
    var v := BothSent(w, gain);
    GivesUpTheSent(v);
    var steps :| Runs(START, steps) && CalmRuns(START, steps, gain) && Play(START, steps) == v;
    assert ValidHooks(HOOKS) && !NoneEarly(Play(Fresh(0, EARLY, HOOKS), steps), 1, LATER);
  }

  /** No row is given up before its six hours in every run if and only if that gain stays below the delay. */
  lemma GivenUpExactly(gain: int)
    ensures AlwaysByAge(gain) <==> gain <= CHANGED_CLEAR_DELAY_MS
  {
    if gain <= CHANGED_CLEAR_DELAY_MS {
      forall t: int, r0: Reading, hooks: seq<Webhook>, steps: seq<Step>, webhook: nat, r: Reading
        | ValidHooks(hooks) && Runs(Fresh(t, r0, hooks), steps) && CalmRuns(Fresh(t, r0, hooks), steps, gain)
          && Enabled(Play(Fresh(t, r0, hooks), steps), Finish(webhook, Refused, r))
        ensures NoneEarly(Play(Fresh(t, r0, hooks), steps), webhook, r)
      {
        CalmerRuns(Fresh(t, r0, hooks), steps, gain, CHANGED_CLEAR_DELAY_MS);
        GivesUpByTrueAge(t, r0, hooks, steps, webhook, r);
      }
    } else {
      ReachesLanding(gain);
      LandingIsWaiting();
      NotAlwaysByAge(gain, LANDING);
    }
  }
}
