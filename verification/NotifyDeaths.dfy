/** Two clears without a raise between them: exactly when the process can die before it has queued a raise. */
module NotifyDeaths {
  import opened Results
  import opened Outbox
  import opened Notifications
  import opened NotifySense
  import opened NotifyRestarts

  /**
   How far a raise got when the process died: `None` if only its alert row was written, else how many of the
   webhooks had their rows.
   */
  type Point = Option<nat>

  /** The process may die at any time and restart as it was, but in the middle of a raise only at these points. */
  function DiesAt(hooks: seq<Webhook>, points: Point -> bool): Step -> bool {
    (s: Step) => (s.Restart? || s.Crash? ==> s.hooks == hooks) && (s.Crash? && s.during.Raise? ==> points(s.told))
  }

  /** The webhook has its row. */
  predicate Late(hooks: seq<Webhook>, h: Webhook, told: Point) {
    told.Some? && told.value <= |hooks| && h in hooks[..told.value]
  }

  predicate Possible(hooks: seq<Webhook>, told: Point) { told.Some? ==> told.value <= |hooks| }

  ghost predicate AlwaysAlternate(hooks: seq<Webhook>, h: Webhook, points: Point -> bool) {
    forall t: int, r: Reading, steps: seq<Step>, watch: Watch ::
      Runs(Fresh(t, r, hooks), steps) && AllAre(steps, DiesAt(hooks, points)) ==>
        Alternates(Play(Fresh(t, r, hooks), steps).o.log, h.id, watch)
  }

  lemma {:induction false} LateLosesNone(w: World, steps: seq<Step>, h: Webhook, points: Point -> bool)
    requires Runs(w, steps) && AllAre(steps, DiesAt(w.hooks, points))
    requires forall told :: points(told) && Possible(w.hooks, told) ==> Late(w.hooks, h, told)
    ensures LosesNone(w, steps, h)
    decreases |steps|
  {
    if steps != [] {
      assert DiesAt(w.hooks, points)(steps[0]);
      SameHooks(w, steps[0]);
      LateLosesNone(Next(w, steps[0]), steps[1..], h, points);
    }
  }

  lemma SameHooks(w: World, s: Step)
    requires Enabled(w, s) && (s.Restart? || s.Crash? ==> s.hooks == w.hooks)
    ensures Next(w, s).hooks == w.hooks
  {
  }

  // ---- a raise that is lost ----------------------------------------------------------------------------------

  lemma FirstsMiss(hooks: seq<Webhook>, h: Webhook, n: nat, s: Severity)
    requires ValidHooks(hooks) && h in hooks && n <= |hooks| && h !in hooks[..n]
    ensures ValidHooks(hooks[..n]) && Misses(hooks[..n], h.id, s)
  {
    FirstsArePart(hooks, n);
    NotAnother(hooks[..n], hooks, h);
  }

  lemma LostAlert(u: World, hooks: seq<Webhook>, h: Webhook, watch: Watch, told: Point, r: Reading, n: nat)
    requires u.checking && u.decided == {} && u.closed == map[] && u.hooks == hooks && ValidHooks(hooks) && h in hooks
    requires Possible(hooks, told) && !Late(hooks, h, told) && Heard(u.o.log, h.id, watch, n)
    requires forall a :: a in u.alerts && a.watch == watch ==> a.clearedAt.Some? && a.clearedBy.Condition?
    ensures Decides(u, Raise(watch, h.minSeverity, 0, Always(r)))
    ensures Heard(Partly(u, Raise(watch, h.minSeverity, 0, Always(r)), told).o.log, h.id, watch, n)
  {
    if told.Some? { FirstsMiss(hooks, h, told.value, h.minSeverity); }
    MissedAlert(u, watch, h.minSeverity, if told.Some? then hooks[..told.value] else [], r, h.id, n);
  }

  lemma LostRun(start: World, w: World, hooks: seq<Webhook>, h: Webhook, watch: Watch, told: Point,
                points: Point -> bool, n: nat, r: Reading) returns (v: World)
    requires Gets(start, w, DiesAt(hooks, points)) && Resting(w, hooks, h.id, watch, n) && h in hooks
    requires points(told) && Possible(hooks, told) && !Late(hooks, h, told)
    ensures Gets(start, v, DiesAt(hooks, points)) && Alarmed(v, hooks, h.id, watch, h.minSeverity, n)
  {
    var ok, s := DiesAt(hooks, points), Raise(watch, h.minSeverity, 0, Always(r));
    var u := BeginRun(start, w, ok);
    LostAlert(u, hooks, h, watch, told, r, n);
    GetsNext(start, u, Crash(s, told, hooks, r), ok);
    v := Next(u, Crash(s, told, hooks, r));
    RestartHeard(Partly(u, s, told), hooks, r, h.id, watch, n);
  }

  /** Two alerts of which only the ends are told. */
  lemma NotAlways(hooks: seq<Webhook>, h: Webhook, points: Point -> bool, told: Point)
    requires ValidHooks(hooks) && h in hooks && Both(h) && points(told) && Possible(hooks, told)
             && !Late(hooks, h, told)
    ensures !AlwaysAlternate(hooks, h, points)
  {
    var r, watch, ok, s := Reading(0, 0), Watch(0, 0), DiesAt(hooks, points), h.minSeverity;
    var start := Fresh(0, r, hooks);
    assert Runs(start, []) && AllAre([], ok) && Play(start, []) == start;
    var lost := LostRun(start, start, hooks, h, watch, told, points, 0, r);
    var once := ClearRun(start, lost, ok, hooks, h.id, watch, s, 0, r);
    var again := LostRun(start, once, hooks, h, watch, told, points, 1, r);
    var v := ClearRun(start, again, ok, hooks, h.id, watch, s, 1, r);
    TwoWithoutRaise(v.o.log, h.id, watch);
    var steps :| Runs(start, steps) && AllAre(steps, ok) && Play(start, steps) == v;
    assert !Alternates(Play(Fresh(0, r, hooks), steps).o.log, h.id, watch);
  }

  /**
   With the same webhooks throughout, and a process that may die between any two statements, what a webhook subscribed
   to both events is told always makes sense if and only if no death falls between writing the row of an alert and
   queueing the webhook's raise of it.
   */
  lemma DeathsExactly(hooks: seq<Webhook>, h: Webhook, points: Point -> bool)
    requires ValidHooks(hooks) && h in hooks && Both(h)
    ensures AlwaysAlternate(hooks, h, points) <==>
              forall told :: points(told) && Possible(hooks, told) ==> Late(hooks, h, told)
  {
    if told :| points(told) && Possible(hooks, told) && !Late(hooks, h, told) {
      NotAlways(hooks, h, points, told);
    } else {
      forall t: int, r: Reading, steps: seq<Step>, watch: Watch
        | Runs(Fresh(t, r, hooks), steps) && AllAre(steps, DiesAt(hooks, points))
        ensures Alternates(Play(Fresh(t, r, hooks), steps).o.log, h.id, watch)
      {
        LateLosesNone(Fresh(t, r, hooks), steps, h, points);
        assert forall i :: 0 <= i < |steps| ==> DiesAt(hooks, points)(steps[i]);
        ClearsAlternate(t, r, hooks, steps, h, watch);
      }
    }
  }
}
