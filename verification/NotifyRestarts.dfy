/** Two clears without a raise between them: exactly when restarts change the webhook's own entry. */
module NotifyRestarts {
  import opened Results
  import opened Outbox
  import opened Notifications
  import opened NotifySense

  // ---- runs of certain steps -----------------------------------------------------------------------------

  ghost predicate AllAre(steps: seq<Step>, ok: Step -> bool) { forall i :: 0 <= i < |steps| ==> ok(steps[i]) }

  ghost predicate Gets(start: World, w: World, ok: Step -> bool) {
    exists steps :: Runs(start, steps) && AllAre(steps, ok) && Play(start, steps) == w
  }

  lemma GetsNext(start: World, w: World, s: Step, ok: Step -> bool)
    requires Gets(start, w, ok) && Enabled(w, s) && ok(s)
    ensures Gets(start, Next(w, s), ok)
  {
    var steps :| Runs(start, steps) && AllAre(steps, ok) && Play(start, steps) == w;
    RunsOn(start, steps, s);
    assert AllAre(steps + [s], ok);
  }

  /** Whatever happens while the process runs may happen. */
  ghost predicate LetsRun(ok: Step -> bool) { forall s: Step :: !s.Restart? && !s.Crash? ==> ok(s) }

  // ---- what a webhook has been told of one watch ---------------------------------------------------------

  /** No raise, and at least `n` clears, up to two. */
  ghost predicate Heard(log: Log, id: nat, watch: Watch, n: nat) {
    && (forall i :: 0 <= i < |log| ==> !KeptRaise(log[i], id, watch))
    && (n == 1 ==> exists i :: 0 <= i < |log| && KeptClear(log[i], id, watch))
    && (n == 2 ==> exists i, j :: 0 <= i < j < |log| && KeptClear(log[i], id, watch) && KeptClear(log[j], id, watch))
  }

  /** No new row tells it of a raise. */
  lemma StillHeard(log: Log, p: Log, id: nat, watch: Watch, n: nat)
    requires Heard(log, id, watch, n) && GoesOn(log, p)
    requires forall i :: |log| <= i < |p| ==> !KeptRaise(p[i], id, watch)
    ensures Heard(p, id, watch, n)
  {
    forall i | 0 <= i < |p|
      ensures !KeptRaise(p[i], id, watch)
    {
      if i < |log| { assert Kin(log[i], p[i]); }
    }
    if n == 1 {
      var i :| 0 <= i < |log| && KeptClear(log[i], id, watch);
      assert Kin(log[i], p[i]);
    }
    if n == 2 {
      var i, j :| 0 <= i < j < |log| && KeptClear(log[i], id, watch) && KeptClear(log[j], id, watch);
      assert Kin(log[i], p[i]) && Kin(log[j], p[j]);
    }
  }

  lemma HeardOneMore(log: Log, p: Log, id: nat, watch: Watch, n: nat)
    requires Heard(log, id, watch, n) && n < 2 && GoesOn(log, p)
    requires forall i :: |log| <= i < |p| ==> !KeptRaise(p[i], id, watch)
    requires exists j :: |log| <= j < |p| && KeptClear(p[j], id, watch)
    ensures Heard(p, id, watch, n + 1)
  {
    StillHeard(log, p, id, watch, n);
    var j :| |log| <= j < |p| && KeptClear(p[j], id, watch);
    if n == 1 {
      var i :| 0 <= i < |log| && KeptClear(log[i], id, watch);
      assert Kin(log[i], p[i]);
    }
  }

  lemma TwoWithoutRaise(log: Log, id: nat, watch: Watch)
    requires Heard(log, id, watch, 2)
    ensures !Alternates(log, id, watch)
  {
    var i, j :| 0 <= i < j < |log| && KeptClear(log[i], id, watch) && KeptClear(log[j], id, watch);
    assert !RaiseWithin(log, id, watch, i, j);
  }

  // ---- a raise that is missed, and a clear that is heard ---------------------------------------------------

  /** These webhooks do not have the one with this id hear of alerts of that severity. */
  predicate Misses(hooks: seq<Webhook>, id: nat, s: Severity) {
    forall k :: k in hooks && k.id == id ==> !Reaches(k, s)
  }

  predicate Hears(hooks: seq<Webhook>, id: nat, s: Severity) {
    exists k :: k in hooks && k.id == id && Both(k) && Reaches(k, s)
  }

  /** Between checks, with every alert of the watch ended by itself. */
  ghost predicate Resting(w: World, hooks: seq<Webhook>, id: nat, watch: Watch, n: nat) {
    && w.hooks == hooks && ValidHooks(hooks) && !w.checking && Heard(w.o.log, id, watch, n)
    && (forall a :: a in w.alerts && a.watch == watch ==> a.clearedAt.Some? && a.clearedBy.Condition?)
  }

  /** Between checks, with the watch's last alert open. */
  ghost predicate Alarmed(w: World, hooks: seq<Webhook>, id: nat, watch: Watch, s: Severity, n: nat) {
    && w.hooks == hooks && ValidHooks(hooks) && !w.checking && Heard(w.o.log, id, watch, n) && |w.alerts| > 0
    && IsOpen(w.alerts[|w.alerts| - 1], watch, s)
    && forall i :: 0 <= i < |w.alerts| - 1 && w.alerts[i].watch == watch ==>
         w.alerts[i].clearedAt.Some? && w.alerts[i].clearedBy.Condition?
  }

  predicate IsOpen(a: Alert, watch: Watch, s: Severity) { a.watch == watch && a.severity == s && a.clearedAt.None? }

  lemma RaiseMissed(o: Outbox, hooks: seq<Webhook>, told: seq<Webhook>, alerts: seq<Alert>, a: Alert,
                    clock: nat -> Reading, id: nat, n: nat)
    requires ValidHooks(told) && Misses(told, id, a.severity) && ClosedByEdit(alerts, a).None?
    requires Heard(o.log, id, a.watch, n)
    ensures Heard(ToldRaised(o, hooks, told, alerts, a, clock).log, id, a.watch, n)
  {
    if hooks != [] {
      var p := ToldRaised(o, hooks, told, alerts, a, clock).log;
      ToldRaisedIs(o, hooks, told, alerts, a, clock);
      QueuedGoesOn(o.log, p, told, Raised, a);
      forall i | |o.log| <= i < |p|
        ensures !KeptRaise(p[i], id, a.watch)
      {
        assert Told(told, p[i].webhook, Raised, a.severity);
      }
      StillHeard(o.log, p, id, a.watch, n);
    }
  }

  lemma ClearHeard(o: Outbox, hooks: seq<Webhook>, a: Alert, clock: nat -> Reading, id: nat, n: nat)
    requires ValidHooks(hooks) && Hears(hooks, id, a.severity) && a.clearedBy.Condition?
    requires Heard(o.log, id, a.watch, n) && n < 2
    ensures Heard(OnCleared(o, hooks, a, clock).log, id, a.watch, n + 1)
  {
    var p := OnCleared(o, hooks, a, clock).log;
    ClearedIs(o, hooks, a, clock);
    QueuedGoesOn(o.log, p, hooks, Cleared, a);
    NewClear(o.log, p, hooks, a, id);
    HeardOneMore(o.log, p, id, a.watch, n);
  }

  lemma NewClear(log: Log, p: Log, hooks: seq<Webhook>, a: Alert, id: nat)
    requires Queued(log, p, hooks, Cleared, a) && Hears(hooks, id, a.severity)
    ensures forall i :: |log| <= i < |p| ==> !KeptRaise(p[i], id, a.watch)
    ensures exists j :: |log| <= j < |p| && KeptClear(p[j], id, a.watch)
  {
    var k :| k in hooks && k.id == id && Both(k) && Reaches(k, a.severity);
    assert Wants(k, Cleared, a.severity);
    var j :| |log| <= j < |p| && p[j].webhook == k.id;
    assert IsFor(p[j], Cleared, a);
    assert forall i :: |log| <= i < |p| ==> IsFor(p[i], Cleared, a);
  }

  lemma RestartHeard(w: World, hooks: seq<Webhook>, r: Reading, id: nat, watch: Watch, n: nat)
    requires Heard(w.o.log, id, watch, n)
    ensures Heard(Restarted(w, hooks, r).o.log, id, watch, n)
  {
    RestartGoesOn(w, hooks, r);
    StillHeard(w.o.log, Restarted(w, hooks, r).o.log, id, watch, n);
  }

  // ---- one alert, missed and then heard of ------------------------------------------------------------------

  lemma BeginRun(start: World, w: World, ok: Step -> bool) returns (v: World)
    requires Gets(start, w, ok) && LetsRun(ok) && !w.checking
    ensures Gets(start, v, ok)
    ensures v == w.(t := w.t + 1, checking := true, mark := |w.o.log|, closed := map[], decided := {})
  {
    GetsNext(start, w, BeginCheck(w.t + 1), ok);
    v := Next(w, BeginCheck(w.t + 1));
  }

  lemma EndRun(start: World, w: World, ok: Step -> bool) returns (v: World)
    requires Gets(start, w, ok) && LetsRun(ok) && w.checking
    ensures Gets(start, v, ok) && v == w.(checking := false)
  {
    GetsNext(start, w, EndCheck, ok);
    v := Next(w, EndCheck);
  }

  /** A raise that nobody tells the webhook of. */
  lemma MissedAlert(u: World, watch: Watch, s: Severity, told: seq<Webhook>, r: Reading, id: nat, n: nat)
    requires u.checking && ValidHooks(told) && Misses(told, id, s) && Heard(u.o.log, id, watch, n)
    requires forall a :: a in u.alerts && a.watch == watch ==> a.clearedAt.Some? && a.clearedBy.Condition?
    ensures OpenFor(u.alerts, watch).None?
    ensures var a := Raising(u, Raise(watch, s, 0, Always(r)));
            Heard(ToldRaised(u.o, u.hooks, told, u.alerts + [a], a, Always(r)).log, id, watch, n)
  {
    var a := Raising(u, Raise(watch, s, 0, Always(r)));
    RaiseMissed(u.o, u.hooks, told, u.alerts + [a], a, Always(r), id, n);
  }

  lemma RaiseRun(start: World, w: World, ok: Step -> bool, hooks: seq<Webhook>, id: nat, watch: Watch, s: Severity,
                 n: nat, r: Reading) returns (v: World)
    requires Gets(start, w, ok) && LetsRun(ok) && Resting(w, hooks, id, watch, n) && Misses(hooks, id, s)
    ensures Gets(start, v, ok) && Alarmed(v, hooks, id, watch, s, n)
  {
    var u := BeginRun(start, w, ok);
    MissedAlert(u, watch, s, hooks, r, id, n);
    GetsNext(start, u, Raise(watch, s, 0, Always(r)), ok);
    v := EndRun(start, Next(u, Raise(watch, s, 0, Always(r))), ok);
  }

  lemma ClearRun(start: World, w: World, ok: Step -> bool, hooks: seq<Webhook>, id: nat, watch: Watch, s: Severity,
                 n: nat, r: Reading) returns (v: World)
    requires Gets(start, w, ok) && LetsRun(ok) && Alarmed(w, hooks, id, watch, s, n) && Hears(hooks, id, s) && n < 2
    ensures Gets(start, v, ok) && Resting(v, hooks, id, watch, n + 1)
  {
    var u := BeginRun(start, w, ok);
    var i := |w.alerts| - 1;
    assert OpenFor(u.alerts, watch) == Some(i);
    ClearHeard(u.o, hooks, ClearedAlert(w.alerts[i], u.t, Condition), Always(r), id, n);
    GetsNext(start, u, Clear(watch, Always(r)), ok);
    v := EndRun(start, Next(u, Clear(watch, Always(r))), ok);
  }

  lemma RestartAlarmed(start: World, w: World, ok: Step -> bool, hooks: seq<Webhook>, next: seq<Webhook>, id: nat,
                       watch: Watch, s: Severity, n: nat, r: Reading) returns (v: World)
    requires Gets(start, w, ok) && Alarmed(w, hooks, id, watch, s, n) && ok(Restart(next, r)) && ValidHooks(next)
    ensures Gets(start, v, ok) && Alarmed(v, next, id, watch, s, n)
  {
    RestartHeard(w, next, r, id, watch, n);
    GetsNext(start, w, Restart(next, r), ok);
    v := Next(w, Restart(next, r));
  }

  lemma RestartResting(start: World, w: World, ok: Step -> bool, hooks: seq<Webhook>, next: seq<Webhook>, id: nat,
                       watch: Watch, n: nat, r: Reading) returns (v: World)
    requires Gets(start, w, ok) && Resting(w, hooks, id, watch, n) && ok(Restart(next, r)) && ValidHooks(next)
    ensures Gets(start, v, ok) && Resting(v, next, id, watch, n)
  {
    RestartHeard(w, next, r, id, watch, n);
    GetsNext(start, w, Restart(next, r), ok);
    v := Next(w, Restart(next, r));
  }

  // ---- restarts that choose between two configurations -------------------------------------------------------

  /** No raise is cut short, and every restart takes one of the two configurations. */
  function Chooses(a: seq<Webhook>, b: seq<Webhook>): Step -> bool {
    (s: Step) => (s.Crash? ==> !s.during.Raise?) && (s.Restart? || s.Crash? ==> s.hooks == a || s.hooks == b)
  }

  /** Missed under one configuration, heard of under the other. */
  lemma MissedAndHeard(start: World, w: World, a: seq<Webhook>, b: seq<Webhook>, misses: seq<Webhook>,
                       hears: seq<Webhook>, id: nat, watch: Watch, s: Severity, n: nat, r: Reading) returns (v: World)
    requires Gets(start, w, Chooses(a, b)) && Resting(w, misses, id, watch, n) && ValidHooks(hears) && n < 2
    requires Misses(misses, id, s) && Hears(hears, id, s)
    requires (misses == a && hears == b) || (misses == b && hears == a)
    ensures Gets(start, v, Chooses(a, b)) && Resting(v, misses, id, watch, n + 1)
  {
    var ok := Chooses(a, b);
    var raised := RaiseRun(start, w, ok, misses, id, watch, s, n, r);
    var known := RestartAlarmed(start, raised, ok, misses, hears, id, watch, s, n, r);
    var cleared := ClearRun(start, known, ok, hears, id, watch, s, n, r);
    v := RestartResting(start, cleared, ok, hears, misses, id, watch, n + 1, r);
  }

  /** In every run from configuration `a`, restarts choosing between `a` and `b`, its clears alternate with raises. */
  ghost predicate AlwaysAlternate(id: nat, a: seq<Webhook>, b: seq<Webhook>) {
    forall t: int, r: Reading, steps: seq<Step>, watch: Watch ::
      Runs(Fresh(t, r, a), steps) && AllAre(steps, Chooses(a, b)) ==>
        Alternates(Play(Fresh(t, r, a), steps).o.log, id, watch)
  }

  /**
   If the other configuration has another entry for the webhook, or none, one of the two misses what the other
   hears.
   */
  lemma SomeMissed(h: Webhook, a: seq<Webhook>, b: seq<Webhook>) returns (s: Severity, first: bool)
    requires ValidHooks(a) && ValidHooks(b) && h in a && h !in b && Both(h)
    requires forall k :: k in b && k.id == h.id ==> Both(k)
    ensures if first then Misses(a, h.id, s) && Hears(b, h.id, s) else Misses(b, h.id, s) && Hears(a, h.id, s)
  {
    if k :| k in b && k.id == h.id && Rank(k.minSeverity) < Rank(h.minSeverity) {
      s, first := k.minSeverity, true;
    } else {
      s, first := h.minSeverity, false;
    }
  }

  /** Twice missed and twice heard of. */
  lemma NotAlways(h: Webhook, a: seq<Webhook>, b: seq<Webhook>)
    requires ValidHooks(a) && ValidHooks(b) && h in a && h !in b && Both(h)
    requires forall k :: k in b && k.id == h.id ==> Both(k)
    ensures !AlwaysAlternate(h.id, a, b)
  {
    var s, first := SomeMissed(h, a, b);
    var r, watch, ok := Reading(0, 0), Watch(0, 0), Chooses(a, b);
    var start := Fresh(0, r, a);
    assert Runs(start, []) && AllAre([], ok) && Play(start, []) == start;
    var w := start;
    if !first { w := RestartResting(start, start, ok, a, b, h.id, watch, 0, r); }
    var misses, hears := if first then a else b, if first then b else a;
    var once := MissedAndHeard(start, w, a, b, misses, hears, h.id, watch, s, 0, r);
    var v := MissedAndHeard(start, once, a, b, misses, hears, h.id, watch, s, 1, r);
    TwoWithoutRaise(v.o.log, h.id, watch);
    var steps :| Runs(start, steps) && AllAre(steps, ok) && Play(start, steps) == v;
    assert !Alternates(Play(Fresh(0, r, a), steps).o.log, h.id, watch);
  }

  lemma {:induction false} NothingLost(w: World, steps: seq<Step>, h: Webhook)
    requires Runs(w, steps) && forall i :: 0 <= i < |steps| && steps[i].Crash? ==> !steps[i].during.Raise?
    ensures LosesNone(w, steps, h)
    decreases |steps|
  {
    if steps != [] { NothingLost(Next(w, steps[0]), steps[1..], h); }
  }

  /**
   What a webhook subscribed to both events is told always makes sense if and only if restarts leave its entry as
   it is: were it taken out, or its severity changed, it could miss a raise and hear of its clear.
   */
  lemma AlternateExactly(h: Webhook, a: seq<Webhook>, b: seq<Webhook>)
    requires ValidHooks(a) && ValidHooks(b) && h in a && Both(h)
    requires forall k :: k in b && k.id == h.id ==> Both(k)
    ensures AlwaysAlternate(h.id, a, b) <==> h in b
  {
    if h in b {
      forall t: int, r: Reading, steps: seq<Step>, watch: Watch
        | Runs(Fresh(t, r, a), steps) && AllAre(steps, Chooses(a, b))
        ensures Alternates(Play(Fresh(t, r, a), steps).o.log, h.id, watch)
      {
        NothingLost(Fresh(t, r, a), steps, h);
        ClearsAlternate(t, r, a, steps, h, watch);
      }
    } else {
      NotAlways(h, a, b);
    }
  }
}
