/** No notification is stuck: a webhook that accepts what it is sent gets each waiting row within five minutes. */
module NotifyProgress {
  import opened Results
  import opened Outbox
  import opened Notifications
  import opened NotifySense
  import opened NotifyTable

  /** Deliveries of this webhook, all accepted, on clocks that advance together and not at once by more than 5 min. */
  ghost predicate Drains(w: World, steps: seq<Step>, webhook: nat)
    decreases |steps|
  {
    steps == [] || (Enabled(w, steps[0]) && IsTry(w.o.clock, steps[0], webhook)
                    && Drains(Next(w, steps[0]), steps[1..], webhook))
  }

  predicate IsTry(c: Clock, s: Step, webhook: nat) {
    && (s.Start? || (s.Finish? && s.outcome.Delivered?)) && s.webhook == webhook
    && 0 <= s.r.mono - c.mono == s.r.wall - c.wall <= MAX_RETRY_MS
  }

  lemma {:induction false} DrainsRuns(w: World, steps: seq<Step>, webhook: nat)
    requires Drains(w, steps, webhook)
    ensures Runs(w, steps)
    decreases |steps|
  {
    if steps != [] { DrainsRuns(Next(w, steps[0]), steps[1..], webhook); }
  }

  lemma DrainsOn(w: World, s: Step, rest: seq<Step>, webhook: nat)
    requires Enabled(w, s) && IsTry(w.o.clock, s, webhook) && Drains(Next(w, s), rest, webhook)
    ensures Runs(Next(w, s), rest) && Runs(w, [s] + rest) && Drains(w, [s] + rest, webhook)
    ensures Play(w, [s] + rest) == Play(Next(w, s), rest)
  {
    DrainsRuns(Next(w, s), rest, webhook);
    assert ([s] + rest)[1..] == rest;
  }

  /** A reading `ms` later on both clocks. */
  function Later(c: Clock, ms: nat): Reading { Reading(c.wall + ms, c.mono + ms) }

  function ClockAt(c: Clock, ms: nat): Clock { Clock(c.wall + ms, c.mono + ms, c.ignored) }

  // ---- one row ---------------------------------------------------------------------------------------------

  predicate IsHead(log: Log, webhook: nat, h: nat) { HeadOf(log, webhook) == Some(h) }

  lemma HeadIs(log: Log, webhook: nat, h: nat)
    requires IdsGrow(log) && h < |log| && IsPending(log[h]) && log[h].webhook == webhook
    requires forall i :: 0 <= i < h ==> !IsPending(log[i]) || log[i].webhook != webhook
    ensures IsHead(log, webhook, h)
  {
  }

  lemma NoneBeforeHead(log: Log, webhook: nat, h: nat)
    requires IdsGrow(log) && IsHead(log, webhook, h)
    ensures h < |log| && forall i :: 0 <= i < h ==> !IsPending(log[i]) || log[i].webhook != webhook
  {
  }

  lemma NoJump(o: Outbox, ms: nat)
    ensures Now(o, Later(o.clock, ms)) == Outbox(o.log, ClockAt(o.clock, ms))
  {
  }

  lemma TakesHead(w: World, webhook: nat, h: nat, ms: nat)
    requires webhook !in w.flight && IsHead(w.o.log, webhook, h) && w.o.log[h].nextAt <= w.o.clock.wall + ms
    ensures var s := Start(webhook, Later(w.o.clock, ms));
            && Enabled(w, s)
            && Next(w, s) == w.(o := Outbox(w.o.log, ClockAt(w.o.clock, ms)),
                                flight := w.flight[webhook := Flight(h, w.o.log[h])])
  {
    NoJump(w.o, ms);
  }

  lemma BringsBack(w: World, webhook: nat, h: nat)
    requires webhook !in w.flight && IsHead(w.o.log, webhook, h)
    requires w.o.log[h].nextAt - w.o.clock.wall > MAX_RETRY_MS
    ensures var s := Start(webhook, Later(w.o.clock, 0));
            && Enabled(w, s)
            && Next(w, s) ==
               w.(o := w.o.(log := SetNextAt(w.o.log, w.o.log[h].id, w.o.clock.wall + MAX_RETRY_MS)))
  {
    NoJump(w.o, 0);
  }

  /** Only the row at `h` is another, and it has the same id and webhook. */
  predicate OnlyRow(log: Log, p: Log, h: nat) {
    && |p| == |log| && h < |log| && p[h].id == log[h].id && p[h].webhook == log[h].webhook && Stored(p[h])
    && forall i :: 0 <= i < |log| && i != h ==> p[i] == log[i]
  }

  lemma SetsOne(log: Log, h: nat, at: int)
    requires IdsGrow(log) && h < |log| && Stored(log[h])
    ensures var p := SetNextAt(log, log[h].id, at);
            OnlyRow(log, p, h) && p[h].nextAt == at && p[h].status == log[h].status && p[h].pruned == log[h].pruned
  {
  }

  lemma SendsOne(log: Log, h: nat, at: int)
    requires IdsGrow(log) && h < |log| && Stored(log[h])
    ensures var p := MarkSent(log, log[h].id, at); OnlyRow(log, p, h) && p[h].status == Sent(at)
  {
  }

  lemma IdsStay(log: Log, p: Log, h: nat)
    requires IdsGrow(log) && h < |log| && Stored(log[h]) && OnlyRow(log, p, h)
    ensures IdsGrow(p)
  {
  }

  /** The row at `h` has been accepted, `ms` later, and nothing else has changed. */
  ghost predicate Accepted(w: World, v: World, h: nat, ms: nat) {
    && v == w.(o := v.o) && v.o.clock == ClockAt(w.o.clock, ms) && OnlyRow(w.o.log, v.o.log, h)
    && v.o.log[h].status == Sent(w.o.clock.wall + ms)
  }

  lemma Finishes(u: World, webhook: nat, h: nat, row: Row)
    requires !u.checking && webhook in u.flight && u.flight[webhook] == Flight(h, row) && IdsGrow(u.o.log)
    requires h < |u.o.log| && u.o.log[h] == row && Stored(row)
    ensures var f := Finish(webhook, Delivered, Later(u.o.clock, 0)); var v := Next(u, f);
            && Enabled(u, f) && IsTry(u.o.clock, f, webhook) && Drains(u, [f], webhook)
            && Runs(u, [f]) && v == Play(u, [f]) == u.(o := v.o, flight := u.flight - {webhook})
            && v.o.clock == u.o.clock && OnlyRow(u.o.log, v.o.log, h) && v.o.log[h].status == Sent(u.o.clock.wall)
  {
    NoJump(u.o, 0);
    SendsOne(u.o.log, h, u.o.clock.wall);
    var f := Finish(webhook, Delivered, Later(u.o.clock, 0));
    assert [f][1..] == [];
  }

  lemma Sends(w: World, webhook: nat, h: nat, ms: nat) returns (more: seq<Step>)
    requires !w.checking && webhook !in w.flight && IdsGrow(w.o.log) && IsHead(w.o.log, webhook, h)
    requires w.o.log[h].nextAt <= w.o.clock.wall + ms && ms <= MAX_RETRY_MS
    ensures Runs(w, more) && Drains(w, more, webhook) && Accepted(w, Play(w, more), h, ms)
  {
    var s := Start(webhook, Later(w.o.clock, ms));
    TakesHead(w, webhook, h, ms);
    var u := Next(w, s);
    Finishes(u, webhook, h, w.o.log[h]);
    var f := Finish(webhook, Delivered, Later(u.o.clock, 0));
    DrainsOn(w, s, [f], webhook);
    assert u.flight - {webhook} == w.flight;
    more := [s] + [f];
  }

  /** From here there is a way for the head to be accepted within five minutes. */
  lemma SendsHead(w: World, webhook: nat, h: nat) returns (more: seq<Step>, ms: nat)
    requires !w.checking && webhook !in w.flight && IdsGrow(w.o.log) && IsHead(w.o.log, webhook, h)
    ensures ms <= MAX_RETRY_MS
    ensures Runs(w, more) && Drains(w, more, webhook) && Accepted(w, Play(w, more), h, ms)
  {
    var ahead := w.o.log[h].nextAt - w.o.clock.wall;
    if ahead <= MAX_RETRY_MS {
      ms := if ahead > 0 then ahead else 0;
      more := Sends(w, webhook, h, ms);
    } else {
      ms := MAX_RETRY_MS;
      more := SendsLater(w, webhook, h, ms);
    }
  }

  /** A head that is due too far ahead is brought back first. */
  lemma SendsLater(w: World, webhook: nat, h: nat, ms: nat) returns (more: seq<Step>)
    requires !w.checking && webhook !in w.flight && IdsGrow(w.o.log) && IsHead(w.o.log, webhook, h)
    requires w.o.log[h].nextAt - w.o.clock.wall > ms == MAX_RETRY_MS
    ensures Runs(w, more) && Drains(w, more, webhook) && Accepted(w, Play(w, more), h, ms)
  {
    var s := Start(webhook, Later(w.o.clock, 0));
    BringsBack(w, webhook, h);
    var u := Next(w, s);
    SetsOne(w.o.log, h, w.o.clock.wall + MAX_RETRY_MS);
    IdsStay(w.o.log, u.o.log, h);
    NoneBeforeHead(w.o.log, webhook, h);
    HeadIs(u.o.log, webhook, h);
    var rest := Sends(u, webhook, h, ms);
    DrainsOn(w, s, rest, webhook);
    more := [s] + rest;
    AcceptedAfter(w, u, Play(u, rest), h, ms);
  }

  lemma AcceptedAfter(w: World, u: World, v: World, h: nat, ms: nat)
    requires u == w.(o := u.o) && u.o.clock == w.o.clock && OnlyRow(w.o.log, u.o.log, h) && Accepted(u, v, h, ms)
    ensures Accepted(w, v, h, ms)
  {
  }

  // ---- the whole queue ---------------------------------------------------------------------------------------

  /** The webhook's waiting rows as far as row `k`. */
  ghost function Waiting(log: Log, webhook: nat, k: nat): set<nat>
    requires k < |log|
  {
    set i: nat | i <= k && IsPending(log[i]) && log[i].webhook == webhook
  }

  lemma {:induction false} DrainsAfter(w: World, first: seq<Step>, more: seq<Step>, webhook: nat)
    requires Runs(w, first) && Drains(w, first, webhook)
    requires Runs(Play(w, first), more) && Drains(Play(w, first), more, webhook)
    ensures Runs(w, first + more) && Drains(w, first + more, webhook)
    ensures Play(w, first + more) == Play(Play(w, first), more)
    decreases |first|
  {
    if first == [] {
      assert first + more == more;
    } else {
      var s, rest := first[0], first[1..];
      var u := Next(w, s);
      DrainsAfter(u, rest, more, webhook);
      DrainsOn(w, s, rest + more, webhook);
      OneThen(s, rest, first, more);
    }
  }

  lemma OneThen(s: Step, rest: seq<Step>, first: seq<Step>, more: seq<Step>)
    requires first == [s] + rest
    ensures [s] + (rest + more) == first + more
  {
  }

  lemma WaitingLess(log: Log, p: Log, webhook: nat, k: nat, h: nat)
    requires k < |log| && OnlyRow(log, p, h) && h <= k && IsPending(log[h]) && log[h].webhook == webhook
    requires !IsPending(p[h])
    ensures Waiting(p, webhook, k) == Waiting(log, webhook, k) - {h} && h in Waiting(log, webhook, k)
  {
  }

  lemma HeadUpTo(log: Log, webhook: nat, k: nat) returns (h: nat)
    requires IdsGrow(log) && k < |log| && IsPending(log[k]) && log[k].webhook == webhook
    ensures h <= k && IsPending(log[h]) && log[h].webhook == webhook && IsHead(log, webhook, h)
  {
    h := HeadOf(log, webhook).value;
    NoneBeforeHead(log, webhook, h);
  }

  lemma {:induction false} SendsUpTo(w: World, webhook: nat, k: nat) returns (more: seq<Step>)
    requires !w.checking && webhook !in w.flight && IdsGrow(w.o.log)
    requires k < |w.o.log| && IsPending(w.o.log[k]) && w.o.log[k].webhook == webhook
    ensures Runs(w, more) && Drains(w, more, webhook)
    ensures var v := Play(w, more);
            && k < |v.o.log| && v.o.log[k].id == w.o.log[k].id && v.o.log[k].status.Sent?
            && v.o.clock.mono <= w.o.clock.mono + MAX_RETRY_MS * |Waiting(w.o.log, webhook, k)|
    decreases |Waiting(w.o.log, webhook, k)|
  {
    var h := HeadUpTo(w.o.log, webhook, k);
    var first, ms := SendsHead(w, webhook, h);
    var u := Play(w, first);
    WaitingLess(w.o.log, u.o.log, webhook, k, h);
    var n, rest := |Waiting(w.o.log, webhook, k)|, |Waiting(u.o.log, webhook, k)|;
    assert rest == n - 1;
    if h == k {
      more := first;
    } else {
      IdsStay(w.o.log, u.o.log, h);
      var later := SendsUpTo(u, webhook, k);
      DrainsAfter(w, first, later, webhook);
      more := first + later;
    }
  }

  /**
   After any run, between checks, whatever became of earlier deliveries and however far ahead the rows are due: if the
   webhook accepts what it is sent, its deliveries alone get any row that waits for it sent, within five minutes for
   each row of it that waits no later in the queue.
   */
  lemma NothingIsStuck(t: int, r: Reading, hooks: seq<Webhook>, steps: seq<Step>, webhook: nat, k: nat)
      returns (more: seq<Step>)
    requires Runs(Fresh(t, r, hooks), steps)
    requires var w := Play(Fresh(t, r, hooks), steps);
             !w.checking && webhook !in w.flight && k < |w.o.log| && IsPending(w.o.log[k])
                 && w.o.log[k].webhook == webhook
    ensures var w := Play(Fresh(t, r, hooks), steps);
            && Runs(w, more) && Drains(w, more, webhook)
            && var v := Play(w, more);
               && k < |v.o.log| && v.o.log[k].id == w.o.log[k].id && v.o.log[k].status.Sent?
               && v.o.clock.mono <= w.o.clock.mono + MAX_RETRY_MS * |Waiting(w.o.log, webhook, k)|
  {
    PlayTable(Fresh(t, r, hooks), steps);
    more := SendsUpTo(Play(Fresh(t, r, hooks), steps), webhook, k);
  }
}
