/** What holds of the lock however long its processes are held up. */
module LockAnyPace {
  import opened LockProtocol
  import opened LockSafety

  // ---- the lock's name -----------------------------------------------------------------------------------

  /** Whatever happens, a lock file is never replaced at its name: the name is free in between. */
  lemma NeverReplaced(s: State, a: Action)
    ensures var t := Step(s, a); LockFile in s.dir && LockFile in t.dir ==> t.dir[LockFile] == s.dir[LockFile]
  {
    match a
    case Act(p, pick) =>
      if p in s.procs {
        LockStepPlaces(s, p, pick);
        TurnStepPlaces(s, p, pick);
        BreakStepPlaces(s, p, pick);
      }
    case _ =>
  }

  predicate KeepsPlace(s: State, t: State) {
    LockFile in s.dir && LockFile in t.dir ==> t.dir[LockFile] == s.dir[LockFile]
  }

  lemma LockStepPlaces(s: State, p: nat, pick: nat)
    requires p in s.procs
    ensures KeepsPlace(s, LockStep(s, p, pick))
  {
  }

  lemma TurnStepPlaces(s: State, p: nat, pick: nat)
    requires p in s.procs
    ensures KeepsPlace(s, TurnStep(s, p, pick))
  {
  }

  lemma BreakStepPlaces(s: State, p: nat, pick: nat)
    requires p in s.procs
    ensures KeepsPlace(s, BreakStep(s, p, pick))
  {
  }

  /** A breaker that moved another file than the one it compared puts it back if its name is still free. */
  lemma PutsBack(s: State, p: nat, copy: nat, aside: nat, a: Action)
    requires s.Alive(p) && s.procs[p].pc == Checking(copy, aside) && a == Act(p, 0)
    requires Stale(copy) in s.dir && Stale(aside) in s.dir && LockFile !in s.dir
    ensures var t := Step(Step(s, a), a);
            if s.dir[Stale(copy)] == s.dir[Stale(aside)] then t.dir == s.dir - {Stale(aside)}
            else t.dir == s.dir[LockFile := s.dir[Stale(aside)]]
  {
  }

  // ---- the holder's token ----------------------------------------------------------------------------------

  /** The lock at its name is this acquisition's. */
  predicate Carries(s: State, p: nat) {
    p in s.procs && LockFile in s.dir && s.dir[LockFile] in s.files && s.At(LockFile).text.Record?
    && s.At(LockFile).text.pid == p && s.At(LockFile).text.serial == s.procs[p].serial
  }

  lemma UnlockReads(s: State, p: nat, pick: nat)
    requires s.Alive(p) && InLockStep(s.procs[p].pc) && LockStep(s, p, pick).procs[p].pc.Removing?
    ensures Carries(s, p)
  {
  }

  lemma TurnsNeverRemove(s: State, p: nat, pick: nat)
    requires s.Alive(p) && InTurnStep(s.procs[p].pc)
    ensures !TurnStep(s, p, pick).procs[p].pc.Removing?
  {
  }

  lemma BreaksNeverRemove(s: State, p: nat, pick: nat)
    requires s.Alive(p) && !s.procs[p].pc.Removing?
    ensures !BreakStep(s, p, pick).procs[p].pc.Removing?
  {
  }

  /** A process goes on to remove a lock only if it has just read its own token in it. */
  lemma GoesToRemove(s: State, a: Action, p: nat, pace: nat)
    requires Enabled(s, a, pace) && p in Step(s, a).procs && Step(s, a).procs[p].pc.Removing?
    ensures p in s.procs && (s.procs[p].pc.Removing? || Carries(s, p))
  {
    if a.Act? {
      var q := a.p;
      CallIsPrivate(s, q, a.pick);
      TurnIsPrivate(s, q, a.pick);
      BreakIsPrivate(s, q, a.pick);
      if q == p {
        var pc := s.procs[p].pc;
        if InLockStep(pc) { UnlockReads(s, p, a.pick); }
        else if InTurnStep(pc) { TurnsNeverRemove(s, p, a.pick); }
        else { BreaksNeverRemove(s, p, a.pick); }
      }
    }
  }

  /** In any run, a process that is about to remove the lock has read its own token in it before. */
  lemma {:induction false} RemovesWhatItRead(schedule: seq<Action>, pace: nat, p: nat) returns (n: nat)
    requires Runs(START, schedule, pace) && p in Play(START, schedule).procs
    requires Play(START, schedule).procs[p].pc.Removing?
    ensures n < |schedule| && Carries(Play(START, schedule[..n]), p)
    decreases |schedule|
  {
    assert |schedule| > 0;
    var last := |schedule| - 1;
    var before, a := schedule[..last], schedule[last];
    assert schedule == before + [a];
    RunsSplit(START, before, a, pace);
    GoesToRemove(Play(START, before), a, p, pace);
    if Carries(Play(START, before), p) {
      n := last;
    } else {
      n := RemovesWhatItRead(before, pace, p);
      assert before[..n] == schedule[..n];
    }
  }

  /** A heartbeat renews no lock but its own. */
  lemma BeatsItsOwn(s: State, p: nat, i: nat)
    requires p in s.procs && i in s.files
    ensures var t := Step(s, Beat(p));
            && t.dir == s.dir && i in t.files
            && (t.files[i] == s.files[i]
               || (Carries(s, p) && i == s.dir[LockFile] && t.files[i] == s.files[i].(mtime := s.now)))
  {
  }

  /** And, as long as nobody is held up for too long, it always renews that. */
  lemma BeatRenews(schedule: seq<Action>, pace: nat, p: nat)
    requires pace <= FRESH_MS && Runs(START, schedule, pace)
    requires var s := Play(START, schedule); s.Alive(p) && s.procs[p].pc.Holding?
    ensures var s := Play(START, schedule); var t := Step(s, Beat(p));
            && LockFile in t.dir && t.dir[LockFile] in t.files && t.At(LockFile).creator == p
            && t.At(LockFile).mtime == s.now
  {
    PlayKeeps(START, schedule, pace);
    assert Knows(Play(START, schedule), p, pace);
  }
}
