/** The bound on stalls that lock exclusion needs is exact. */
module LockTiming {
  import opened LockProtocol
  import opened LockSafety

  ghost predicate Reaches(s: State, pace: nat) {
    exists schedule :: Runs(START, schedule, pace) && Play(START, schedule) == s
  }

  lemma {:induction false} Extend(s: State, schedule: seq<Action>, a: Action, pace: nat)
    requires Runs(s, schedule, pace) && Enabled(Play(s, schedule), a, pace)
    ensures Runs(s, schedule + [a], pace) && Play(s, schedule + [a]) == Step(Play(s, schedule), a)
    decreases |schedule|
  {
    if schedule == [] {
      assert [a][1..] == [];
      assert Runs(Step(s, a), [a][1..], pace);
    } else {
      assert (schedule + [a])[1..] == schedule[1..] + [a];
      Extend(Step(s, schedule[0]), schedule[1..], a, pace);
    }
  }

  lemma Hop(s: State, a: Action, t: State, pace: nat)
    requires Reaches(s, pace) && Enabled(s, a, pace) && Step(s, a) == t
    ensures Reaches(t, pace)
  {
    var schedule :| Runs(START, schedule, pace) && Play(START, schedule) == s;
    Extend(START, schedule, a, pace);
  }

  lemma TurnHop(s: State, t: State, pace: nat)
    requires Reaches(s, pace) && s.Alive(1) && InTurnStep(s.procs[1].pc) && !s.procs[1].pc.ListingTurns?
    requires TurnStep(s, 1, 1) == t
    ensures Reaches(t, pace)
  {
    Hop(s, Act(1, 1), t, pace);
  }

  lemma BreakHop(s: State, t: State, pace: nat)
    requires Reaches(s, pace) && s.Alive(1) && BreakerPc(s.procs[1].pc) && !InTurnStep(s.procs[1].pc)
    requires BreakStep(s, 1, 1) == t
    ensures Reaches(t, pace)
  {
    Hop(s, Act(1, 1), t, pace);
  }

  // A process that creates the lock file and is then stopped for FRESH_MS + 1 ms before it writes it.
  const LATE: nat := FRESH_MS + 1
  const WRITER: Proc := Proc(Writing(0), 0, 1, Unreadable, 0, 0)
  const DRAFT: File := File(0, false, Blank, 0)

  /** Process 0 stalled, and process 1 at `me`, before it makes turn 1. */
  function Waiting(me: Proc): State {
    State(LATE, map[LockFile := 1], map[1 := DRAFT], map[0 := WRITER, 1 := me], {}, 3, 0)
  }

  /** Process 1 with turn 1 made, its record being `text`, the scratch links being `links`. */
  function Breaking(me: Proc, dir: map<Name, nat>, text: Text, next: nat): State {
    State(LATE, dir, map[1 := DRAFT, 3 := File(1, true, text, LATE)], map[0 := WRITER, 1 := me], {}, next, 1)
  }

  function Waiter(pc: Pc): Proc { Proc(pc, 2, 0, Unreadable, 0, 0) }

  function Breaker(pc: Pc): Proc { Proc(pc, 2, 0, Unreadable, 1, 3) }

  const DIR: map<Name, nat> := map[LockFile := 1, Turn(1) := 3]
  const SIGNED: Text := Record(1, 4, false)

  lemma SlowWriter(pace: nat)
    requires pace > FRESH_MS
    ensures Reaches(Waiting(Waiter(Opening)), pace)
  {
    assert Runs(START, [], pace) && Play(START, []) == START;
    var idle := Proc(Idle, 0, 0, Unreadable, 0, 0);
    var s1 := START.(procs := map[0 := idle]);
    Hop(START, Spawn(0), s1, pace);
    var s2 := s1.(procs := map[0 := idle.(pc := Opening)], next := 1);
    Hop(s1, Call(0), s2, pace);
    var s3 := State(0, map[LockFile := 1], map[1 := DRAFT], map[0 := WRITER], {}, 2, 0);
    Hop(s2, Act(0, 0), s3, pace);
    var s4 := s3.(now := LATE);
    Hop(s3, Tick(LATE), s4, pace);
    var s5 := s4.(procs := map[0 := WRITER, 1 := idle]);
    Hop(s4, Spawn(1), s5, pace);
    Hop(s5, Call(1), Waiting(Waiter(Opening)), pace);
  }

  lemma WaiterJudges(pace: nat)
    requires Reaches(Waiting(Waiter(Opening)), pace)
    ensures Reaches(Waiting(Waiter(ListingTurns)), pace)
  {
    Hop(Waiting(Waiter(Opening)), Act(1, 1), Waiting(Waiter(Reading)), pace);
    Hop(Waiting(Waiter(Reading)), Act(1, 1), Waiting(Waiter(Aging)), pace);
    Hop(Waiting(Waiter(Aging)), Act(1, 1), Waiting(Waiter(ListingTurns)), pace);
  }

  lemma WaiterTakesTurn(pace: nat)
    requires Reaches(Waiting(Waiter(ListingTurns)), pace)
    ensures Reaches(Breaking(Breaker(SigningTurn(LATE)), DIR, Blank, 4), pace)
  {
    WaiterListsTurns(pace);
    TurnHop(Waiting(Waiter(MakingTurn).(number := 1)), Breaking(Breaker(SigningTurn(LATE)), DIR, Blank, 4), pace);
  }

  lemma WaiterListsTurns(pace: nat)
    requires Reaches(Waiting(Waiter(ListingTurns)), pace)
    ensures Reaches(Waiting(Waiter(MakingTurn).(number := 1)), pace)
  {
    assert TurnsOf(Waiting(Waiter(ListingTurns))) == {};
    Hop(Waiting(Waiter(ListingTurns)), Act(1, 0), Waiting(Waiter(MakingTurn).(number := 1)), pace);
  }

  const RELISTING: State := Breaking(Breaker(Relisting), DIR, SIGNED, 5)
  const TIDYING: State := Breaking(Breaker(Tidying({})), DIR, SIGNED, 5)
  const LISTING: State := Breaking(Breaker(ListingStale), DIR, SIGNED, 5)
  const SWEEPING: State := Breaking(Breaker(Sweeping({})), DIR, SIGNED, 5)
  const LINKING: State := Breaking(Breaker(Linking), DIR, SIGNED, 5)
  const COMPARING: State := Breaking(Breaker(Comparing(5)), DIR[Stale(5) := 1], SIGNED, 6)
  const DATING: State := Breaking(Breaker(Dating(5, LATE)), DIR[Stale(5) := 1], SIGNED, 6)
  const MOVING: State := Breaking(Breaker(Moving(5)), DIR[Stale(5) := 1], SIGNED, 6)
  const ASIDE: State :=
    Breaking(Breaker(Checking(5, 6)), map[Turn(1) := 3, Stale(5) := 1, Stale(6) := 1], SIGNED, 7)

  lemma WaiterSigns(pace: nat)
    requires Reaches(Breaking(Breaker(SigningTurn(LATE)), DIR, Blank, 4), pace)
    ensures Reaches(RELISTING, pace)
  {
    TurnHop(Breaking(Breaker(SigningTurn(LATE)), DIR, Blank, 4), RELISTING, pace);
  }

  lemma WaiterRelists(pace: nat)
    requires Reaches(RELISTING, pace)
    ensures Reaches(TIDYING, pace)
  {
    assert TurnsOf(RELISTING) == {1};
    assert (set n | n in TurnsOf(RELISTING) && n < 1) == {};
    TurnHop(RELISTING, TIDYING, pace);
  }

  lemma WaiterTidies(pace: nat)
    requires Reaches(TIDYING, pace)
    ensures Reaches(LISTING, pace)
  {
    TurnHop(TIDYING, LISTING, pace);
  }

  lemma WaiterSweeps(pace: nat)
    requires Reaches(LISTING, pace)
    ensures Reaches(LINKING, pace)
  {
    assert SuffixesOf(LISTING) == {};
    TurnHop(LISTING, SWEEPING, pace);
    TurnHop(SWEEPING, LINKING, pace);
  }

  lemma WaiterLinks(pace: nat)
    requires Reaches(LINKING, pace)
    ensures Reaches(COMPARING, pace)
  {
    BreakHop(LINKING, COMPARING, pace);
  }

  lemma WaiterDates(pace: nat)
    requires Reaches(COMPARING, pace)
    ensures Reaches(MOVING, pace)
  {
    BreakHop(COMPARING, DATING, pace);
    BreakHop(DATING, MOVING, pace);
  }

  lemma WaiterMovesLock(pace: nat)
    requires Reaches(MOVING, pace)
    ensures Reaches(ASIDE, pace)
  {
    assert (MOVING.dir - {LockFile})[Stale(6) := 1] == ASIDE.dir;
    BreakHop(MOVING, ASIDE, pace);
  }

  /** A third process takes the name that the waiter emptied, while the first still holds. */
  lemma ThirdTakesLock(pace: nat) returns (s: State)
    requires Reaches(ASIDE, pace)
    ensures Reaches(s, pace) && Holds(s, 0) && Holds(s, 2)
  {
    var s1 := Step(ASIDE, Spawn(2));
    Hop(ASIDE, Spawn(2), s1, pace);
    var s2 := Step(s1, Call(2));
    Hop(s1, Call(2), s2, pace);
    s := Step(s2, Act(2, 1));
    Hop(s2, Act(2, 1), s, pace);
  }

  /** Held up for longer than FRESH_MS, two live processes can hold the lock. */
  lemma TwoHolders(pace: nat) returns (schedule: seq<Action>)
    requires pace > FRESH_MS
    ensures Runs(START, schedule, pace)
    ensures Holds(Play(START, schedule), 0) && Holds(Play(START, schedule), 2)
  {
    SlowWriter(pace);
    WaiterJudges(pace);
    WaiterTakesTurn(pace);
    WaiterSigns(pace);
    WaiterRelists(pace);
    WaiterTidies(pace);
    WaiterSweeps(pace);
    WaiterLinks(pace);
    WaiterDates(pace);
    WaiterMovesLock(pace);
    var s := ThirdTakesLock(pace);
    schedule :| Runs(START, schedule, pace) && Play(START, schedule) == s;
  }

  /** After this run, no two live processes hold the lock. */
  ghost predicate Exclusive(schedule: seq<Action>) {
    forall p, q :: Holds(Play(START, schedule), p) && Holds(Play(START, schedule), q) ==> p == q
  }

  /** Lock exclusion holds over all runs if and only if nobody stalls longer than FRESH_MS there. */
  lemma ExclusionExactly(pace: nat)
    ensures (forall schedule :: Runs(START, schedule, pace) ==> Exclusive(schedule)) <==> pace <= FRESH_MS
  {
    if pace <= FRESH_MS {
      forall schedule | Runs(START, schedule, pace)
        ensures Exclusive(schedule)
      {
        forall p, q { LockExclusion(schedule, pace, p, q); }
      }
    } else {
      var schedule := TwoHolders(pace);
      assert !Exclusive(schedule);
    }
  }
}
