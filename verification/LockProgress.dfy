/** The lock is always to be had again: whatever died in the middle of what, one live process gets it on its own. */
module LockProgress {
  import opened LockProtocol
  import opened LockSafety

  // ---- what every run keeps beside the invariant: a live process never leaves its lock or its turn behind -----

  /** A lock file at its name is dead, or its live creator is between taking and releasing it. */
  predicate LockOwned(s: State) {
    LockFile in s.dir && s.dir[LockFile] in s.files ==>
      var q := s.At(LockFile).creator;
      q in s.dead || (Holds(s, q) && s.procs[q].lock == s.dir[LockFile])
  }

  predicate InTurn(pc: Pc) {
    pc.SigningTurn? || pc.Relisting? || BreakerPc(pc)
  }

  /** The newest turn is finished, or its live creator is still in it. */
  predicate TurnOwned(s: State) {
    Turn(s.top) in s.dir && s.dir[Turn(s.top)] in s.files ==>
      var f := s.At(Turn(s.top));
      Finished(s, f) || (s.Alive(f.creator) && InTurn(s.procs[f.creator].pc) && s.procs[f.creator].number == s.top)
  }

  /** A step that leaves the folder alone, and does not take p out of its lock or its turn. */
  lemma MoveOwned(s: State, t: State, p: nat)
    requires LockOwned(s) && TurnOwned(s) && Moved(s, t, p) && s.Alive(p)
    requires Holds(s, p) ==> Holds(t, p) && t.procs[p].lock == s.procs[p].lock
    requires InTurn(s.procs[p].pc) ==> InTurn(t.procs[p].pc) && t.procs[p].number == s.procs[p].number
    ensures LockOwned(t) && TurnOwned(t)
  {
  }

  lemma LockFileOwned(s: State, p: nat, pick: nat, pace: nat)
    requires Inv(s, pace) && s.Alive(p) && LockOwned(s)
    requires var pc := s.procs[p].pc; pc.Opening? || pc.Writing? || pc.Removing?
    ensures LockOwned(LockStep(s, p, pick))
  {
    assert Knows(s, p, pace);
  }

  lemma LockTurnOwned(s: State, p: nat, pick: nat, pace: nat)
    requires Inv(s, pace) && s.Alive(p) && TurnOwned(s)
    requires var pc := s.procs[p].pc; pc.Opening? || pc.Writing? || pc.Removing?
    ensures TurnOwned(LockStep(s, p, pick))
  {
    assert Knows(s, p, pace);
  }

  lemma LockMoves(s: State, p: nat, pick: nat, pace: nat)
    requires s.Alive(p) && KnowsLock(s, p)
    requires var pc := s.procs[p].pc; InLockStep(pc) && !pc.Opening? && !pc.Writing? && !pc.Removing?
    ensures var t := LockStep(s, p, pick);
            Moved(s, t, p) && (Holds(s, p) ==> Holds(t, p) && t.procs[p].lock == s.procs[p].lock)
  {
  }

  lemma LockStepOwned(s: State, p: nat, pick: nat, pace: nat)
    requires Inv(s, pace) && s.Alive(p) && InLockStep(s.procs[p].pc) && LockOwned(s) && TurnOwned(s)
    ensures LockOwned(LockStep(s, p, pick)) && TurnOwned(LockStep(s, p, pick))
  {
    var pc := s.procs[p].pc;
    if pc.Opening? || pc.Writing? || pc.Removing? {
      LockFileOwned(s, p, pick, pace);
      LockTurnOwned(s, p, pick, pace);
    } else {
      assert Knows(s, p, pace);
      LockMoves(s, p, pick, pace);
      MoveOwned(s, LockStep(s, p, pick), p);
    }
  }

  /** The lock's name leads to the same process's file, if to any. */
  predicate SameLock(s: State, t: State) {
    LockFile in t.dir && t.dir[LockFile] in t.files ==>
      LockFile in s.dir && s.dir[LockFile] in s.files && t.dir[LockFile] == s.dir[LockFile]
      && t.At(LockFile).creator == s.At(LockFile).creator
  }

  lemma TurnFilesSpareLock(s: State, p: nat, pick: nat)
    requires Folder(s) && p in s.procs
    requires var me := s.procs[p]; me.pc.MakingTurn? || (me.pc.SigningTurn? && me.turn in s.files)
    ensures SameLock(s, TurnStep(s, p, pick))
  {
  }

  lemma TurnsSpareLock(s: State, p: nat, pick: nat)
    requires p in s.procs && !s.procs[p].pc.MakingTurn? && !s.procs[p].pc.SigningTurn?
    ensures SameLock(s, TurnStep(s, p, pick))
  {
  }

  lemma TurnLockOwned(s: State, p: nat, pick: nat, pace: nat)
    requires Inv(s, pace) && s.Alive(p) && InTurnStep(s.procs[p].pc) && LockOwned(s)
    ensures LockOwned(TurnStep(s, p, pick))
  {
    assert Knows(s, p, pace);
    TurnIsPrivate(s, p, pick);
    if s.procs[p].pc.MakingTurn? || s.procs[p].pc.SigningTurn? {
      TurnFilesSpareLock(s, p, pick);
    } else {
      TurnsSpareLock(s, p, pick);
    }
  }

  lemma TurnFileOwned(s: State, p: nat, pick: nat, pace: nat)
    requires Inv(s, pace) && s.Alive(p) && TurnOwned(s)
    requires var pc := s.procs[p].pc; pc.MakingTurn? || pc.SigningTurn? || pc.GivingUp? || pc.Tidying? || pc.Sweeping?
    ensures TurnOwned(TurnStep(s, p, pick))
  {
    assert Knows(s, p, pace);
  }

  lemma TurnMoves(s: State, p: nat, pick: nat)
    requires s.Alive(p)
    requires var pc := s.procs[p].pc;
             pc.ListingTurns? || pc.StatingTurn? || pc.ReadingTurn? || pc.OwningTurn? || pc.TimingTurn?
                 || pc.ListingStale?
    ensures var t := TurnStep(s, p, pick);
            Moved(s, t, p)
            && (InTurn(s.procs[p].pc) ==> InTurn(t.procs[p].pc) && t.procs[p].number == s.procs[p].number)
  {
  }

  lemma RelistOwned(s: State, p: nat, pick: nat, pace: nat)
    requires s.Alive(p) && Knows(s, p, pace) && Folder(s) && s.procs[p].pc.Relisting? && TurnOwned(s)
    ensures TurnOwned(TurnStep(s, p, pick))
  {
  }

  lemma TurnStepOwned(s: State, p: nat, pick: nat, pace: nat)
    requires Inv(s, pace) && s.Alive(p) && InTurnStep(s.procs[p].pc) && LockOwned(s) && TurnOwned(s)
    ensures LockOwned(TurnStep(s, p, pick)) && TurnOwned(TurnStep(s, p, pick))
  {
    TurnLockOwned(s, p, pick, pace);
    var pc := s.procs[p].pc;
    if pc.MakingTurn? || pc.SigningTurn? || pc.GivingUp? || pc.Tidying? || pc.Sweeping? {
      TurnFileOwned(s, p, pick, pace);
    } else if pc.Relisting? {
      assert Knows(s, p, pace);
      RelistOwned(s, p, pick, pace);
    } else {
      TurnMoves(s, p, pick);
      MoveOwned(s, TurnStep(s, p, pick), p);
    }
  }

  lemma BreakStepOwned(s: State, p: nat, pick: nat, pace: nat)
    requires Inv(s, pace) && s.Alive(p) && BreakerPc(s.procs[p].pc) && !InTurnStep(s.procs[p].pc)
    requires LockOwned(s) && TurnOwned(s)
    ensures LockOwned(BreakStep(s, p, pick)) && TurnOwned(BreakStep(s, p, pick))
  {
    assert Knows(s, p, pace);
  }

  lemma StepOwned(s: State, a: Action, pace: nat)
    requires Inv(s, pace) && Enabled(s, a, pace) && LockOwned(s) && TurnOwned(s)
    ensures LockOwned(Step(s, a)) && TurnOwned(Step(s, a))
  {
    if a.Act? {
      var pc := s.procs[a.p].pc;
      if InLockStep(pc) { LockStepOwned(s, a.p, a.pick, pace); }
      else if InTurnStep(pc) { TurnStepOwned(s, a.p, a.pick, pace); }
      else { BreakStepOwned(s, a.p, a.pick, pace); }
    }
  }

  lemma {:induction false} PlayOwned(s: State, schedule: seq<Action>, pace: nat)
    requires pace <= FRESH_MS && Inv(s, pace) && Runs(s, schedule, pace) && LockOwned(s) && TurnOwned(s)
    ensures LockOwned(Play(s, schedule)) && TurnOwned(Play(s, schedule))
    decreases |schedule|
  {
    if schedule != [] {
      StepKeeps(s, schedule[0], pace);
      StepOwned(s, schedule[0], pace);
      PlayOwned(Step(s, schedule[0]), schedule[1..], pace);
    }
  }

  // ---- the way back to the lock ---------------------------------------------------------------------------------

  /** p lives, and everybody else is dead or in no call of withLock. */
  ghost predicate Alone(s: State, p: nat) {
    s.Alive(p) && forall q :: s.Alive(q) && q != p ==> s.procs[q].pc.Idle?
  }

  /** The lock of a process that died, which is what `judged` says it is. */
  predicate Judges(s: State, judged: Judged) {
    LockFile in s.dir && s.dir[LockFile] in s.files && s.At(LockFile).creator in s.dead
    && match s.At(LockFile).text
       case Blank => judged.Unreadable? && s.now - s.At(LockFile).mtime > FRESH_MS
       case Record(pid, serial, _) => judged == Holder(pid, serial)
  }

  predicate Left(s: State) {
    LockFile in s.dir && s.dir[LockFile] in s.files && s.At(LockFile).creator in s.dead && LockRipe(s)
  }

  /** A lock file that cannot be read has been there long enough. */
  predicate LockRipe(s: State) {
    LockFile in s.dir && s.dir[LockFile] in s.files && s.At(LockFile).text.Blank? ==>
      s.now - s.At(LockFile).mtime > FRESH_MS
  }

  /** So has a newest turn that cannot be read. */
  predicate TurnRipe(s: State) {
    Turn(s.top) in s.dir && s.dir[Turn(s.top)] in s.files && s.At(Turn(s.top)).text.Blank? ==>
      s.now - s.At(Turn(s.top)).mtime > BREAK_MUTEX_STALE_MS
  }

  /** The newest turn is there to be taken over. */
  predicate TurnLeft(s: State) { TopFinished(s) && TurnRipe(s) }

  /** Nothing is in the folder but these and the newest turn. */
  ghost predicate Only(s: State, names: set<Name>) {
    s.dir.Keys == names + {Turn(s.top)}
  }

  /** The newest turn is marked released. */
  predicate Closed(s: State) {
    Turn(s.top) in s.dir && s.dir[Turn(s.top)] in s.files && s.At(Turn(s.top)).text.Record?
    && s.At(Turn(s.top)).text.released
  }

  predicate Stamped(s: State, turn: nat, seen: nat) {
    Turn(turn) in s.dir && s.dir[Turn(turn)] in s.files && s.At(Turn(turn)).mtime == seen
  }

  ghost predicate HereLock(s: State, p: nat, broke: bool)
    requires p in s.procs
  {
    match s.procs[p].pc
    case Opening =>
      if LockFile in s.dir then broke && Left(s) && TurnLeft(s) else broke ==> Only(s, {}) && Closed(s)
    case Writing(_) => broke ==> Only(s, {LockFile}) && Closed(s)
    case Holding => broke ==> Only(s, {LockFile}) && Closed(s)
    case Reading => broke && Left(s) && TurnLeft(s)
    case Aging => broke && Left(s) && TurnLeft(s) && Judges(s, Unreadable)
    case Judging(pid, serial) => broke && Left(s) && TurnLeft(s) && Judges(s, Holder(pid, serial))
    case _ => false
  }

  ghost predicate HereTurn(s: State, p: nat)
    requires p in s.procs
  {
    var me := s.procs[p];
    Judges(s, me.judged) &&
    match me.pc
    case ListingTurns => TurnLeft(s)
    case StatingTurn(newest) => TurnLeft(s) && newest == s.top
    case ReadingTurn(newest, seen) => TurnLeft(s) && newest == s.top && Stamped(s, newest, seen)
    case OwningTurn(newest, seen) => TurnLeft(s) && newest == s.top && Stamped(s, newest, seen) && !Closed(s)
    case TimingTurn(newest, seen, _) => newest == s.top && s.now > seen + BREAK_MUTEX_STALE_MS
    case MakingTurn => me.number == s.top + 1
    case SigningTurn(_) => me.number == s.top
    case Relisting => me.number == s.top
    case Tidying(older) => TurnsOf(s) == older + {s.top} && s.top !in older
    case ListingStale => TurnsOf(s) == {s.top}
    case Sweeping(garbage) => TurnsOf(s) == {s.top} && SuffixesOf(s) == garbage
    case _ => false
  }

  ghost predicate HereBreak(s: State, p: nat)
    requires p in s.procs
  {
    var me := s.procs[p];
    match me.pc
    case Linking => Judges(s, me.judged) && Only(s, {LockFile})
    case Comparing(copy) => Judges(s, me.judged) && Only(s, {LockFile, Stale(copy)}) && InPlace(s, copy)
    case Dating(copy, _) =>
      Judges(s, me.judged) && me.judged.Unreadable? && Only(s, {LockFile, Stale(copy)}) && InPlace(s, copy)
    case Moving(copy) => Judges(s, me.judged) && Only(s, {LockFile, Stale(copy)})
    case Checking(copy, aside) => copy != aside && Only(s, {Stale(copy), Stale(aside)})
    case DroppingAside(copy, aside) => copy != aside && Only(s, {Stale(copy), Stale(aside)})
    case DroppingCopy(copy) => Only(s, {Stale(copy)})
    case Closing => Only(s, {})
    case _ => false
  }

  /** p is on the way to the lock; `broke`: a dead process's lock was or is in the way. */
  ghost predicate OnWay(s: State, p: nat, pace: nat, broke: bool) {
    && Inv(s, pace) && Alone(s, p)
    && (if InLockStep(s.procs[p].pc) then HereLock(s, p, broke)
        else broke && (if InTurnStep(s.procs[p].pc) then HereTurn(s, p) else HereBreak(s, p)))
  }

  /** How far it is: which call comes next, and how much there is still to remove before it. */
  function Height(s: State, p: nat): nat
    requires p in s.procs
  {
    match s.procs[p].pc
    case Opening => if LockFile in s.dir then 24 else 2
    case Writing(_) => 1
    case Reading => 23
    case Aging => 22
    case Judging(_, _) => 21
    case ListingTurns => 20
    case StatingTurn(_) => 19
    case ReadingTurn(_, _) => 18
    case OwningTurn(_, _) => 17
    case TimingTurn(_, _, _) => 16
    case MakingTurn => 15
    case SigningTurn(_) => 14
    case Relisting => 13
    case Tidying(_) => 12
    case ListingStale => 11
    case Sweeping(_) => 10
    case Linking => 9
    case Comparing(_) => 8
    case Dating(_, _) => 7
    case Moving(_) => 6
    case Checking(_, _) => 5
    case DroppingAside(_, _) => 4
    case DroppingCopy(_) => 3
    case Closing => 3
    case _ => 0
  }

  function Rest(s: State, p: nat): nat
    requires p in s.procs
  {
    match s.procs[p].pc
    case Tidying(older) => |older|
    case Sweeping(garbage) => |garbage|
    case DroppingCopy(_) => 1
    case _ => 0
  }

  predicate Closer(s: State, t: State, p: nat)
    requires p in s.procs
  {
    p in t.procs && (Height(t, p) < Height(s, p) || (Height(t, p) == Height(s, p) && Rest(t, p) < Rest(s, p)))
  }

  /** A call of p leaves p alone. */
  lemma StaysAlone(s: State, p: nat, pick: nat, pace: nat)
    requires pace <= FRESH_MS && Inv(s, pace) && Alone(s, p) && Enabled(s, Act(p, pick), pace)
    ensures var t := Step(s, Act(p, pick)); Inv(t, pace) && Alone(t, p)
  {
    StepKeeps(s, Act(p, pick), pace);
    CallIsPrivate(s, p, pick);
    TurnIsPrivate(s, p, pick);
    BreakIsPrivate(s, p, pick);
  }

  // ---- each call leads closer -------------------------------------------------------------------------------------

  lemma LockWay(s: State, p: nat, pace: nat, broke: bool)
    requires OnWay(s, p, pace, broke) && InLockStep(s.procs[p].pc) && !s.procs[p].pc.Holding?
    ensures var t := LockStep(s, p, 1);
            Closer(s, t, p) && (if InLockStep(t.procs[p].pc) then HereLock(t, p, broke) else broke && HereTurn(t, p))
  {
    assert Knows(s, p, pace);
  }

  /** From listing the turns to making the next one. */
  lemma JudgingWay(s: State, p: nat, pick: nat, pace: nat)
    requires OnWay(s, p, pace, true) && InTurnStep(s.procs[p].pc)
    requires var pc := s.procs[p].pc; pc.StatingTurn? || pc.ReadingTurn? || pc.OwningTurn? || pc.TimingTurn?
    ensures var t := TurnStep(s, p, pick); Closer(s, t, p) && InTurnStep(t.procs[p].pc) && HereTurn(t, p)
  {
    assert Knows(s, p, pace);
  }

  lemma ListTurnsWay(s: State, p: nat, pace: nat)
    requires OnWay(s, p, pace, true) && s.procs[p].pc.ListingTurns?
    ensures Enabled(s, Act(p, s.top), pace)
    ensures var t := TurnStep(s, p, s.top); Closer(s, t, p) && InTurnStep(t.procs[p].pc) && HereTurn(t, p)
  {
    assert Knows(s, p, pace);
    TopIsLargest(s, pace);
  }

  lemma MakingWay(s: State, p: nat, pick: nat, pace: nat)
    requires OnWay(s, p, pace, true)
    requires var pc := s.procs[p].pc; pc.MakingTurn? || pc.SigningTurn?
    ensures var t := TurnStep(s, p, pick); Closer(s, t, p) && InTurnStep(t.procs[p].pc) && HereTurn(t, p)
  {
    assert Knows(s, p, pace);
  }

  lemma RelistWay(s: State, p: nat, pick: nat, pace: nat)
    requires OnWay(s, p, pace, true) && s.procs[p].pc.Relisting?
    ensures var t := TurnStep(s, p, pick); Closer(s, t, p) && InTurnStep(t.procs[p].pc) && HereTurn(t, p)
  {
    assert Knows(s, p, pace);
    TopIsLargest(s, pace);
    assert TurnsOf(s) == (set n | n in TurnsOf(s) && n < s.top) + {s.top};
  }

  lemma TidyWay(s: State, p: nat, pick: nat, pace: nat)
    requires s.Alive(p) && Knows(s, p, pace) && HereTurn(s, p) && s.procs[p].pc.Tidying? && pick in s.procs[p].pc.older
    ensures var t := TurnStep(s, p, pick); Closer(s, t, p) && InTurnStep(t.procs[p].pc) && HereTurn(t, p)
  {
    var older := s.procs[p].pc.older;
    RemovesTurn(s, pick);
    assert pick < s.top;
    assert |older - {pick}| < |older|;
  }

  lemma TidiedWay(s: State, p: nat, pick: nat, pace: nat)
    requires OnWay(s, p, pace, true) && s.procs[p].pc.Tidying? && s.procs[p].pc.older == {}
    ensures var t := TurnStep(s, p, pick); Closer(s, t, p) && InTurnStep(t.procs[p].pc) && HereTurn(t, p)
  {
  }

  lemma RemovesTurn(s: State, n: nat)
    ensures TurnsOf(Remove(s, Turn(n))) == TurnsOf(s) - {n} && SuffixesOf(Remove(s, Turn(n))) == SuffixesOf(s)
  {
  }

  lemma RemovesStale(s: State, x: nat)
    ensures TurnsOf(Remove(s, Stale(x))) == TurnsOf(s) && SuffixesOf(Remove(s, Stale(x))) == SuffixesOf(s) - {x}
  {
  }

  lemma SweepWay(s: State, p: nat, pick: nat, pace: nat)
    requires OnWay(s, p, pace, true)
    requires s.procs[p].pc.Sweeping? && s.procs[p].pc.garbage != {} && pick in s.procs[p].pc.garbage
    ensures var t := TurnStep(s, p, pick); Closer(s, t, p) && InTurnStep(t.procs[p].pc) && HereTurn(t, p)
  {
    var garbage := s.procs[p].pc.garbage;
    RemovesStale(s, pick);
    assert |garbage - {pick}| < |garbage|;
  }

  lemma SweptWay(s: State, p: nat, pick: nat, pace: nat)
    requires OnWay(s, p, pace, true) && s.procs[p].pc.Sweeping? && s.procs[p].pc.garbage == {}
    ensures var t := TurnStep(s, p, pick);
            Closer(s, t, p) && t.procs[p].pc.Linking? && HereBreak(t, p)
  {
    assert Knows(s, p, pace);
    var t := TurnStep(s, p, pick);
    assert Turn(s.top) in s.dir;
    assert forall x: nat :: Stale(x) in s.dir ==> x in SuffixesOf(s);
    forall n | n in t.dir
      ensures n == LockFile || n == Turn(s.top)
    {
      if n.Turn? { assert n.number in TurnsOf(s); }
    }
  }

  lemma ListStaleWay(s: State, p: nat, pick: nat, pace: nat)
    requires OnWay(s, p, pace, true) && s.procs[p].pc.ListingStale?
    ensures var t := TurnStep(s, p, pick); Closer(s, t, p) && InTurnStep(t.procs[p].pc) && HereTurn(t, p)
  {
    assert Knows(s, p, pace);
  }

  lemma LinkWay(s: State, p: nat, pick: nat)
    requires s.Alive(p) && Folder(s) && HereBreak(s, p) && s.procs[p].pc.Linking?
    ensures var t := BreakStep(s, p, pick); Closer(s, t, p) && t.procs[p].pc.Comparing? && HereBreak(t, p)
  {
  }

  lemma CompareWay(s: State, p: nat, pick: nat, pace: nat)
    requires s.Alive(p) && Folder(s) && HereBreak(s, p) && s.procs[p].pc.Comparing?
    requires Knows(s, p, pace)
    ensures var t := BreakStep(s, p, pick);
            Closer(s, t, p) && !InLockStep(t.procs[p].pc) && !InTurnStep(t.procs[p].pc) && HereBreak(t, p)
  {
  }

  lemma DateWay(s: State, p: nat, pick: nat)
    requires s.Alive(p) && Folder(s) && HereBreak(s, p) && s.procs[p].pc.Dating?
    ensures var t := BreakStep(s, p, pick); Closer(s, t, p) && t.procs[p].pc.Moving? && HereBreak(t, p)
  {
  }

  lemma MoveWay(s: State, p: nat, pick: nat, pace: nat)
    requires OnWay(s, p, pace, true)
    requires var pc := s.procs[p].pc; pc.Moving? || pc.Checking?
    ensures var t := BreakStep(s, p, pick);
            Closer(s, t, p) && !InLockStep(t.procs[p].pc) && !InTurnStep(t.procs[p].pc) && HereBreak(t, p)
  {
    assert Knows(s, p, pace);
  }

  lemma DropWay(s: State, p: nat, pick: nat)
    requires s.Alive(p) && HereBreak(s, p)
    requires var pc := s.procs[p].pc; pc.DroppingAside? || pc.DroppingCopy?
    ensures var t := BreakStep(s, p, pick);
            Closer(s, t, p) && !InLockStep(t.procs[p].pc) && !InTurnStep(t.procs[p].pc) && HereBreak(t, p)
  {
  }

  lemma CloseWay(s: State, p: nat, pick: nat, pace: nat)
    requires OnWay(s, p, pace, true) && s.procs[p].pc.Closing?
    ensures var t := BreakStep(s, p, pick); Closer(s, t, p) && t.procs[p].pc.Opening? && HereLock(t, p, true)
  {
    assert Knows(s, p, pace);
  }

  // ---- main results --------------------------------------------------------------------------

  lemma TakingWay(s: State, p: nat, pick: nat, pace: nat)
    requires OnWay(s, p, pace, true) && InTurnStep(s.procs[p].pc)
    requires var pc := s.procs[p].pc; !pc.ListingTurns? && !pc.GivingUp? && !pc.Tidying? && !pc.Sweeping?
    ensures var t := TurnStep(s, p, pick); Closer(s, t, p) && InTurnStep(t.procs[p].pc) && HereTurn(t, p)
  {
    var pc := s.procs[p].pc;
    if pc.ListingStale? { ListStaleWay(s, p, pick, pace); }
    else if pc.MakingTurn? || pc.SigningTurn? { MakingWay(s, p, pick, pace); }
    else if pc.Relisting? { RelistWay(s, p, pick, pace); }
    else { JudgingWay(s, p, pick, pace); }
  }

  /** The call of p that leads on from taking a turn. */
  lemma TurnWay(s: State, p: nat, pace: nat) returns (pick: nat)
    requires OnWay(s, p, pace, true) && InTurnStep(s.procs[p].pc)
    ensures s.procs[p].pc.ListingTurns? ==> Largest(TurnsOf(s), pick)
    ensures var t := TurnStep(s, p, pick);
            Closer(s, t, p) && !InLockStep(t.procs[p].pc)
            && (if InTurnStep(t.procs[p].pc) then HereTurn(t, p) else HereBreak(t, p))
  {
    pick := 1;
    var pc := s.procs[p].pc;
    if pc.ListingTurns? {
      pick := s.top;
      ListTurnsWay(s, p, pace);
    } else if pc.Tidying? {
      if pc.older == {} { TidiedWay(s, p, pick, pace); } else { pick :| pick in pc.older; TidyWay(s, p, pick, pace); }
    } else if pc.Sweeping? {
      if pc.garbage == {} {
        SweptWay(s, p, pick, pace);
      } else {
        pick :| pick in pc.garbage;
        SweepWay(s, p, pick, pace);
      }
    } else {
      TakingWay(s, p, pick, pace);
    }
  }

  lemma BreakWay(s: State, p: nat, pick: nat, pace: nat)
    requires OnWay(s, p, pace, true) && BreakerPc(s.procs[p].pc) && !InTurnStep(s.procs[p].pc)
    ensures var t := BreakStep(s, p, pick);
            Closer(s, t, p) && !InTurnStep(t.procs[p].pc)
            && (if InLockStep(t.procs[p].pc) then HereLock(t, p, true) else HereBreak(t, p))
  {
    var pc := s.procs[p].pc;
    assert Knows(s, p, pace);
    if pc.Linking? { LinkWay(s, p, pick); }
    else if pc.Comparing? { CompareWay(s, p, pick, pace); }
    else if pc.Dating? { DateWay(s, p, pick); }
    else if pc.Moving? || pc.Checking? { MoveWay(s, p, pick, pace); }
    else if pc.DroppingAside? || pc.DroppingCopy? { DropWay(s, p, pick); }
    else { CloseWay(s, p, pick, pace); }
  }

  lemma NextWay(s: State, p: nat, pace: nat, broke: bool) returns (pick: nat)
    requires pace <= FRESH_MS && OnWay(s, p, pace, broke) && !s.procs[p].pc.Holding?
    ensures Enabled(s, Act(p, pick), pace)
    ensures var t := Step(s, Act(p, pick)); OnWay(t, p, pace, broke) && Closer(s, t, p)
  {
    pick := 1;
    var pc := s.procs[p].pc;
    if InLockStep(pc) { LockWay(s, p, pace, broke); }
    else if InTurnStep(pc) { pick := TurnWay(s, p, pace); }
    else { BreakWay(s, p, pick, pace); }
    StaysAlone(s, p, pick, pace);
  }

  /** Only p acts, and no time passes. */
  predicate OnlyBy(schedule: seq<Action>, p: nat) {
    forall i :: 0 <= i < |schedule| ==> schedule[i].Act? && schedule[i].p == p
  }

  lemma Before(s: State, a: Action, rest: seq<Action>, p: nat, pace: nat)
    requires Enabled(s, a, pace) && Runs(Step(s, a), rest, pace) && OnlyBy(rest, p)
    requires a.Act? && a.p == p
    ensures var more := [a] + rest;
            Runs(s, more, pace) && OnlyBy(more, p) && Play(s, more) == Play(Step(s, a), rest)
  {
    assert ([a] + rest)[1..] == rest;
  }

  lemma {:induction false} GetsThere(s: State, p: nat, pace: nat, broke: bool) returns (more: seq<Action>)
    requires pace <= FRESH_MS && OnWay(s, p, pace, broke)
    ensures Runs(s, more, pace) && OnlyBy(more, p)
    ensures var t := Play(s, more); OnWay(t, p, pace, broke) && t.procs[p].pc.Holding?
    decreases Height(s, p), Rest(s, p)
  {
    more := [];
    if !s.procs[p].pc.Holding? {
      var pick := NextWay(s, p, pace, broke);
      var a := Act(p, pick);
      var rest := GetsThere(Step(s, a), p, pace, broke);
      Before(s, a, rest, p, pace);
      more := [a] + rest;
    }
  }

  lemma SetsOut(s: State, p: nat, pace: nat)
    requires Inv(s, pace) && Alone(s, p) && s.procs[p].pc.Opening?
    requires LockOwned(s) && TurnOwned(s) && LockRipe(s) && TurnRipe(s)
    ensures OnWay(s, p, pace, LockFile in s.dir)
  {
  }

  /** One lock file, and one turn, released. */
  ghost predicate Tidy(s: State) {
    exists n: nat :: s.dir.Keys == {LockFile, Turn(n)} && s.dir[Turn(n)] in s.files
      && s.At(Turn(n)).text.Record? && s.At(Turn(n)).text.released
  }

  lemma ThereIsTidy(s: State, p: nat)
    requires p in s.procs && s.procs[p].pc.Holding? && HereLock(s, p, true)
    ensures Tidy(s)
  {
    assert s.dir.Keys == {LockFile, Turn(s.top)};
  }

  /** p holds the lock; if one was in its way, it is gone, with every scratch link and every turn but the newest. */
  ghost predicate Has(s: State, p: nat, broke: bool) { Holds(s, p) && (broke ==> Tidy(s)) }

  lemma FromThere(s: State, pace: nat, p: nat) returns (more: seq<Action>)
    requires pace <= FRESH_MS && Inv(s, pace) && Alone(s, p) && s.procs[p].pc.Opening?
    requires LockOwned(s) && TurnOwned(s) && LockRipe(s) && TurnRipe(s)
    ensures Runs(s, more, pace) && OnlyBy(more, p) && Has(Play(s, more), p, LockFile in s.dir)
  {
    SetsOut(s, p, pace);
    more := GetsThere(s, p, pace, LockFile in s.dir);
    if LockFile in s.dir { ThereIsTidy(Play(s, more), p); }
  }

  lemma Waits(s: State, ms: nat, pace: nat, p: nat)
    requires pace <= FRESH_MS && Inv(s, pace) && Alone(s, p) && s.procs[p].pc.Opening? && LockOwned(s) && TurnOwned(s)
    requires ms > BREAK_MUTEX_STALE_MS
    ensures Enabled(s, Tick(ms), pace)
    ensures var t := Step(s, Tick(ms));
            Inv(t, pace) && Alone(t, p) && LockOwned(t) && TurnOwned(t) && LockRipe(t) && TurnRipe(t)
  {
    TickKeeps(s, ms, pace);
    Ripens(s, ms);
  }

  lemma Ripens(s: State, ms: nat)
    requires Folder(s) && ms > BREAK_MUTEX_STALE_MS
    ensures LockRipe(s.(now := s.now + ms)) && TurnRipe(s.(now := s.now + ms))
  {
  }

  /** Wants the lock while everybody else is dead or in no call. */
  ghost predicate WantsAlone(s: State, p: nat) {
    s.Alive(p) && s.procs[p].pc.Opening? && forall q :: s.Alive(q) && q != p ==> s.procs[q].pc.Idle?
  }

  /**
   Whatever died in the middle of whatever call, and whatever it left: a process that wants the lock while everybody
   else is dead or in no call gets it by its own calls alone, at once if what cannot be read in the folder is old
   enough.
   */
  lemma HadAtOnce(schedule: seq<Action>, pace: nat, p: nat) returns (more: seq<Action>)
    requires pace <= FRESH_MS && Runs(START, schedule, pace) && WantsAlone(Play(START, schedule), p)
    requires LockRipe(Play(START, schedule)) && TurnRipe(Play(START, schedule))
    ensures var s := Play(START, schedule);
            && Runs(s, more, pace) && (forall i :: 0 <= i < |more| ==> more[i].Act? && more[i].p == p)
            && Has(Play(s, more), p, LockFile in s.dir)
  {
    PlayKeeps(START, schedule, pace);
    PlayOwned(START, schedule, pace);
    more := FromThere(Play(START, schedule), pace, p);
  }

  /** And always once BREAK_MUTEX_STALE_MS have passed. */
  lemma AlwaysToBeHad(schedule: seq<Action>, pace: nat, p: nat) returns (more: seq<Action>)
    requires pace <= FRESH_MS && Runs(START, schedule, pace) && WantsAlone(Play(START, schedule), p)
    ensures var s := Play(START, schedule); var all := [Tick(BREAK_MUTEX_STALE_MS + 1)] + more;
            && Runs(s, all, pace) && (forall i :: 0 <= i < |more| ==> more[i].Act? && more[i].p == p)
            && Has(Play(s, all), p, LockFile in s.dir)
  {
    PlayKeeps(START, schedule, pace);
    PlayOwned(START, schedule, pace);
    var s := Play(START, schedule);
    var a := Tick(BREAK_MUTEX_STALE_MS + 1);
    Waits(s, BREAK_MUTEX_STALE_MS + 1, pace, p);
    more := FromThere(Step(s, a), pace, p);
    assert ([a] + more)[1..] == more;
  }

  // ---- from anywhere in a call ---------------------------------------------------------------

  /** In the middle of a call: waiting for the lock or breaking a stale one. */
  predicate Waiting(pc: Pc) { !pc.Idle? && !pc.Writing? && !pc.Holding? && !pc.Unlocking? && !pc.Removing? }

  /** Ready to try for the lock again, or closer to that. */
  predicate ComesCloser(s: State, t: State, p: nat)
    requires p in s.procs
  {
    p in t.procs && Waiting(t.procs[p].pc) && (t.procs[p].pc.Opening? || Closer(s, t, p))
  }

  lemma LockComesBack(s: State, p: nat)
    requires s.Alive(p) && InLockStep(s.procs[p].pc) && Waiting(s.procs[p].pc) && !s.procs[p].pc.Opening?
    ensures ComesCloser(s, LockStep(s, p, 1), p)
  {
  }

  lemma JudgingComesBack(s: State, p: nat, pick: nat)
    requires s.Alive(p) && pick > 0
    requires var pc := s.procs[p].pc;
             pc.ListingTurns? || pc.StatingTurn? || pc.ReadingTurn? || pc.OwningTurn? || pc.TimingTurn?
    ensures ComesCloser(s, TurnStep(s, p, pick), p)
  {
  }

  lemma ListingComesBack(s: State, p: nat)
    requires s.Alive(p) && s.procs[p].pc.ListingTurns?
    ensures ComesCloser(s, TurnStep(s, p, 0), p)
  {
  }

  lemma MakingComesBack(s: State, p: nat)
    requires s.Alive(p)
    requires var me := s.procs[p];
             me.pc.MakingTurn? || (me.pc.SigningTurn? && me.turn in s.files) || me.pc.GivingUp? || me.pc.ListingStale?
    ensures ComesCloser(s, TurnStep(s, p, 1), p)
  {
  }

  lemma RelistingComesBack(s: State, p: nat, pick: nat)
    requires s.Alive(p) && s.procs[p].pc.Relisting?
    ensures ComesCloser(s, TurnStep(s, p, pick), p)
  {
  }

  lemma RemovingComesBack(s: State, p: nat) returns (pick: nat)
    requires s.Alive(p) && (s.procs[p].pc.Tidying? || s.procs[p].pc.Sweeping?)
    ensures ComesCloser(s, TurnStep(s, p, pick), p)
  {
    var left := if s.procs[p].pc.Tidying? then s.procs[p].pc.older else s.procs[p].pc.garbage;
    pick := 0;
    if left != {} {
      pick :| pick in left;
      assert |left - {pick}| < |left|;
    }
  }

  lemma BreakComesBack(s: State, p: nat, pick: nat)
    requires s.Alive(p) && BreakerPc(s.procs[p].pc) && !InTurnStep(s.procs[p].pc) && !s.procs[p].pc.PuttingBack?
    ensures ComesCloser(s, BreakStep(s, p, pick), p) || BreakStep(s, p, pick).procs[p].pc.PuttingBack?
  {
  }

  lemma NextBack(s: State, p: nat, pace: nat) returns (pick: nat)
    requires pace <= FRESH_MS && Inv(s, pace) && s.Alive(p) && Waiting(s.procs[p].pc) && !s.procs[p].pc.Opening?
    ensures Enabled(s, Act(p, pick), pace)
    ensures var t := Step(s, Act(p, pick)); Inv(t, pace) && t.Alive(p) && ComesCloser(s, t, p)
  {
    assert Knows(s, p, pace);
    pick := 1;
    var pc := s.procs[p].pc;
    if InLockStep(pc) {
      LockComesBack(s, p);
    } else if pc.ListingTurns? {
      pick := s.top;
      TopIsLargest(s, pace);
      if s.top == 0 { ListingComesBack(s, p); } else { JudgingComesBack(s, p, s.top); }
    } else if pc.Tidying? || pc.Sweeping? {
      pick := RemovingComesBack(s, p);
    } else if pc.Relisting? {
      RelistingComesBack(s, p, 1);
    } else if pc.MakingTurn? || pc.SigningTurn? || pc.GivingUp? || pc.ListingStale? {
      MakingComesBack(s, p);
    } else if InTurnStep(pc) {
      JudgingComesBack(s, p, 1);
    } else {
      BreakComesBack(s, p, 1);
    }
    StaysAlive(s, p, pick, pace);
  }

  lemma StaysAlive(s: State, p: nat, pick: nat, pace: nat)
    requires pace <= FRESH_MS && Inv(s, pace) && Enabled(s, Act(p, pick), pace)
    ensures var t := Step(s, Act(p, pick)); Inv(t, pace) && t.Alive(p) && !t.procs[p].pc.PuttingBack?
  {
    StepKeeps(s, Act(p, pick), pace);
    CallIsPrivate(s, p, pick);
    TurnIsPrivate(s, p, pick);
    BreakIsPrivate(s, p, pick);
    MovesTheJudged(Step(s, Act(p, pick)), p, pace);
  }

  lemma {:induction false} ComesBack(s: State, p: nat, pace: nat) returns (more: seq<Action>)
    requires pace <= FRESH_MS && Inv(s, pace) && s.Alive(p) && Waiting(s.procs[p].pc)
    ensures Runs(s, more, pace) && OnlyBy(more, p)
    ensures var t := Play(s, more); t.Alive(p) && t.procs[p].pc.Opening?
    decreases if s.procs[p].pc.Opening? then 0 else 1, Height(s, p), Rest(s, p)
  {
    more := [];
    if !s.procs[p].pc.Opening? {
      var pick := NextBack(s, p, pace);
      var a := Act(p, pick);
      var rest := ComesBack(Step(s, a), p, pace);
      Before(s, a, rest, p, pace);
      more := [a] + rest;
    }
  }

  /**
   No call is ever stuck: wherever a process is in waiting for the lock or breaking a stale one, whatever the others did
   or left in between, its own calls bring it to where it tries for the lock again.
   */
  lemma AlwaysTriesAgain(schedule: seq<Action>, pace: nat, p: nat) returns (more: seq<Action>)
    requires pace <= FRESH_MS && Runs(START, schedule, pace)
    requires Play(START, schedule).Alive(p) && Waiting(Play(START, schedule).procs[p].pc)
    ensures Runs(Play(START, schedule), more, pace)
    ensures forall i :: 0 <= i < |more| ==> more[i].Act? && more[i].p == p
    ensures var t := Play(Play(START, schedule), more); t.Alive(p) && t.procs[p].pc.Opening?
  {
    PlayKeeps(START, schedule, pace);
    more := ComesBack(Play(START, schedule), p, pace);
  }

  /** A holder's last three calls give the lock back: its name is free again, and nothing else is touched. */
  lemma AlwaysReleased(schedule: seq<Action>, pace: nat, p: nat)
    requires pace <= FRESH_MS && Runs(START, schedule, pace)
    requires var s := Play(START, schedule); s.Alive(p) && s.procs[p].pc.Holding?
    ensures var s := Play(START, schedule); var a := Act(p, 0); var t := Play(s, [a, a, a]);
            && Runs(s, [a, a, a], pace) && p in t.procs && t.procs[p].pc.Idle?
            && t.dir == s.dir - {LockFile} && t.files == s.files
  {
    PlayKeeps(START, schedule, pace);
    var s := Play(START, schedule);
    assert Knows(s, p, pace);
    var a := Act(p, 0);
    Unlocks(s, p, pace);
    var s2 := Goto(Goto(s, p, Unlocking), p, Removing);
    assert [a, a, a][1..] == [a, a] && [a, a][1..] == [a];
    assert Play(s, [a, a, a]) == Play(s2, [a]);
    Removes(s2, p, a, pace);
  }

  lemma Unlocks(s: State, p: nat, pace: nat)
    requires s.Alive(p) && Knows(s, p, pace) && s.procs[p].pc.Holding?
    ensures var u := Goto(s, p, Unlocking);
            Step(s, Act(p, 0)) == u && Step(u, Act(p, 0)) == Goto(u, p, Removing)
  {
  }

  lemma Removes(s: State, p: nat, a: Action, pace: nat)
    requires s.Alive(p) && s.procs[p].pc.Removing? && a == Act(p, 0)
    ensures Runs(s, [a], pace) && Play(s, [a]) == Goto(Remove(s, LockFile), p, Idle)
  {
    assert [a][1..] == [];
  }
}
