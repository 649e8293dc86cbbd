/** What every interleaving of the lock protocol keeps. */
module LockSafety {
  import opened LockProtocol

  /** Between taking and releasing the lock. */
  predicate Holds(s: State, p: nat) {
    s.Alive(p) && var pc := s.procs[p].pc; pc.Writing? || pc.Holding? || pc.Unlocking? || pc.Removing?
  }

  predicate BreakerPc(pc: Pc) {
    pc.Tidying? || pc.ListingStale? || pc.Sweeping? || pc.Linking? || pc.Comparing? || pc.Dating? || pc.Moving?
    || pc.Checking? || pc.PuttingBack? || pc.DroppingAside? || pc.DroppingCopy? || pc.Closing?
  }

  /** Holding a breakers' turn: past the second listing, not yet released. */
  predicate Breaks(s: State, p: nat) {
    s.Alive(p) && BreakerPc(s.procs[p].pc)
  }

  // ---- the invariant ------------------------------------------------------------------------

  ghost predicate Folder(s: State) {
    && (forall n :: n in s.dir ==> s.dir[n] in s.files && (s.files[s.dir[n]].turn <==> n.Turn?))
    && (forall i :: i in s.files ==>
         i < s.next && s.files[i].mtime <= s.now && s.files[i].creator in s.procs
         && Written(s.files[i]))
    && (forall x: nat :: Stale(x) in s.dir ==> x < s.next)
    && (s.top == 0 || Turn(s.top) in s.dir)
    && (forall n: nat :: Turn(n) in s.dir ==> 1 <= n <= s.top)
  }

  predicate Written(f: File) {
    f.text.Record? ==> f.text.pid == f.creator && (f.text.released ==> f.turn)
  }

  /** An unwritten file of a live process is about to be written by it. */
  ghost predicate Drafts(s: State) {
    forall i :: i in s.files && s.files[i].text.Blank? && s.Alive(s.files[i].creator) ==>
      var q := s.procs[s.files[i].creator];
      (q.pc == Writing(s.files[i].mtime) && q.lock == i) || (q.pc == SigningTurn(s.files[i].mtime) && q.turn == i)
  }

  /** The file's breaker gave the turn back or died. */
  predicate Finished(s: State, f: File) {
    f.creator in s.dead || (f.text.Record? && f.text.released)
  }

  /** Our own turn file: the newest one until a higher one is made. */
  predicate OwnTurn(s: State, p: nat)
    requires p in s.procs
  {
    var me := s.procs[p];
    && me.turn in s.files && s.files[me.turn].creator == p && s.files[me.turn].turn
    && 1 <= me.number <= s.top
    && (me.number == s.top ==> Turn(me.number) in s.dir && s.dir[Turn(me.number)] == me.turn)
  }

  predicate Signed(s: State, p: nat)
    requires p in s.procs && s.procs[p].turn in s.files
  {
    var text := s.files[s.procs[p].turn].text;
    text.Record? && !text.released
  }

  predicate TopFinished(s: State) {
    s.top > 0 && Turn(s.top) in s.dir && s.dir[Turn(s.top)] in s.files ==> Finished(s, s.At(Turn(s.top)))
  }

  predicate TopAlive(s: State) {
    Turn(s.top) in s.dir && s.dir[Turn(s.top)] in s.files && s.At(Turn(s.top)).creator !in s.dead
  }

  predicate OwnLock(s: State, p: nat)
    requires p in s.procs
  {
    var me := s.procs[p];
    && me.lock in s.files && s.files[me.lock].creator == p
    && LockFile in s.dir && s.dir[LockFile] == me.lock
  }

  predicate LinkedTo(s: State, copy: nat) {
    Stale(copy) in s.dir && s.dir[Stale(copy)] in s.files && !s.At(Stale(copy)).turn
  }

  predicate InPlace(s: State, copy: nat)
    requires Stale(copy) in s.dir
  {
    LockFile in s.dir && s.dir[LockFile] == s.dir[Stale(copy)]
  }

  /** What a process that judged the newest turn knows, as long as that turn is still the newest. */
  predicate Seen(s: State, newest: nat, seen: nat) {
    1 <= newest <= s.top
    && (newest == s.top && Turn(newest) in s.dir && s.dir[Turn(newest)] in s.files ==>
          s.At(Turn(newest)).text.Blank? ==> s.At(Turn(newest)).mtime == seen)
  }

  /** The holder's file stays at the lock's name. */
  predicate KnowsLock(s: State, p: nat)
    requires p in s.procs
  {
    var me := s.procs[p];
    match me.pc
    case Writing(since) => OwnLock(s, p) && s.files[me.lock].text.Blank? && s.files[me.lock].mtime == since
    case Holding => OwnLock(s, p) && s.files[me.lock].text == Record(p, me.serial, false)
    case Unlocking => OwnLock(s, p) && s.files[me.lock].text == Record(p, me.serial, false)
    case Removing => OwnLock(s, p) && s.files[me.lock].text == Record(p, me.serial, false)
    case _ => true
  }

  /** Judging the newest turn, making the next one, and finding it the newest on the second look. */
  ghost predicate KnowsTurn(s: State, p: nat, pace: nat)
    requires p in s.procs
  {
    var me := s.procs[p];
    match me.pc
    case StatingTurn(newest) => 1 <= newest <= s.top
    case ReadingTurn(newest, seen) => Seen(s, newest, seen)
    case OwningTurn(newest, seen) => Seen(s, newest, seen)
    case TimingTurn(newest, seen, since) =>
      && Seen(s, newest, seen) && since <= s.now
      && (newest == s.top && TopAlive(s) ==> seen <= since <= seen + pace)
    case MakingTurn => 1 <= me.number <= s.top + 1 && (me.number == s.top + 1 ==> TopFinished(s))
    case SigningTurn(since) =>
      OwnTurn(s, p) && s.files[me.turn].text.Blank? && s.files[me.turn].mtime == since
    case Relisting => OwnTurn(s, p) && Signed(s, p)
    case GivingUp => me.number < s.top
    case Tidying(older) => forall n :: n in older ==> n < s.top
    case _ => true
  }

  /** The link a breaker compares and the lock it moves are the same file. */
  predicate KnowsBreak(s: State, p: nat)
    requires p in s.procs
  {
    var me := s.procs[p];
    match me.pc
    case Comparing(copy) =>
      && LinkedTo(s, copy)
      && (s.At(Stale(copy)).text.Blank? ==> InPlace(s, copy))
      && (Matches(s.At(Stale(copy)).text, me.judged) ==> InPlace(s, copy))
    case Dating(copy, since) =>
      && LinkedTo(s, copy) && since <= s.now
      && (s.At(Stale(copy)).text.Blank? ==> InPlace(s, copy))
      && (s.At(Stale(copy)).text.Record? ==> since <= s.At(Stale(copy)).mtime)
    case Moving(copy) => LinkedTo(s, copy) && InPlace(s, copy) && s.At(Stale(copy)).creator in s.dead
    case Checking(copy, aside) => LinkedTo(s, copy) && LinkedTo(s, aside) && s.dir[Stale(copy)] == s.dir[Stale(aside)]
    case PuttingBack(_, _) => false
    case _ => true
  }

  predicate Matches(text: Text, judged: Judged) {
    text.Record? && judged == Holder(text.pid, text.serial)
  }

  /** What a live process relies on at its program counter. */
  ghost predicate Knows(s: State, p: nat, pace: nat)
    requires p in s.procs
  {
    var me := s.procs[p];
    && OnTime(s, p, pace)
    && (BreakerPc(me.pc) ==> OwnTurn(s, p) && me.number == s.top && Signed(s, p))
    && (InBreak(me.pc) && me.judged.Holder? ==> me.judged.pid in s.dead)
    && KnowsLock(s, p) && KnowsTurn(s, p, pace) && KnowsBreak(s, p)
  }

  predicate InBreak(pc: Pc) {
    BreakerPc(pc) || InTurnStep(pc)
  }

  ghost predicate Inv(s: State, pace: nat) {
    && Folder(s) && Drafts(s)
    && (forall q :: q in s.dead ==> q in s.procs)
    && (forall p :: s.Alive(p) ==> Knows(s, p, pace))
  }

  // ---- one breaker, one holder --------------------------------------------------------------

  /** At most one live process holds a turn, and its turn is the newest. */
  lemma OneBreaker(s: State, p: nat, q: nat, pace: nat)
    requires Inv(s, pace) && Breaks(s, p) && Breaks(s, q)
    ensures p == q && s.procs[p].number == s.top
  {
    assert Knows(s, p, pace) && Knows(s, q, pace);
  }

  /** At most one live process is between taking and releasing the lock. */
  lemma OneHolder(s: State, p: nat, q: nat, pace: nat)
    requires Inv(s, pace) && Holds(s, p) && Holds(s, q)
    ensures p == q
  {
    assert Knows(s, p, pace) && Knows(s, q, pace);
  }

  // ---- steps that change nothing but the process itself ---------------------------------------

  predicate SameFolder(s: State, t: State) {
    s.now == t.now && s.dir == t.dir && s.files == t.files && s.dead == t.dead && s.top == t.top && s.next <= t.next
  }

  lemma SameKnows(s: State, t: State, q: nat, pace: nat)
    requires q in s.procs && q in t.procs && s.procs[q] == t.procs[q]
    requires SameFolder(s, t) && Knows(s, q, pace)
    ensures Knows(t, q, pace)
  {
  }

  lemma MoveKeeps(s: State, t: State, p: nat, pace: nat)
    requires Inv(s, pace) && s.Alive(p) && !s.procs[p].pc.Writing? && !s.procs[p].pc.SigningTurn?
    requires Moved(s, t, p) && Knows(t, p, pace)
    ensures Inv(t, pace)
  {
    forall q | t.Alive(q)
      ensures Knows(t, q, pace)
    {
      if q != p { SameKnows(s, t, q, pace); }
    }
  }

  // ---- steps that change the folder: what they do to every other process -----------------------

  /** Creating the lock file: its name was free, so nobody held it and nothing was linked in place. */
  lemma CreateLockKnows(s: State, p: nat, q: nat, pace: nat)
    requires Folder(s) && q in s.procs && Knows(s, q, pace) && LockFile !in s.dir
    ensures Knows(Create(s, p, LockFile), q, pace)
  {
  }

  /** Writing the holder record into our own lock file. */
  lemma WriteLockKnows(s: State, p: nat, q: nat, pace: nat)
    requires Folder(s) && q in s.procs && Knows(s, q, pace) && p != q && s.Alive(p) && Knows(s, p, pace)
    requires s.procs[p].pc.Writing?
    ensures Knows(Write(s, s.procs[p].lock, Record(p, s.procs[p].serial, false)), q, pace)
  {
  }

  /** Releasing: the name still led to our own written file. */
  lemma RemoveLockKnows(s: State, p: nat, q: nat, pace: nat)
    requires Folder(s) && s.Alive(q) && Knows(s, q, pace) && p != q && s.Alive(p) && Knows(s, p, pace)
    requires s.procs[p].pc.Removing?
    ensures Knows(Remove(s, LockFile), q, pace)
  {
  }

  /** Making turn `n`: if it becomes the newest, no live process holds a turn. */
  lemma MakeTurnKnows(s: State, p: nat, q: nat, pace: nat)
    requires Folder(s) && s.Alive(q) && Knows(s, q, pace) && p != q && s.Alive(p) && Knows(s, p, pace)
    requires s.procs[p].pc.MakingTurn? && Turn(s.procs[p].number) !in s.dir
    ensures var n := s.procs[p].number;
            Knows(Create(s, p, Turn(n)).(top := if n > s.top then n else s.top), q, pace)
  {
  }

  /** Signing our own turn file. */
  lemma SignTurnKnows(s: State, p: nat, q: nat, serial: nat, pace: nat)
    requires Folder(s) && s.Alive(q) && Knows(s, q, pace) && p != q && s.Alive(p) && Knows(s, p, pace)
    requires s.procs[p].pc.SigningTurn?
    ensures Knows(Write(s, s.procs[p].turn, Record(p, serial, false)), q, pace)
  {
    SignTurnKnowsBreak(s, p, q, serial, pace);
    SignTurnKnowsTurn(s, p, q, serial, pace);
  }

  lemma SignTurnKnowsBreak(s: State, p: nat, q: nat, serial: nat, pace: nat)
    requires Folder(s) && s.Alive(q) && Knows(s, q, pace) && p != q && s.Alive(p) && Knows(s, p, pace)
    requires s.procs[p].pc.SigningTurn?
    ensures KnowsBreak(Write(s, s.procs[p].turn, Record(p, serial, false)), q)
  {
  }

  lemma SignTurnKnowsTurn(s: State, p: nat, q: nat, serial: nat, pace: nat)
    requires Folder(s) && s.Alive(q) && Knows(s, q, pace) && p != q && s.Alive(p) && Knows(s, p, pace)
    requires s.procs[p].pc.SigningTurn?
    ensures KnowsTurn(Write(s, s.procs[p].turn, Record(p, serial, false)), q, pace)
  {
  }

  /** Removing a turn that is not the newest. */
  lemma RemoveTurnKnows(s: State, n: nat, q: nat, pace: nat)
    requires Folder(s) && s.Alive(q) && Knows(s, q, pace) && n < s.top
    ensures Knows(Remove(s, Turn(n)), q, pace)
  {
  }

  /** A new link, under a suffix nobody else has. */
  lemma AddStaleKnows(s: State, ino: nat, q: nat, pace: nat)
    requires Folder(s) && s.Alive(q) && Knows(s, q, pace)
    ensures Knows(s.(dir := s.dir[Stale(s.next) := ino], next := s.next + 1), q, pace)
  {
  }

  /** Removing a link while no other live process breaks. */
  lemma RemoveStaleKnows(s: State, x: nat, q: nat, pace: nat)
    requires Folder(s) && s.Alive(q) && Knows(s, q, pace) && !BreakerPc(s.procs[q].pc)
    ensures Knows(Remove(s, Stale(x)), q, pace)
  {
    RemoveStaleKnowsTurn(s, x, q, pace);
  }

  lemma RemoveStaleKnowsTurn(s: State, x: nat, q: nat, pace: nat)
    requires s.Alive(q) && Folder(s) && KnowsTurn(s, q, pace)
    ensures KnowsTurn(Remove(s, Stale(x)), q, pace)
  {
  }

  /** Renaming the lock aside: it was a dead process's. */
  lemma RenameKnows(s: State, p: nat, q: nat, pace: nat)
    requires Folder(s) && s.Alive(q) && Knows(s, q, pace) && p != q && s.Alive(p) && Knows(s, p, pace)
    requires s.procs[p].pc.Moving? && !BreakerPc(s.procs[q].pc)
    ensures Knows(s.(dir := (s.dir - {LockFile})[Stale(s.next) := s.dir[LockFile]], next := s.next + 1), q, pace)
  {
  }

  /** Marking our own turn released. */
  lemma CloseTurnKnows(s: State, p: nat, q: nat, pace: nat)
    requires Folder(s) && s.Alive(q) && Knows(s, q, pace) && p != q && s.Alive(p) && Knows(s, p, pace)
    requires s.procs[p].pc.Closing?
    ensures Knows(Write(s, s.procs[p].turn, s.files[s.procs[p].turn].text.(released := true)), q, pace)
  {
  }

  // ---- every step keeps the invariant ---------------------------------------------------------

  /** A step of p from `s` to `t` whose folder is that of `u`. */
  lemma Together(s: State, u: State, t: State, p: nat, pace: nat)
    requires Inv(s, pace) && s.Alive(p) && p in t.procs
    requires SameFolder(u, t) && u.procs == s.procs && t.procs == s.procs[p := t.procs[p]] && t.dead == s.dead
    requires Folder(t) && Drafts(t) && Knows(t, p, pace)
    requires forall q :: s.Alive(q) && q != p ==> Knows(u, q, pace)
    ensures Inv(t, pace)
  {
    forall q | t.Alive(q)
      ensures Knows(t, q, pace)
    {
      if q != p { SameKnows(u, t, q, pace); }
    }
  }

  lemma OpenFolder(s: State, p: nat, pace: nat)
    requires Folder(s) && Drafts(s) && s.Alive(p) && s.procs[p].pc.Opening? && LockFile !in s.dir
    ensures var t := LockStep(s, p, 0); Folder(t) && Drafts(t) && Knows(t, p, pace)
  {
    OpenOwn(s, p, pace);
  }

  lemma OpenOwn(s: State, p: nat, pace: nat)
    requires Folder(s) && Drafts(s) && s.Alive(p) && s.procs[p].pc.Opening? && LockFile !in s.dir
    ensures Knows(LockStep(s, p, 0), p, pace)
  {
  }

  lemma OpenKeeps(s: State, p: nat, pick: nat, pace: nat)
    requires Inv(s, pace) && s.Alive(p) && s.procs[p].pc.Opening? && LockFile !in s.dir
    ensures Inv(LockStep(s, p, pick), pace)
  {
    forall q | s.Alive(q) && q != p
      ensures Knows(Create(s, p, LockFile), q, pace)
    {
      CreateLockKnows(s, p, q, pace);
    }
    OpenFolder(s, p, pace);
    Together(s, Create(s, p, LockFile), LockStep(s, p, pick), p, pace);
  }

  lemma WriteFolder(s: State, p: nat, pace: nat)
    requires Folder(s) && Drafts(s) && s.Alive(p) && s.procs[p].pc.Writing? && Knows(s, p, pace)
    ensures var t := LockStep(s, p, 0); Folder(t) && Drafts(t)
  {
  }

  lemma WriteOwn(s: State, p: nat, pace: nat)
    requires s.Alive(p) && s.procs[p].pc.Writing? && Knows(s, p, pace)
    ensures Knows(LockStep(s, p, 0), p, pace)
  {
  }

  lemma WriteKeeps(s: State, p: nat, pick: nat, pace: nat)
    requires Inv(s, pace) && s.Alive(p) && s.procs[p].pc.Writing?
    ensures Inv(LockStep(s, p, pick), pace)
  {
    var u := Write(s, s.procs[p].lock, Record(p, s.procs[p].serial, false));
    forall q | s.Alive(q) && q != p
      ensures Knows(u, q, pace)
    {
      WriteLockKnows(s, p, q, pace);
    }
    WriteFolder(s, p, pace);
    WriteOwn(s, p, pace);
    Together(s, u, LockStep(s, p, pick), p, pace);
  }

  lemma RemoveKeeps(s: State, p: nat, pick: nat, pace: nat)
    requires Inv(s, pace) && s.Alive(p) && s.procs[p].pc.Removing?
    ensures Inv(LockStep(s, p, pick), pace)
  {
    var u := Remove(s, LockFile);
    forall q | s.Alive(q) && q != p
      ensures Knows(u, q, pace)
    {
      RemoveLockKnows(s, p, q, pace);
    }
    RemoveOwn(s, p, pick, pace);
    Together(s, u, LockStep(s, p, pick), p, pace);
  }

  lemma RemoveOwn(s: State, p: nat, pick: nat, pace: nat)
    requires Folder(s) && Drafts(s) && s.Alive(p) && Knows(s, p, pace) && s.procs[p].pc.Removing?
    ensures var t := LockStep(s, p, pick);
            && p in t.procs && t == Remove(s, LockFile).(procs := s.procs[p := t.procs[p]])
            && Folder(t) && Drafts(t) && Knows(t, p, pace)
  {
  }

  /** Only p's own program counter and locals moved on. */
  predicate Moved(s: State, t: State, p: nat) {
    SameFolder(s, t) && p in t.procs && t.procs == s.procs[p := t.procs[p]]
  }

  lemma HoldKnows(s: State, p: nat, pick: nat, pace: nat)
    requires s.Alive(p) && Knows(s, p, pace)
             && (s.procs[p].pc.Holding? || (s.procs[p].pc.Opening? && LockFile in s.dir))
    ensures Moved(s, LockStep(s, p, pick), p) && Knows(LockStep(s, p, pick), p, pace)
  {
  }

  lemma UnlockKnows(s: State, p: nat, pick: nat, pace: nat)
    requires s.Alive(p) && Knows(s, p, pace) && s.procs[p].pc.Unlocking?
    ensures Moved(s, LockStep(s, p, pick), p) && Knows(LockStep(s, p, pick), p, pace)
  {
  }

  lemma ReadKnows(s: State, p: nat, pick: nat, pace: nat)
    requires s.Alive(p) && Knows(s, p, pace) && s.procs[p].pc.Reading?
    ensures Moved(s, LockStep(s, p, pick), p) && Knows(LockStep(s, p, pick), p, pace)
  {
  }

  lemma AgeKnows(s: State, p: nat, pick: nat, pace: nat)
    requires s.Alive(p) && Knows(s, p, pace) && s.procs[p].pc.Aging?
    ensures Moved(s, LockStep(s, p, pick), p) && Knows(LockStep(s, p, pick), p, pace)
  {
  }

  lemma JudgeKnows(s: State, p: nat, pick: nat, pace: nat)
    requires s.Alive(p) && Knows(s, p, pace) && s.procs[p].pc.Judging?
    ensures Moved(s, LockStep(s, p, pick), p) && Knows(LockStep(s, p, pick), p, pace)
  {
  }

  lemma HoldKeeps(s: State, p: nat, pick: nat, pace: nat)
    requires Inv(s, pace) && s.Alive(p) && (s.procs[p].pc.Holding? || (s.procs[p].pc.Opening? && LockFile in s.dir))
    ensures Inv(LockStep(s, p, pick), pace)
  {
    HoldKnows(s, p, pick, pace);
    MoveKeeps(s, LockStep(s, p, pick), p, pace);
  }

  lemma UnlockKeeps(s: State, p: nat, pick: nat, pace: nat)
    requires Inv(s, pace) && s.Alive(p) && s.procs[p].pc.Unlocking?
    ensures Inv(LockStep(s, p, pick), pace)
  {
    UnlockKnows(s, p, pick, pace);
    MoveKeeps(s, LockStep(s, p, pick), p, pace);
  }

  lemma ReadKeeps(s: State, p: nat, pick: nat, pace: nat)
    requires Inv(s, pace) && s.Alive(p) && s.procs[p].pc.Reading?
    ensures Inv(LockStep(s, p, pick), pace)
  {
    ReadKnows(s, p, pick, pace);
    MoveKeeps(s, LockStep(s, p, pick), p, pace);
  }

  lemma AgeKeeps(s: State, p: nat, pick: nat, pace: nat)
    requires Inv(s, pace) && s.Alive(p) && s.procs[p].pc.Aging?
    ensures Inv(LockStep(s, p, pick), pace)
  {
    AgeKnows(s, p, pick, pace);
    MoveKeeps(s, LockStep(s, p, pick), p, pace);
  }

  lemma JudgeKeeps(s: State, p: nat, pick: nat, pace: nat)
    requires Inv(s, pace) && s.Alive(p) && s.procs[p].pc.Judging?
    ensures Inv(LockStep(s, p, pick), pace)
  {
    JudgeKnows(s, p, pick, pace);
    MoveKeeps(s, LockStep(s, p, pick), p, pace);
  }

  lemma LockStepKeeps(s: State, p: nat, pick: nat, pace: nat)
    requires Inv(s, pace) && s.Alive(p) && InLockStep(s.procs[p].pc)
    ensures Inv(LockStep(s, p, pick), pace)
  {
    match s.procs[p].pc
    case Opening => if LockFile in s.dir { HoldKeeps(s, p, pick, pace); } else { OpenKeeps(s, p, pick, pace); }
    case Writing(_) => WriteKeeps(s, p, pick, pace);
    case Holding => HoldKeeps(s, p, pick, pace);
    case Unlocking => UnlockKeeps(s, p, pick, pace);
    case Removing => RemoveKeeps(s, p, pick, pace);
    case Reading => ReadKeeps(s, p, pick, pace);
    case Aging => AgeKeeps(s, p, pick, pace);
    case Judging(_, _) => JudgeKeeps(s, p, pick, pace);
  }

  lemma MakeTurnFolder(s: State, p: nat, pace: nat)
    requires Folder(s) && Drafts(s) && s.Alive(p) && 1 <= s.procs[p].number
    requires s.procs[p].pc.MakingTurn? && Turn(s.procs[p].number) !in s.dir
    ensures Folder(TurnStep(s, p, 0))
  {
  }

  lemma MakeTurnDrafts(s: State, p: nat, pace: nat)
    requires Folder(s) && Drafts(s) && s.Alive(p)
    requires s.procs[p].pc.MakingTurn? && Turn(s.procs[p].number) !in s.dir
    ensures Drafts(TurnStep(s, p, 0))
  {
  }

  lemma MakeTurnOwn(s: State, p: nat, pace: nat)
    requires Folder(s) && s.Alive(p) && Knows(s, p, pace)
    requires s.procs[p].pc.MakingTurn? && Turn(s.procs[p].number) !in s.dir
    ensures var t := TurnStep(s, p, 0); p in t.procs && Knows(t, p, pace)
  {
  }

  lemma MakeTurnKeeps(s: State, p: nat, pick: nat, pace: nat)
    requires Inv(s, pace) && s.Alive(p) && s.procs[p].pc.MakingTurn?
    ensures Inv(TurnStep(s, p, pick), pace)
  {
    if Turn(s.procs[p].number) in s.dir { TurnIsTaken(s, p, pick, pace); } else { TurnIsMade(s, p, pick, pace); }
  }

  lemma TurnIsTaken(s: State, p: nat, pick: nat, pace: nat)
    requires Inv(s, pace) && s.Alive(p) && s.procs[p].pc.MakingTurn? && Turn(s.procs[p].number) in s.dir
    ensures Inv(TurnStep(s, p, pick), pace)
  {
    assert Knows(s, p, pace);
    MoveKeeps(s, TurnStep(s, p, pick), p, pace);
  }

  lemma TurnIsMade(s: State, p: nat, pick: nat, pace: nat)
    requires Inv(s, pace) && s.Alive(p) && s.procs[p].pc.MakingTurn? && Turn(s.procs[p].number) !in s.dir
    ensures Inv(TurnStep(s, p, pick), pace)
  {
    var n := s.procs[p].number;
    var u := Create(s, p, Turn(n)).(top := if n > s.top then n else s.top);
    forall q | s.Alive(q) && q != p
      ensures Knows(u, q, pace)
    {
      MakeTurnKnows(s, p, q, pace);
    }
    assert Knows(s, p, pace);
    MakeTurnFolder(s, p, pace);
    MakeTurnDrafts(s, p, pace);
    MakeTurnOwn(s, p, pace);
    Together(s, u, TurnStep(s, p, pick), p, pace);
  }

  lemma SignTurnFolder(s: State, p: nat, pace: nat)
    requires Folder(s) && Drafts(s) && s.Alive(p) && Knows(s, p, pace) && s.procs[p].pc.SigningTurn?
    ensures Folder(TurnStep(s, p, 0)) && Drafts(TurnStep(s, p, 0))
  {
  }

  lemma SignTurnOwn(s: State, p: nat, pace: nat)
    requires Folder(s) && s.Alive(p) && Knows(s, p, pace) && s.procs[p].pc.SigningTurn?
    ensures var t := TurnStep(s, p, 0); p in t.procs && Knows(t, p, pace)
  {
  }

  lemma SignTurnKeeps(s: State, p: nat, pick: nat, pace: nat)
    requires Inv(s, pace) && s.Alive(p) && s.procs[p].pc.SigningTurn?
    ensures Inv(TurnStep(s, p, pick), pace)
  {
    var u := Write(s, s.procs[p].turn, Record(p, s.next, false));
    forall q | s.Alive(q) && q != p
      ensures Knows(u, q, pace)
    {
      SignTurnKnows(s, p, q, s.next, pace);
    }
    SignTurnFolder(s, p, pace);
    SignTurnOwn(s, p, pace);
    Together(s, u, TurnStep(s, p, pick), p, pace);
  }

  /** Removing a turn below the newest, by the one that stepped aside or by the newest one's owner. */
  lemma RemoveTurnKeeps(s: State, t: State, p: nat, n: nat, pace: nat)
    requires Inv(s, pace) && s.Alive(p) && n < s.top
    requires !s.procs[p].pc.Writing? && !s.procs[p].pc.SigningTurn? && p in t.procs
    requires t == Remove(s, Turn(n)).(procs := s.procs[p := t.procs[p]]) && Knows(t, p, pace)
    ensures Inv(t, pace)
  {
    forall q | s.Alive(q) && q != p
      ensures Knows(Remove(s, Turn(n)), q, pace)
    {
      RemoveTurnKnows(s, n, q, pace);
    }
    Together(s, Remove(s, Turn(n)), t, p, pace);
  }

  lemma GiveUpKeeps(s: State, p: nat, pick: nat, pace: nat)
    requires Inv(s, pace) && s.Alive(p) && s.procs[p].pc.GivingUp?
    ensures Inv(TurnStep(s, p, pick), pace)
  {
    assert Knows(s, p, pace);
    RemoveTurnKeeps(s, TurnStep(s, p, pick), p, s.procs[p].number, pace);
  }

  lemma TidyKeeps(s: State, p: nat, pick: nat, pace: nat)
    requires Inv(s, pace) && s.Alive(p) && s.procs[p].pc.Tidying?
    ensures Inv(TurnStep(s, p, pick), pace)
  {
    assert Knows(s, p, pace);
    var t := TurnStep(s, p, pick);
    if pick in s.procs[p].pc.older {
      RemoveTurnKeeps(s, t, p, pick, pace);
    } else if s.procs[p].pc.older == {} {
      MoveKeeps(s, t, p, pace);
    }
  }

  /** A turn holder removing a scratch link: nobody else's link can be needed. */
  lemma RemoveStaleKeeps(s: State, t: State, p: nat, x: nat, pace: nat)
    requires Inv(s, pace) && Breaks(s, p) && p in t.procs
    requires t == Remove(s, Stale(x)).(procs := s.procs[p := t.procs[p]]) && Knows(t, p, pace)
    ensures Inv(t, pace)
  {
    forall q | s.Alive(q) && q != p
      ensures Knows(Remove(s, Stale(x)), q, pace)
    {
      if Breaks(s, q) { OneBreaker(s, p, q, pace); }
      RemoveStaleKnows(s, x, q, pace);
    }
    Together(s, Remove(s, Stale(x)), t, p, pace);
  }

  lemma SweepKeeps(s: State, p: nat, pick: nat, pace: nat)
    requires Inv(s, pace) && s.Alive(p) && s.procs[p].pc.Sweeping?
    ensures Inv(TurnStep(s, p, pick), pace)
  {
    assert Knows(s, p, pace);
    var t := TurnStep(s, p, pick);
    if pick in s.procs[p].pc.garbage {
      RemoveStaleKeeps(s, t, p, pick, pace);
    } else if s.procs[p].pc.garbage == {} {
      MoveKeeps(s, t, p, pace);
    }
  }

  lemma ListTurnsKeeps(s: State, p: nat, pick: nat, pace: nat)
    requires Inv(s, pace) && s.Alive(p) && s.procs[p].pc.ListingTurns? && Largest(TurnsOf(s), pick)
    ensures Inv(TurnStep(s, p, pick), pace)
  {
    assert Knows(s, p, pace);
    assert s.top in TurnsOf(s) || s.top == 0;
    var t := TurnStep(s, p, pick);
    MoveKeeps(s, t, p, pace);
  }

  lemma StatTurnKnows(s: State, p: nat, pick: nat, pace: nat)
    requires Folder(s) && s.Alive(p) && Knows(s, p, pace) && s.procs[p].pc.StatingTurn?
    ensures Moved(s, TurnStep(s, p, pick), p) && Knows(TurnStep(s, p, pick), p, pace)
  {
  }

  lemma ReadTurnKnows(s: State, p: nat, pick: nat, pace: nat)
    requires Folder(s) && s.Alive(p) && Knows(s, p, pace) && s.procs[p].pc.ReadingTurn?
    ensures Moved(s, TurnStep(s, p, pick), p) && Knows(TurnStep(s, p, pick), p, pace)
  {
  }

  lemma JudgeTurnKeeps(s: State, p: nat, pick: nat, pace: nat)
    requires Inv(s, pace) && s.Alive(p)
    requires s.procs[p].pc.StatingTurn? || s.procs[p].pc.ReadingTurn?
    ensures Inv(TurnStep(s, p, pick), pace)
  {
    if s.procs[p].pc.StatingTurn? { StatTurnKnows(s, p, pick, pace); } else { ReadTurnKnows(s, p, pick, pace); }
    MoveKeeps(s, TurnStep(s, p, pick), p, pace);
  }

  /** An unreadable newest turn of a live breaker was made no more than `pace` ago. */
  lemma DraftTurn(s: State, pace: nat)
    requires Inv(s, pace) && TopAlive(s) && s.At(Turn(s.top)).text.Blank?
    ensures s.At(Turn(s.top)).mtime <= s.now <= s.At(Turn(s.top)).mtime + pace
  {
    assert Knows(s, s.At(Turn(s.top)).creator, pace);
  }

  lemma OwnerKnows(s: State, p: nat, pick: nat, pace: nat)
    requires Folder(s) && s.Alive(p) && Knows(s, p, pace) && s.procs[p].pc.OwningTurn?
    requires TopAlive(s) && s.At(Turn(s.top)).text.Blank? ==>
               s.At(Turn(s.top)).mtime <= s.now <= s.At(Turn(s.top)).mtime + pace
    ensures Moved(s, TurnStep(s, p, pick), p) && Knows(TurnStep(s, p, pick), p, pace)
  {
    OwnerMoves(s, p, pick);
    var newest := s.procs[p].pc.newest;
    if Turn(newest) in s.dir && s.dir[Turn(newest)] in s.files && s.At(Turn(newest)).text.Record? {} else {}
  }

  lemma OwnerMoves(s: State, p: nat, pick: nat)
    requires s.Alive(p) && s.procs[p].pc.OwningTurn?
    ensures var t := TurnStep(s, p, pick);
            Moved(s, t, p)
                && (t.procs[p].pc.MakingTurn? || t.procs[p].pc.TimingTurn? || t.procs[p].pc.Idle?
                   || t.procs[p].pc.Opening?)
  {
  }

  lemma OwnerKeeps(s: State, p: nat, pick: nat, pace: nat)
    requires Inv(s, pace) && s.Alive(p) && s.procs[p].pc.OwningTurn?
    ensures Inv(TurnStep(s, p, pick), pace)
  {
    if TopAlive(s) && s.At(Turn(s.top)).text.Blank? { DraftTurn(s, pace); }
    OwnerKnows(s, p, pick, pace);
    MoveKeeps(s, TurnStep(s, p, pick), p, pace);
  }

  /** Only a dead or finished owner's newest turn is found old. */
  lemma TimeKnows(s: State, p: nat, pick: nat, pace: nat)
    requires s.Alive(p) && Knows(s, p, pace) && Folder(s) && pace <= FRESH_MS && s.procs[p].pc.TimingTurn?
    ensures Moved(s, TurnStep(s, p, pick), p) && Knows(TurnStep(s, p, pick), p, pace)
  {
  }

  lemma RelistKnows(s: State, p: nat, pick: nat, pace: nat)
    requires s.Alive(p) && Knows(s, p, pace) && Folder(s) && s.procs[p].pc.Relisting?
    ensures Knows(TurnStep(s, p, pick), p, pace)
  {
    if s.procs[p].number < s.top {
      assert Turn(s.top) in s.dir && Turn(s.top).number > s.procs[p].number;
    }
  }

  lemma RelistMoves(s: State, p: nat, pick: nat)
    requires s.Alive(p) && s.procs[p].pc.Relisting?
    ensures Moved(s, TurnStep(s, p, pick), p)
  {
  }

  lemma TimeKeeps(s: State, p: nat, pick: nat, pace: nat)
    requires Inv(s, pace) && pace <= FRESH_MS && s.Alive(p) && s.procs[p].pc.TimingTurn?
    ensures Inv(TurnStep(s, p, pick), pace)
  {
    assert Knows(s, p, pace);
    TimeKnows(s, p, pick, pace);
    MoveKeeps(s, TurnStep(s, p, pick), p, pace);
  }

  lemma RelistKeeps(s: State, p: nat, pick: nat, pace: nat)
    requires Inv(s, pace) && s.Alive(p) && s.procs[p].pc.Relisting?
    ensures Inv(TurnStep(s, p, pick), pace)
  {
    assert Knows(s, p, pace);
    RelistMoves(s, p, pick);
    RelistKnows(s, p, pick, pace);
    MoveKeeps(s, TurnStep(s, p, pick), p, pace);
  }

  lemma ListStaleKeeps(s: State, p: nat, pick: nat, pace: nat)
    requires Inv(s, pace) && s.Alive(p) && s.procs[p].pc.ListingStale?
    ensures Inv(TurnStep(s, p, pick), pace)
  {
    assert Knows(s, p, pace);
    var t := TurnStep(s, p, pick);
    MoveKeeps(s, t, p, pace);
  }

  lemma TurnStepKeeps(s: State, p: nat, pick: nat, pace: nat)
    requires Inv(s, pace) && pace <= FRESH_MS && s.Alive(p) && InTurnStep(s.procs[p].pc)
    requires s.procs[p].pc.ListingTurns? ==> Largest(TurnsOf(s), pick)
    ensures Inv(TurnStep(s, p, pick), pace)
  {
    match s.procs[p].pc
    case ListingTurns => ListTurnsKeeps(s, p, pick, pace);
    case StatingTurn(_) => JudgeTurnKeeps(s, p, pick, pace);
    case ReadingTurn(_, _) => JudgeTurnKeeps(s, p, pick, pace);
    case OwningTurn(_, _) => OwnerKeeps(s, p, pick, pace);
    case TimingTurn(_, _, _) => TimeKeeps(s, p, pick, pace);
    case MakingTurn => MakeTurnKeeps(s, p, pick, pace);
    case SigningTurn(_) => SignTurnKeeps(s, p, pick, pace);
    case Relisting => RelistKeeps(s, p, pick, pace);
    case GivingUp => GiveUpKeeps(s, p, pick, pace);
    case Tidying(_) => TidyKeeps(s, p, pick, pace);
    case ListingStale => ListStaleKeeps(s, p, pick, pace);
    case Sweeping(_) => SweepKeeps(s, p, pick, pace);
  }

  lemma LinkFolder(s: State, p: nat, pick: nat, pace: nat)
    requires Folder(s) && Drafts(s) && s.Alive(p) && Knows(s, p, pace) && s.procs[p].pc.Linking? && LockFile in s.dir
    ensures var t := BreakStep(s, p, pick); Folder(t) && Drafts(t) && Knows(t, p, pace)
  {
  }

  lemma LinkIsPrivate(s: State, p: nat, pick: nat)
    requires p in s.procs && s.procs[p].pc.Linking? && LockFile in s.dir
    ensures var u, t := s.(dir := s.dir[Stale(s.next) := s.dir[LockFile]], next := s.next + 1), BreakStep(s, p, pick);
            SameFolder(u, t) && t.dead == s.dead && p in t.procs && t.procs == s.procs[p := t.procs[p]]
  {
  }

  lemma LinkKeeps(s: State, p: nat, pick: nat, pace: nat)
    requires Inv(s, pace) && s.Alive(p) && s.procs[p].pc.Linking? && LockFile in s.dir
    ensures Inv(BreakStep(s, p, pick), pace)
  {
    var u := s.(dir := s.dir[Stale(s.next) := s.dir[LockFile]], next := s.next + 1);
    forall q | s.Alive(q) && q != p
      ensures Knows(u, q, pace)
    {
      AddStaleKnows(s, s.dir[LockFile], q, pace);
    }
    assert Knows(s, p, pace);
    LinkFolder(s, p, pick, pace);
    LinkIsPrivate(s, p, pick);
    Together(s, u, BreakStep(s, p, pick), p, pace);
  }

  lemma NoLinkKeeps(s: State, p: nat, pick: nat, pace: nat)
    requires Inv(s, pace) && s.Alive(p) && s.procs[p].pc.Linking? && LockFile !in s.dir
    ensures Inv(BreakStep(s, p, pick), pace)
  {
    assert Knows(s, p, pace);
    MoveKeeps(s, BreakStep(s, p, pick), p, pace);
  }

  lemma CompareKnows(s: State, p: nat, pick: nat, pace: nat)
    requires Folder(s) && s.Alive(p) && Knows(s, p, pace) && s.procs[p].pc.Comparing?
    ensures Moved(s, BreakStep(s, p, pick), p) && Knows(BreakStep(s, p, pick), p, pace)
  {
  }

  lemma CompareKeeps(s: State, p: nat, pick: nat, pace: nat)
    requires Inv(s, pace) && s.Alive(p) && s.procs[p].pc.Comparing?
    ensures Inv(BreakStep(s, p, pick), pace)
  {
    CompareKnows(s, p, pick, pace);
    MoveKeeps(s, BreakStep(s, p, pick), p, pace);
  }

  /** An unreadable file of a live process was made no more than `pace` ago. */
  lemma DraftAge(s: State, i: nat, pace: nat)
    requires Inv(s, pace) && i in s.files && s.files[i].text.Blank? && s.Alive(s.files[i].creator)
    ensures s.now <= s.files[i].mtime + pace
  {
    assert Knows(s, s.files[i].creator, pace);
  }

  /** An unreadable lock found old is a dead process's, and still in place. */
  lemma DateKnows(s: State, p: nat, pick: nat, pace: nat)
    requires Inv(s, pace) && pace <= FRESH_MS && s.Alive(p) && Knows(s, p, pace) && s.procs[p].pc.Dating?
    ensures Moved(s, BreakStep(s, p, pick), p) && Knows(BreakStep(s, p, pick), p, pace)
  {
    var i := s.dir[Stale(s.procs[p].pc.copy)];
    if s.files[i].text.Blank? && s.Alive(s.files[i].creator) { DraftAge(s, i, pace); }
  }

  lemma DateKeeps(s: State, p: nat, pick: nat, pace: nat)
    requires Inv(s, pace) && pace <= FRESH_MS && s.Alive(p) && s.procs[p].pc.Dating?
    ensures Inv(BreakStep(s, p, pick), pace)
  {
    DateKnows(s, p, pick, pace);
    MoveKeeps(s, BreakStep(s, p, pick), p, pace);
  }

  lemma RenameFolder(s: State, p: nat, pick: nat, pace: nat)
    requires Folder(s) && Drafts(s) && s.Alive(p) && Knows(s, p, pace) && s.procs[p].pc.Moving?
    ensures var t := BreakStep(s, p, pick); Folder(t) && Drafts(t)
  {
  }

  lemma RenameOwn(s: State, p: nat, pick: nat, pace: nat)
    requires Folder(s) && Drafts(s) && s.Alive(p) && Knows(s, p, pace) && s.procs[p].pc.Moving?
    ensures Knows(BreakStep(s, p, pick), p, pace)
  {
  }

  lemma RenameKeeps(s: State, p: nat, pick: nat, pace: nat)
    requires Inv(s, pace) && s.Alive(p) && s.procs[p].pc.Moving?
    ensures Inv(BreakStep(s, p, pick), pace)
  {
    assert Knows(s, p, pace);
    var u := s.(dir := (s.dir - {LockFile})[Stale(s.next) := s.dir[LockFile]], next := s.next + 1);
    forall q | s.Alive(q) && q != p
      ensures Knows(u, q, pace)
    {
      if Breaks(s, q) { OneBreaker(s, p, q, pace); }
      RenameKnows(s, p, q, pace);
    }
    RenameFolder(s, p, pick, pace);
    RenameOwn(s, p, pick, pace);
    Together(s, u, BreakStep(s, p, pick), p, pace);
  }

  lemma CheckKeeps(s: State, p: nat, pick: nat, pace: nat)
    requires Inv(s, pace) && s.Alive(p) && s.procs[p].pc.Checking?
    ensures Inv(BreakStep(s, p, pick), pace)
  {
    assert Knows(s, p, pace);
    MoveKeeps(s, BreakStep(s, p, pick), p, pace);
  }

  /** The suffix that the process is about to drop. */
  predicate Drops(pc: Pc, x: nat) {
    match pc
    case DroppingAside(_, aside) => x == aside
    case DroppingCopy(copy) => x == copy
    case _ => false
  }

  lemma DropKnows(s: State, p: nat, pick: nat, x: nat, pace: nat)
    requires s.Alive(p) && Knows(s, p, pace)
    requires Drops(s.procs[p].pc, x)
    ensures var t := BreakStep(s, p, pick);
            p in t.procs && t == Remove(s, Stale(x)).(procs := s.procs[p := t.procs[p]]) && Knows(t, p, pace)
  {
  }

  lemma DropKeeps(s: State, p: nat, pick: nat, pace: nat)
    requires Inv(s, pace) && s.Alive(p) && (s.procs[p].pc.DroppingAside? || s.procs[p].pc.DroppingCopy?)
    ensures Inv(BreakStep(s, p, pick), pace)
  {
    assert Knows(s, p, pace);
    DropOne(s, p, pick, if s.procs[p].pc.DroppingAside? then s.procs[p].pc.aside else s.procs[p].pc.copy, pace);
  }

  lemma DropOne(s: State, p: nat, pick: nat, x: nat, pace: nat)
    requires Inv(s, pace) && s.Alive(p) && Knows(s, p, pace)
    requires Drops(s.procs[p].pc, x)
    ensures Inv(BreakStep(s, p, pick), pace)
  {
    DropKnows(s, p, pick, x, pace);
    RemoveStaleKeeps(s, BreakStep(s, p, pick), p, x, pace);
  }

  lemma CloseKeeps(s: State, p: nat, pick: nat, pace: nat)
    requires Inv(s, pace) && s.Alive(p) && s.procs[p].pc.Closing?
    ensures Inv(BreakStep(s, p, pick), pace)
  {
    assert Knows(s, p, pace);
    var u := Write(s, s.procs[p].turn, s.files[s.procs[p].turn].text.(released := true));
    forall q | s.Alive(q) && q != p
      ensures Knows(u, q, pace)
    {
      CloseTurnKnows(s, p, q, pace);
    }
    Together(s, u, BreakStep(s, p, pick), p, pace);
  }

  /** The inode a live breaker renamed aside is always the one it compared. */
  lemma MovesTheJudged(s: State, p: nat, pace: nat)
    requires Inv(s, pace) && s.Alive(p)
    ensures !s.procs[p].pc.PuttingBack?
  {
    assert Knows(s, p, pace);
  }

  lemma BreakStepKeeps(s: State, p: nat, pick: nat, pace: nat)
    requires Inv(s, pace) && pace <= FRESH_MS && s.Alive(p)
    requires !InLockStep(s.procs[p].pc) && !InTurnStep(s.procs[p].pc)
    ensures Inv(BreakStep(s, p, pick), pace)
  {
    match s.procs[p].pc
    case Linking => if LockFile in s.dir { LinkKeeps(s, p, pick, pace); } else { NoLinkKeeps(s, p, pick, pace); }
    case Comparing(_) => CompareKeeps(s, p, pick, pace);
    case Dating(_, _) => DateKeeps(s, p, pick, pace);
    case Moving(_) => RenameKeeps(s, p, pick, pace);
    case Checking(_, _) => CheckKeeps(s, p, pick, pace);
    case PuttingBack(_, _) => MovesTheJudged(s, p, pace);
    case DroppingAside(_, _) => DropKeeps(s, p, pick, pace);
    case DroppingCopy(_) => DropKeeps(s, p, pick, pace);
    case Closing => CloseKeeps(s, p, pick, pace);
    case Idle =>
  }

  lemma BeatKeeps(s: State, p: nat, pace: nat)
    requires Inv(s, pace) && s.Alive(p) && s.procs[p].pc.Holding?
    ensures Inv(Step(s, Beat(p)), pace)
  {
    var t := Step(s, Beat(p));
    assert Knows(s, p, pace);
    forall q | t.Alive(q)
      ensures Knows(t, q, pace)
    {
      BeatKnows(s, p, q, pace);
    }
  }

  lemma BeatKnows(s: State, p: nat, q: nat, pace: nat)
    requires Folder(s) && s.Alive(q) && Knows(s, q, pace) && s.Alive(p) && Knows(s, p, pace) && s.procs[p].pc.Holding?
    ensures Knows(Step(s, Beat(p)), q, pace)
  {
  }

  lemma DieKnows(s: State, p: nat, q: nat, pace: nat)
    requires q in s.procs && Knows(s, q, pace)
    ensures Knows(s.(dead := s.dead + {p}), q, pace)
  {
  }

  lemma TickKnows(s: State, ms: nat, q: nat, pace: nat)
    requires q in s.procs && Knows(s, q, pace) && OnTime(s.(now := s.now + ms), q, pace)
    ensures Knows(s.(now := s.now + ms), q, pace)
  {
  }

  lemma DieKeeps(s: State, p: nat, pace: nat)
    requires Inv(s, pace) && s.Alive(p)
    ensures Inv(s.(dead := s.dead + {p}), pace)
  {
    var t := s.(dead := s.dead + {p});
    forall q | t.Alive(q)
      ensures Knows(t, q, pace)
    {
      DieKnows(s, p, q, pace);
    }
  }

  lemma TickKeeps(s: State, ms: nat, pace: nat)
    requires Inv(s, pace) && Enabled(s, Tick(ms), pace)
    ensures Inv(s.(now := s.now + ms), pace)
  {
    var t := s.(now := s.now + ms);
    forall q | t.Alive(q)
      ensures Knows(t, q, pace)
    {
      assert s.Alive(q);
      TickKnows(s, ms, q, pace);
    }
  }

  lemma StartKeeps(s: State, t: State, p: nat, pace: nat)
    requires Inv(s, pace) && p !in s.dead && (p in s.procs ==> s.procs[p].pc.Idle?)
    requires SameFolder(s, t) && p in t.procs && t.procs == s.procs[p := t.procs[p]]
    requires t.procs[p].pc.Idle? || t.procs[p].pc.Opening?
    ensures Inv(t, pace)
  {
    forall q | t.Alive(q)
      ensures Knows(t, q, pace)
    {
      if q != p { SameKnows(s, t, q, pace); }
    }
  }

  /** Every action of every process, every death and every tick keeps the invariant. */
  lemma StepKeeps(s: State, a: Action, pace: nat)
    requires Inv(s, pace) && pace <= FRESH_MS && Enabled(s, a, pace)
    ensures Inv(Step(s, a), pace)
  {
    match a
    case Spawn(p) => StartKeeps(s, Step(s, a), p, pace);
    case Call(p) => StartKeeps(s, Step(s, a), p, pace);
    case Act(p, pick) =>
      if InLockStep(s.procs[p].pc) { LockStepKeeps(s, p, pick, pace); }
      else if InTurnStep(s.procs[p].pc) { TurnStepKeeps(s, p, pick, pace); }
      else { BreakStepKeeps(s, p, pick, pace); }
    case Beat(p) => BeatKeeps(s, p, pace);
    case Die(p) => DieKeeps(s, p, pace);
    case Tick(ms) => TickKeeps(s, ms, pace);
  }

  lemma {:induction false} PlayKeeps(s: State, schedule: seq<Action>, pace: nat)
    requires Inv(s, pace) && pace <= FRESH_MS && Runs(s, schedule, pace)
    ensures Inv(Play(s, schedule), pace)
    decreases |schedule|
  {
    if schedule != [] {
      StepKeeps(s, schedule[0], pace);
      PlayKeeps(Step(s, schedule[0]), schedule[1..], pace);
    }
  }

  // ---- main results ---------------------------------------------------------------------------

  /**
   Lock exclusion: whatever the processes, the interleaving and the deaths, as long as nobody is
   held up for more than FRESH_MS between reading a file and acting on its age, at most one live
   process is between taking and releasing the lock; its file is the one at the lock's name.
   */
  lemma LockExclusion(schedule: seq<Action>, pace: nat, p: nat, q: nat)
    requires pace <= FRESH_MS && Runs(START, schedule, pace)
    ensures var s := Play(START, schedule);
            && (Holds(s, p) && Holds(s, q) ==> p == q)
            && (Holds(s, p) ==> LockFile in s.dir && s.dir[LockFile] in s.files && s.At(LockFile).creator == p)
  {
    PlayKeeps(START, schedule, pace);
    var s := Play(START, schedule);
    if Holds(s, p) { assert Knows(s, p, pace); }
    if Holds(s, p) && Holds(s, q) { OneHolder(s, p, q, pace); }
  }

  /**
   Breaker turns: at most one live process holds a turn, it is the largest present, and
   the largest number ever made is always still present.
   */
  lemma TurnExclusion(schedule: seq<Action>, pace: nat, p: nat, q: nat)
    requires pace <= FRESH_MS && Runs(START, schedule, pace)
    ensures var s := Play(START, schedule);
            && (Breaks(s, p) && Breaks(s, q) ==> p == q)
            && (Breaks(s, p) ==> Largest(TurnsOf(s), s.procs[p].number) && Turn(s.procs[p].number) in s.dir)
            && Largest(TurnsOf(s), s.top)
  {
    PlayKeeps(START, schedule, pace);
    var s := Play(START, schedule);
    TopIsLargest(s, pace);
    if Breaks(s, p) { assert Knows(s, p, pace); }
    if Breaks(s, p) && Breaks(s, q) { OneBreaker(s, p, q, pace); }
  }

  lemma TopIsLargest(s: State, pace: nat)
    requires Inv(s, pace)
    ensures Largest(TurnsOf(s), s.top)
  {
    assert forall n: nat :: Turn(n) in s.dir ==> n <= s.top;
    if s.top == 0 { assert TurnsOf(s) == {}; }
  }

  /**
   The folder's largest turn number never goes down, whatever is tidied, given up or left behind: from
   any state of a run to any later one.
   */
  lemma LargestTurnGrows(first: seq<Action>, more: seq<Action>, pace: nat, m: nat, n: nat)
    requires pace <= FRESH_MS && Runs(START, first, pace) && Runs(Play(START, first), more, pace)
    requires Largest(TurnsOf(Play(START, first)), m) && Largest(TurnsOf(Play(Play(START, first), more)), n)
    ensures m <= n
  {
    var s := Play(START, first);
    PlayKeeps(START, first, pace);
    PlayKeeps(s, more, pace);
    TopIsLargest(s, pace);
    TopIsLargest(Play(s, more), pace);
    TopGrows(s, more);
  }

  /** No breaker of any run finds that it moved another inode than the one it compared: nothing is ever put back. */
  lemma NeverPutsBack(schedule: seq<Action>, pace: nat, p: nat)
    requires pace <= FRESH_MS && Runs(START, schedule, pace) && Play(START, schedule).Alive(p)
    ensures !Play(START, schedule).procs[p].pc.PuttingBack?
  {
    PlayKeeps(START, schedule, pace);
    MovesTheJudged(Play(START, schedule), p, pace);
  }

  lemma {:induction false} TopGrows(s: State, schedule: seq<Action>)
    ensures s.top <= Play(s, schedule).top
    decreases |schedule|
  {
    if schedule != [] {
      StepTop(s, schedule[0]);
      TopGrows(Step(s, schedule[0]), schedule[1..]);
    }
  }

  lemma StepTop(s: State, a: Action)
    ensures s.top <= Step(s, a).top
  {
    if a.Act? && a.p in s.procs { CallTop(s, a.p, a.pick); TurnTop(s, a.p, a.pick); }
  }

  lemma CallTop(s: State, p: nat, pick: nat)
    requires p in s.procs
    ensures s.top == LockStep(s, p, pick).top == BreakStep(s, p, pick).top
  {
  }

  lemma TurnTop(s: State, p: nat, pick: nat)
    requires p in s.procs
    ensures s.top <= TurnStep(s, p, pick).top
  {
  }

  /**
   A live holder's lock file is never moved or removed by anybody else: after any one further
   action, other than its own release or its death, it still holds the same file at the same name.
   */
  lemma HolderUndisturbed(schedule: seq<Action>, a: Action, pace: nat, q: nat)
    requires pace <= FRESH_MS && Runs(START, schedule + [a], pace)
    requires var s := Play(START, schedule); Holds(s, q) && !By(a, q)
    ensures var s := Play(START, schedule); var t := Play(START, schedule + [a]);
            && Holds(t, q) && t.procs[q] == s.procs[q]
            && LockFile in s.dir && LockFile in t.dir && t.dir[LockFile] == s.dir[LockFile] == s.procs[q].lock
  {
    RunsSplit(START, schedule, a, pace);
    PlayKeeps(START, schedule, pace);
    PlayKeeps(START, schedule + [a], pace);
    var s, t := Play(START, schedule), Play(START, schedule + [a]);
    assert Knows(s, q, pace);
    OthersUntouched(s, a, q);
    assert Knows(t, q, pace);
  }

  /** The process's own next call, or its death. */
  predicate By(a: Action, q: nat) {
    (a.Act? || a.Die?) && a.p == q
  }

  /** A call of one process changes no other's program counter or locals. */
  lemma CallIsPrivate(s: State, p: nat, pick: nat)
    requires p in s.procs
    ensures PrivateTo(s, LockStep(s, p, pick), p)
  {
  }

  lemma BreakIsPrivate(s: State, p: nat, pick: nat)
    requires p in s.procs
    ensures PrivateTo(s, BreakStep(s, p, pick), p)
  {
  }

  lemma TurnIsPrivate(s: State, p: nat, pick: nat)
    requires p in s.procs
    ensures PrivateTo(s, TurnStep(s, p, pick), p)
  {
  }

  predicate PrivateTo(s: State, t: State, p: nat) {
    p in t.procs && t.dead == s.dead && t.procs == s.procs[p := t.procs[p]]
  }

  lemma OthersUntouched(s: State, a: Action, q: nat)
    requires s.Alive(q) && !By(a, q) && a != Spawn(q) && a != Call(q)
    ensures var t := Step(s, a); t.Alive(q) && t.procs[q] == s.procs[q]
  {
    match a
    case Act(p, pick) =>
      if p in s.procs { CallIsPrivate(s, p, pick); BreakIsPrivate(s, p, pick); TurnIsPrivate(s, p, pick); }
    case _ =>
  }

  lemma {:induction false} RunsSplit(s: State, schedule: seq<Action>, a: Action, pace: nat)
    requires Runs(s, schedule + [a], pace)
    ensures Runs(s, schedule, pace) && Enabled(Play(s, schedule), a, pace)
    ensures Play(s, schedule + [a]) == Step(Play(s, schedule), a)
    decreases |schedule|
  {
    if schedule == [] {
      assert [a][1..] == [];
      assert Play(s, [a]) == Play(Step(s, a), [a][1..]);
    } else {
      assert (schedule + [a])[1..] == schedule[1..] + [a];
      RunsSplit(Step(s, schedule[0]), schedule[1..], a, pace);
    }
  }
}
