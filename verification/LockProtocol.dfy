/**
 The interprocess TLS lock (packages/tls/src/ca/lock.ts) as a state machine over a shared folder.

 Any number of processes run `withLock`; every filesystem call is one step, steps of different
 processes interleave freely, and a process may die between any two of its steps. What a process
 read stays in its program counter, so a listing or a judgement can be arbitrarily out of date
 when it is acted on. The clock advances on its own.
 */
module LockProtocol {

  /** A lock file that is not readable yet is being written, for this long (ms). */
  const FRESH_MS: nat := 5_000
  /** An unreadable turn file older than this was left by a breaker that died (ms). */
  const BREAK_MUTEX_STALE_MS: nat := 10_000

  /** Names in the folder: the lock, the breakers' numbered turns, and the breakers' scratch links. */
  datatype Name = LockFile | Turn(number: nat) | Stale(suffix: nat)

  /** A file's content: nothing yet, or the holder record. `released` is only ever set in a turn. */
  datatype Text = Blank | Record(pid: nat, serial: nat, released: bool)

  /** An inode. `serial` numbers in records stand for the random token of one acquisition. */
  datatype File = File(creator: nat, turn: bool, text: Text, mtime: nat)

  /** What a waiter took the lock file's content to be when it called it stale. */
  datatype Judged = Unreadable | Holder(pid: nat, serial: nat)

  /** The next filesystem call a process makes. */
  datatype Pc =
    // withLock
    | Idle
    | Opening                                        // create the lock file, O_EXCL
    | Writing(since: nat)                            // created it; write the holder record
    | Holding                                        // running fn
    | Unlocking                                      // finally: is the token still ours?
    | Removing                                       // it was: remove the lock by name
    | Reading                                        // it exists: read the holder
    | Aging                                          // unreadable: how old is the file?
    | Judging(pid: nat, serial: nat)                 // readable: is the holder gone?
    // takeBreakerMutex
    | ListingTurns
    | StatingTurn(newest: nat)
    | ReadingTurn(newest: nat, seen: nat)            // is it marked released?
    | OwningTurn(newest: nat, seen: nat)             // whose is it?
    | TimingTurn(newest: nat, seen: nat, since: nat) // unreadable: is it old?
    | MakingTurn                                     // create turn `number`, O_EXCL
    | SigningTurn(since: nat)                        // write the owner record
    | Relisting                                      // is a higher turn there?
    | GivingUp                                       // it was: remove ours by name
    | Tidying(older: set<nat>)                       // remove older turns
    | ListingStale
    | Sweeping(garbage: set<nat>)                    // remove dead breakers' links
    // breakJudged
    | Linking                                        // link the lock to a second name
    | Comparing(copy: nat)                           // read it there
    | Dating(copy: nat, since: nat)                  // unreadable there: is it old?
    | Moving(copy: nat)                              // it matches: rename the lock aside
    | Checking(copy: nat, aside: nat)                // the same inode?
    | PuttingBack(copy: nat, aside: nat)             // it was not: link it back
    | DroppingAside(copy: nat, aside: nat)
    | DroppingCopy(copy: nat)
    | Closing                                        // mark our turn released

  /** A process: its token, its lock inode, its judgement, its turn number and turn inode. */
  datatype Proc = Proc(pc: Pc, serial: nat, lock: nat, judged: Judged, number: nat, turn: nat)

  /** `next` supplies fresh inodes, tokens and suffixes; `top` records the largest turn ever made. */
  datatype State = State(now: nat, dir: map<Name, nat>, files: map<nat, File>,
                         procs: map<nat, Proc>, dead: set<nat>, next: nat, top: nat)
  {
    predicate Alive(p: nat) {
      p in procs && p !in dead
    }

    /** The file a name leads to right now. */
    function At(n: Name): (f: File)
      requires n in dir && dir[n] in files
    {
      files[dir[n]]
    }
  }

  datatype Action =
    | Spawn(p: nat)
    | Call(p: nat)              // a command calls withLock
    | Act(p: nat, pick: nat)    // the next filesystem call of p; `pick` resolves its free choice
    | Beat(p: nat)              // the holder's heartbeat
    | Die(p: nat)
    | Tick(ms: nat)

  // ---- what one step does -------------------------------------------------------------------

  function Goto(s: State, p: nat, pc: Pc): State
    requires p in s.procs
  {
    s.(procs := s.procs[p := s.procs[p].(pc := pc)])
  }

  /** 'busy', or a live holder: sleep and look again, or give up with a LockError. */
  function Wait(s: State, p: nat, pick: nat): State
    requires p in s.procs
  {
    Goto(s, p, if pick == 0 then Idle else Opening)
  }

  /** open(O_CREAT | O_EXCL) of a name that is free. */
  function Create(s: State, p: nat, n: Name): State {
    s.(dir := s.dir[n := s.next],
       files := s.files[s.next := File(p, n.Turn?, Blank, s.now)],
       next := s.next + 1)
  }

  /** A write through the descriptor: also renews the mtime. */
  function Write(s: State, ino: nat, text: Text): State
    requires ino in s.files
  {
    s.(files := s.files[ino := s.files[ino].(text := text, mtime := s.now)])
  }

  function Remove(s: State, n: Name): State {
    s.(dir := s.dir - {n})
  }

  function TurnsOf(s: State): (turns: set<nat>)
    ensures forall n :: n in turns <==> Turn(n) in s.dir
  {
    set n | n in s.dir && n.Turn? :: n.number
  }

  function SuffixesOf(s: State): (suffixes: set<nat>)
    ensures forall x :: x in suffixes <==> Stale(x) in s.dir
  {
    set n | n in s.dir && n.Stale? :: n.suffix
  }

  /** The largest of a set, 0 for none: `turnsOf(path).at(-1) ?? 0`. */
  ghost predicate Largest(turns: set<nat>, n: nat) {
    (n in turns || (n == 0 && turns == {})) && forall m :: m in turns ==> m <= n
  }

  function Distance(a: nat, b: nat): nat {
    if a <= b then b - a else a - b
  }

  /** Steps of withLock outside breaking. */
  function LockStep(s: State, p: nat, pick: nat): State
    requires p in s.procs
  {
    var me := s.procs[p];
    match me.pc
    case Opening =>
      if LockFile in s.dir then Goto(s, p, Reading)
      else
        var t := Create(s, p, LockFile);
        t.(procs := s.procs[p := me.(pc := Writing(s.now), lock := s.next)])
    case Writing(_) =>
      if me.lock in s.files then Goto(Write(s, me.lock, Record(p, me.serial, false)), p, Holding) else s
    case Holding => Goto(s, p, Unlocking)
    case Unlocking =>
      // Not ours any more: onLost, and nothing is removed.
      if LockFile in s.dir && s.dir[LockFile] in s.files && s.At(LockFile).text.Record?
         && s.At(LockFile).text.pid == p && s.At(LockFile).text.serial == me.serial
      then Goto(s, p, Removing) else Goto(s, p, Idle)
    case Removing => Goto(Remove(s, LockFile), p, Idle)
    case Reading =>
      if LockFile in s.dir && s.dir[LockFile] in s.files && s.At(LockFile).text.Record?
      then Goto(s, p, Judging(s.At(LockFile).text.pid, s.At(LockFile).text.serial))
      else Goto(s, p, Aging)
    case Aging =>
      if LockFile in s.dir && s.dir[LockFile] in s.files then
        if s.now - s.At(LockFile).mtime > FRESH_MS
        then s.(procs := s.procs[p := me.(pc := ListingTurns, judged := Unreadable)])
        else Wait(s, p, pick)
      else Goto(s, p, Opening)
    case Judging(pid, serial) =>
      if pid in s.dead
      then s.(procs := s.procs[p := me.(pc := ListingTurns, judged := Holder(pid, serial))])
      else Wait(s, p, pick)
    case _ => s
  }

  /** The newest turn can be taken over: go for the next number. */
  function Free(s: State, p: nat, newest: nat): State
    requires p in s.procs
  {
    s.(procs := s.procs[p := s.procs[p].(pc := MakingTurn, number := newest + 1)])
  }

  /** Steps of takeBreakerMutex: taking a turn, or 'busy'. */
  function TurnStep(s: State, p: nat, pick: nat): State
    requires p in s.procs
  {
    var me := s.procs[p];
    match me.pc
    case ListingTurns =>
      // `pick` is the listing's largest number (see Enabled).
      if pick == 0 then Free(s, p, 0) else Goto(s, p, StatingTurn(pick))
    case StatingTurn(newest) =>
      if Turn(newest) in s.dir && s.dir[Turn(newest)] in s.files
      then Goto(s, p, ReadingTurn(newest, s.At(Turn(newest)).mtime)) else Free(s, p, newest)
    case ReadingTurn(newest, seen) =>
      if Turn(newest) in s.dir && s.dir[Turn(newest)] in s.files then
        if s.At(Turn(newest)).text.Record? && s.At(Turn(newest)).text.released
        then Free(s, p, newest) else Goto(s, p, OwningTurn(newest, seen))
      else Free(s, p, newest)
    case OwningTurn(newest, seen) =>
      if Turn(newest) in s.dir && s.dir[Turn(newest)] in s.files && s.At(Turn(newest)).text.Record? then
        if s.At(Turn(newest)).text.pid in s.dead then Free(s, p, newest) else Wait(s, p, pick)
      else Goto(s, p, TimingTurn(newest, seen, s.now))
    case TimingTurn(newest, seen, _) =>
      if Distance(s.now, seen) > BREAK_MUTEX_STALE_MS then Free(s, p, newest) else Wait(s, p, pick)
    case MakingTurn =>
      if Turn(me.number) in s.dir then Wait(s, p, pick)
      else
        var t := Create(s, p, Turn(me.number));
        t.(procs := s.procs[p := me.(pc := SigningTurn(s.now), turn := s.next)],
           top := if me.number > s.top then me.number else s.top)
    case SigningTurn(_) =>
      if me.turn in s.files then Goto(Write(s, me.turn, Record(p, s.next, false)), p, Relisting).(next := s.next + 1)
      else s
    case Relisting =>
      if exists n | n in s.dir :: n.Turn? && n.number > me.number then Goto(s, p, GivingUp)
      else Goto(s, p, Tidying(set n | n in TurnsOf(s) && n < me.number))
    case GivingUp => Wait(Remove(s, Turn(me.number)), p, pick)
    case Tidying(older) =>
      if older == {} then Goto(s, p, ListingStale)
      else if pick in older then Goto(Remove(s, Turn(pick)), p, Tidying(older - {pick}))
      else s
    case ListingStale => Goto(s, p, Sweeping(SuffixesOf(s)))
    case Sweeping(garbage) =>
      if garbage == {} then Goto(s, p, Linking)
      else if pick in garbage then Goto(Remove(s, Stale(pick)), p, Sweeping(garbage - {pick}))
      else s
    case _ => s
  }

  /** Steps of breakJudged, and giving the turn back. */
  function BreakStep(s: State, p: nat, pick: nat): State
    requires p in s.procs
  {
    var me := s.procs[p];
    match me.pc
    case Linking =>
      if LockFile in s.dir
      then Goto(s.(dir := s.dir[Stale(s.next) := s.dir[LockFile]], next := s.next + 1), p, Comparing(s.next))
      else Goto(s, p, Closing)
    case Comparing(copy) =>
      if Stale(copy) in s.dir && s.dir[Stale(copy)] in s.files && s.At(Stale(copy)).text.Record? then
        var text := s.At(Stale(copy)).text;
        Goto(s, p, if me.judged == Holder(text.pid, text.serial) then Moving(copy) else DroppingCopy(copy))
      else Goto(s, p, Dating(copy, s.now))
    case Dating(copy, _) =>
      // A stat that fails counts as not fresh; then null is compared with the judged token.
      if Stale(copy) in s.dir && s.dir[Stale(copy)] in s.files && s.now - s.At(Stale(copy)).mtime <= FRESH_MS
      then Goto(s, p, DroppingCopy(copy))
      else Goto(s, p, if me.judged.Unreadable? then Moving(copy) else DroppingCopy(copy))
    case Moving(copy) =>
      if LockFile in s.dir
      then Goto(s.(dir := (s.dir - {LockFile})[Stale(s.next) := s.dir[LockFile]], next := s.next + 1),
                p, Checking(copy, s.next))
      else Goto(s, p, DroppingCopy(copy))
    case Checking(copy, aside) =>
      Goto(s, p, if Stale(copy) in s.dir && Stale(aside) in s.dir && s.dir[Stale(copy)] == s.dir[Stale(aside)]
           then DroppingAside(copy, aside) else PuttingBack(copy, aside))
    case PuttingBack(copy, aside) =>
      if Stale(aside) in s.dir && LockFile !in s.dir
      then Goto(s.(dir := s.dir[LockFile := s.dir[Stale(aside)]]), p, DroppingAside(copy, aside))
      else Goto(s, p, DroppingAside(copy, aside))
    case DroppingAside(copy, aside) => Goto(Remove(s, Stale(aside)), p, DroppingCopy(copy))
    case DroppingCopy(copy) => Goto(Remove(s, Stale(copy)), p, Closing)
    case Closing =>
      if me.turn in s.files && s.files[me.turn].text.Record?
      then Goto(Write(s, me.turn, s.files[me.turn].text.(released := true)), p, Opening)
      else Goto(s, p, Opening)
    case _ => s
  }

  predicate InLockStep(pc: Pc) {
    pc.Opening? || pc.Writing? || pc.Holding? || pc.Unlocking? || pc.Removing? || pc.Reading? || pc.Aging?
        || pc.Judging?
  }

  predicate InTurnStep(pc: Pc) {
    pc.ListingTurns? || pc.StatingTurn? || pc.ReadingTurn? || pc.OwningTurn? || pc.TimingTurn? || pc.MakingTurn?
    || pc.SigningTurn? || pc.Relisting? || pc.GivingUp? || pc.Tidying? || pc.ListingStale? || pc.Sweeping?
  }

  // ---- runs ---------------------------------------------------------------------------------

  /**
   The four places where a process reads or creates a file and then acts on its age. Time may not
   pass a live process by there for more than `pace` ms; everywhere else it may stall for ever.
   */
  predicate OnTime(s: State, p: nat, pace: nat)
    requires p in s.procs
  {
    match s.procs[p].pc
    case Writing(since) => s.now <= since + pace
    case SigningTurn(since) => s.now <= since + pace
    case TimingTurn(_, _, since) => s.now <= since + pace
    case Dating(_, since) => s.now <= since + pace
    case _ => true
  }

  ghost predicate Enabled(s: State, a: Action, pace: nat) {
    match a
    case Spawn(p) => p !in s.procs && p !in s.dead
    case Call(p) => s.Alive(p) && s.procs[p].pc.Idle?
    case Act(p, pick) => s.Alive(p) && !s.procs[p].pc.Idle?
                         && (s.procs[p].pc.ListingTurns? ==> Largest(TurnsOf(s), pick))
    case Beat(p) => s.Alive(p) && s.procs[p].pc.Holding?
    case Die(p) => s.Alive(p)
    case Tick(ms) => forall p :: s.Alive(p) ==> OnTime(s.(now := s.now + ms), p, pace)
  }

  function Step(s: State, a: Action): State {
    match a
    case Spawn(p) => s.(procs := s.procs[p := Proc(Idle, 0, 0, Unreadable, 0, 0)])
    case Call(p) =>
      if p in s.procs then s.(procs := s.procs[p := s.procs[p].(pc := Opening, serial := s.next)], next := s.next + 1)
      else s
    case Act(p, pick) =>
      if p !in s.procs then s
      else if InLockStep(s.procs[p].pc) then LockStep(s, p, pick)
      else if InTurnStep(s.procs[p].pc) then TurnStep(s, p, pick)
      else BreakStep(s, p, pick)
    case Beat(p) =>
      if p in s.procs && LockFile in s.dir && s.dir[LockFile] in s.files && s.At(LockFile).text.Record?
         && s.At(LockFile).text.pid == p && s.At(LockFile).text.serial == s.procs[p].serial
      then s.(files := s.files[s.dir[LockFile] := s.At(LockFile).(mtime := s.now)])
      else s
    case Die(p) => s.(dead := s.dead + {p})
    case Tick(ms) => s.(now := s.now + ms)
  }

  /** An empty folder and no process yet. */
  const START: State := State(0, map[], map[], map[], {}, 0, 0)

  /** The state after each action of a schedule, starting from `s`. */
  function Play(s: State, schedule: seq<Action>): State
    decreases |schedule|
  {
    if schedule == [] then s else Play(Step(s, schedule[0]), schedule[1..])
  }

  /** Every action of the schedule can happen where it happens. */
  ghost predicate Runs(s: State, schedule: seq<Action>, pace: nat)
    decreases |schedule|
  {
    schedule == [] || (Enabled(s, schedule[0], pace) && Runs(Step(s, schedule[0]), schedule[1..], pace))
  }
}
