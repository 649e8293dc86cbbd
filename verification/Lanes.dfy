/**
 A webhook's delivery lane (packages/notify/src/sender.ts): one drain at a time, and a wake that comes while it
 runs makes it look once more.
 */
module Lanes {

  /** `owed` is not stored: a wake has come since the last look at the queue began. */
  datatype Lane = Lane(busy: bool, again: bool, stopped: bool, owed: bool)

  const IDLE: Lane := Lane(false, false, false, false)

  /** A wake comes, a look at the queue ends (a row was sent, or not), or the sender stops. */
  datatype Event = Wake | Looked(sent: bool) | Stop

  /** A look at the queue begins: it sees whatever was queued before. */
  function Look(l: Lane): Lane { l.(busy := true, again := false, owed := false) }

  function Next(l: Lane, e: Event): Lane {
    match e
    case Wake =>
      if l.stopped then l
      else if l.busy then l.(again := true, owed := true)
      else Look(l)
    case Looked(sent) => if !l.stopped && (sent || l.again) then Look(l) else l.(busy := false)
    case Stop => l.(stopped := true)
  }

  class DeliveryLane {
    var busy: bool
    var again: bool
    var stopped: bool
    ghost var owed: bool
    /** How many looks at the queue have begun. */
    var looks: nat

    ghost function Value(): Lane
      reads this
    {
      Lane(busy, again, stopped, owed)
    }

    constructor ()
      ensures Value() == IDLE && looks == 0
    {
      busy, again, stopped, owed, looks := false, false, false, false, 0;
    }

    /** Starts a drain, or has the one under way look once more. */
    method Wake()
      modifies this
      ensures Value() == Next(old(Value()), Event.Wake)
      ensures looks == old(looks) + (if !old(stopped) && !old(busy) then 1 else 0)
    {
      if stopped { return; }
      if busy {
        again, owed := true, true;
        return;
      }
      busy := true;
      Look();
    }

    /** The start of a sendNext: its reading of the queue. */
    method Look()
      modifies this`again, this`owed, this`looks
      ensures !again && !owed && looks == old(looks) + 1
    {
      again, owed, looks := false, false, looks + 1;
    }

    /** The end of one sendNext, and the start of the next one if there is a reason. */
    method Looked(sent: bool)
      requires busy
      modifies this
      ensures Value() == Next(old(Value()), Event.Looked(sent))
      ensures looks == old(looks) + (if busy then 1 else 0)
    {
      if !stopped && (sent || again) {
        Look();
      } else {
        busy := false;
      }
    }

    method Stop()
      modifies `stopped
      ensures Value() == Next(old(Value()), Event.Stop)
    {
      stopped := true;
    }
  }

  /** A look only ends while one is under way. */
  predicate Happens(l: Lane, events: seq<Event>)
    decreases |events|
  {
    events == [] || ((events[0].Looked? ==> l.busy) && Happens(Next(l, events[0]), events[1..]))
  }

  function Play(l: Lane, events: seq<Event>): Lane
    decreases |events|
  {
    if events == [] then l else Play(Next(l, events[0]), events[1..])
  }

  lemma {:induction false} OwedIsRemembered(l: Lane, events: seq<Event>)
    requires Happens(l, events) && (l.owed && !l.stopped ==> l.busy && l.again)
    ensures var v := Play(l, events); v.owed && !v.stopped ==> v.busy && v.again
    decreases |events|
  {
    if events != [] { OwedIsRemembered(Next(l, events[0]), events[1..]); }
  }

  /**
   No wake is lost: in every run, while the sender is not stopped, a wake since the last look began is remembered
   by a drain under way, whose next step is to look again.
   */
  lemma NoWakeIsLost(events: seq<Event>, sent: bool)
    requires Happens(IDLE, events)
    ensures var l := Play(IDLE, events);
            && (l.owed && !l.stopped ==> l.busy && Next(l, Looked(sent)) == Look(l))
            && (!l.stopped ==> Next(l, Wake).busy)
  {
    OwedIsRemembered(IDLE, events);
  }

  /** This many wakes. */
  function Wakes(n: nat): seq<Event> { seq(n, _ => Wake) }

  lemma {:induction false} WakesWhileBusy(l: Lane, n: nat)
    requires l.busy && !l.stopped
    ensures Play(l, Wakes(n)) == if n == 0 then l else l.(again := true, owed := true)
    decreases n
  {
    if n > 0 {
      assert Wakes(n)[0] == Wake && Wakes(n)[1..] == Wakes(n - 1);
      WakesWhileBusy(l.(again := true, owed := true), n - 1);
    }
  }

  lemma {:induction false} PlayOn(l: Lane, events: seq<Event>, e: Event)
    ensures Play(l, events + [e]) == Next(Play(l, events), e)
    decreases |events|
  {
    if events == [] {
      assert [e][1..] == [];
    } else {
      assert (events + [e])[1..] == events[1..] + [e];
      PlayOn(Next(l, events[0]), events[1..], e);
    }
  }

  /**
   A drain goes on exactly as long as it should: after any run, if a look begins with the next event, and this many
   wakes come while it is under way, then at its end another begins if and only if a row was sent or there was a wake.
   */
  lemma DrainGoesOn(events: seq<Event>, e: Event, wakes: nat, sent: bool)
    requires Happens(IDLE, events + [e])
    requires var l, began := Play(IDLE, events), Play(IDLE, events + [e]);
             began.busy && !began.stopped && (e.Looked? || !l.busy)
    ensures Play(Play(Play(IDLE, events + [e]), Wakes(wakes)), [Looked(sent)]).busy <==> sent || wakes > 0
  {
    PlayOn(IDLE, events, e);
    var began := Play(IDLE, events + [e]);
    WakesWhileBusy(began, wakes);
    assert [Looked(sent)][1..] == [];
  }
}
