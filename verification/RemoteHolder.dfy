/**
 How a waiter judges a lock holder it cannot see (packages/tls/src/ca/lock.ts): the holder's heartbeat
 gives the file a new mtime, and the waiter watches the mtime stand still on its own monotonic clock.
 Times are in ms on that clock; what the wall clock says of the heartbeat's age is arbitrary.
 */
module RemoteHolder {
  import opened Results

  const LOCK_HEARTBEAT_MS: int := 20_000
  const LOCK_REMOTE_STALE_MS: int := 90_000
  const LOCK_OBSERVE_MS: int := 2 * LOCK_HEARTBEAT_MS + 5_000

  /** The mtime last seen, and when it was first seen. */
  datatype Observed = Observed(key: int, since: int)

  /**
   One look at the file: when its mtime was read, when the clock was read to note it, when it was read again
   to judge, and how old the wall clock made the heartbeat.
   */
  datatype Poll = Poll(stat: int, noted: int, judged: int, age: int)

  function Noted(observed: Option<Observed>, p: Poll, key: int): Option<Observed> {
    if p.age <= LOCK_REMOTE_STALE_MS then None
    else if observed.None? || observed.value.key != key then Some(Observed(key, p.noted))
    else observed
  }

  predicate Gone(observed: Option<Observed>, p: Poll, key: int) {
    var seen := Noted(observed, p, key);
    seen.Some? && p.judged - seen.value.since >= LOCK_OBSERVE_MS
  }

  class Watcher {
    var observed: Option<Observed>
    /** While watching, the wait is not cut short. */
    var observing: bool

    constructor ()
      ensures observed == None && !observing
    {
      observed, observing := None, false;
    }

    method HolderGone(p: Poll, key: int) returns (gone: bool)
      modifies this
      ensures observed == Noted(old(observed), p, key) && observing == observed.Some?
      ensures gone == Gone(old(observed), p, key)
    {
      observing := false;
      if p.age <= LOCK_REMOTE_STALE_MS {
        observed := None;
        return false;
      }
      if observed.None? || observed.value.key != key {
        observed := Some(Observed(key, p.noted));
      }
      observing := true;
      gone := p.judged - observed.value.since >= LOCK_OBSERVE_MS;
    }
  }

  // ---- a live holder ---------------------------------------------------------------------------------

  /** The holder's touches: from the first to the last, never a heartbeat period without one. */
  predicate Beats(touches: seq<int>) {
    |touches| > 0
        && forall k :: 0 <= k < |touches| - 1 ==> touches[k] < touches[k + 1] <= touches[k] + LOCK_HEARTBEAT_MS
  }

  /** Each touch gives an mtime never seen before: the number of touches stands for it. */
  function MtimeAt(touches: seq<int>, t: int): int {
    if touches == [] then 0
    else if touches[|touches| - 1] <= t then |touches|
    else MtimeAt(touches[..|touches| - 1], t)
  }

  /** The waiter's looks, one after another, each within `pace`, while the holder lives. */
  predicate Looks(touches: seq<int>, polls: seq<Poll>, pace: int) {
    && |touches| > 0
    && (forall k :: 0 <= k < |polls| ==>
          && touches[0] <= polls[k].stat <= touches[|touches| - 1]
          && polls[k].stat <= polls[k].noted <= polls[k].judged <= polls[k].stat + pace)
    && (forall k :: 0 <= k < |polls| - 1 ==> polls[k].judged <= polls[k + 1].stat)
  }

  /** What the waiter has observed after its looks. */
  function Seen(touches: seq<int>, polls: seq<Poll>): Option<Observed> {
    if polls == [] then None
    else
      var last := polls[|polls| - 1];
      Noted(Seen(touches, polls[..|polls| - 1]), last, MtimeAt(touches, last.stat))
  }

  /** Whether the last look takes the holder for gone. */
  predicate TakenForGone(touches: seq<int>, polls: seq<Poll>) {
    && |polls| > 0
    && var last := polls[|polls| - 1];
       Gone(Seen(touches, polls[..|polls| - 1]), last, MtimeAt(touches, last.stat))
  }

  lemma {:induction false} MtimeIs(touches: seq<int>, t: int)
    requires Beats(touches) && touches[0] <= t
    ensures var n := MtimeAt(touches, t);
            1 <= n <= |touches| && touches[n - 1] <= t && (n < |touches| ==> t < touches[n])
  {
    var n := |touches| - 1;
    if t < touches[n] { MtimeIs(touches[..n], t); }
  }

  /** An mtime stands still for less than a heartbeat period. */
  lemma StandsStill(touches: seq<int>, s: int, t: int)
    requires Beats(touches) && touches[0] <= s <= t <= touches[|touches| - 1]
             && MtimeAt(touches, s) == MtimeAt(touches, t)
    ensures t - s < LOCK_HEARTBEAT_MS
  {
    MtimeIs(touches, s);
    MtimeIs(touches, t);
    var n := MtimeAt(touches, t);
    if n == |touches| { Increases(touches, |touches| - 1); }
  }

  lemma {:induction false} Increases(touches: seq<int>, n: nat)
    requires Beats(touches) && n < |touches|
    ensures touches[0] <= touches[n]
  {
    if n > 0 { Increases(touches, n - 1); }
  }

  /** What was observed was there when it was noted: a look saw that mtime shortly before. */
  lemma {:induction false} SeenWasThere(touches: seq<int>, polls: seq<Poll>, pace: int)
    requires Beats(touches) && Looks(touches, polls, pace)
    ensures Seen(touches, polls).Some? ==>
              exists k :: 0 <= k < |polls| && polls[k].noted == Seen(touches, polls).value.since
                          && MtimeAt(touches, polls[k].stat) == Seen(touches, polls).value.key
  {
    if polls != [] {
      var n := |polls| - 1;
      SeenWasThere(touches, polls[..n], pace);
      var before := Seen(touches, polls[..n]);
      if Seen(touches, polls).Some? && Seen(touches, polls) == before {
        var k :| 0 <= k < n && polls[..n][k].noted == before.value.since
            && MtimeAt(touches, polls[..n][k].stat) == before.value.key;
        assert polls[k] == polls[..n][k];
      }
    }
  }

  lemma {:induction false} LooksInOrder(touches: seq<int>, polls: seq<Poll>, pace: int, i: nat, j: nat)
    requires Looks(touches, polls, pace) && i <= j < |polls|
    ensures polls[i].stat <= polls[j].stat
  {
    if i < j {
      LooksInOrder(touches, polls, pace, i, j - 1);
      assert polls[j - 1].judged <= polls[j].stat;
    }
  }

  /** By how much the watch is longer than a heartbeat period. */
  const SLACK: int := LOCK_OBSERVE_MS - LOCK_HEARTBEAT_MS

  /** A waiter that never stalls longer than the slack within one look never takes a live holder for gone. */
  lemma NeverTaken(touches: seq<int>, polls: seq<Poll>, pace: int)
    requires Beats(touches) && Looks(touches, polls, pace) && pace <= SLACK
    ensures !TakenForGone(touches, polls)
  {
    if TakenForGone(touches, polls) {
      var n := |polls| - 1;
      SeenWasThere(touches, polls, pace);
      var seen := Seen(touches, polls).value;
      var k :| 0 <= k < |polls| && polls[k].noted == seen.since && MtimeAt(touches, polls[k].stat) == seen.key;
      LooksInOrder(touches, polls, pace, k, n);
      StandsStill(touches, polls[k].stat, polls[n].stat);
    }
  }

  /** A waiter stalled for longer, just after reading the same mtime twice, does. */
  lemma StalledTakes(pace: int)
    requires pace > SLACK
    ensures exists touches: seq<int>, polls: seq<Poll> ::
             Beats(touches) && Looks(touches, polls, pace)
             && TakenForGone(touches, polls)
  {
    var touches := [0, LOCK_HEARTBEAT_MS, 2 * LOCK_HEARTBEAT_MS];
    var late := LOCK_HEARTBEAT_MS - 1;
    var first := Poll(0, 0, 0, LOCK_REMOTE_STALE_MS + 1);
    var second := Poll(late, late, late + SLACK + 1, LOCK_REMOTE_STALE_MS + 1);
    var polls := [first, second];
    assert touches[..2] == [0, LOCK_HEARTBEAT_MS] && touches[..2][..1] == [0];
    assert polls[..1] == [first] && [first][..0] == [];
    MtimeIs(touches, 0);
    MtimeIs(touches, late);
    assert MtimeAt(touches, 0) == 1 && MtimeAt(touches, late) == 1;
    assert Seen(touches, [first]) == Some(Observed(1, 0));
    assert Beats(touches) && Looks(touches, polls, pace) && TakenForGone(touches, polls);
  }

  /**
   Remote holder safety: whatever the wall clock does, no waiter takes a holder for gone that gives the file a
   new mtime once per heartbeat period, exactly when a waiter cannot stall for more than 25 s within one look.
   */
  lemma RemoteSafetyExactly(pace: int)
    ensures (forall touches: seq<int>, polls: seq<Poll> ::
               Beats(touches) && Looks(touches, polls, pace) ==> !TakenForGone(touches, polls)) <==> pace <= SLACK
  {
    if pace <= SLACK {
      forall touches: seq<int>, polls: seq<Poll> | Beats(touches) && Looks(touches, polls, pace)
        ensures !TakenForGone(touches, polls)
      {
        NeverTaken(touches, polls, pace);
      }
    } else {
      StalledTakes(pace);
    }
  }

  // ---- what a watch is ---------------------------------------------------------------------------------

  /** From look `k` to the last, the heartbeat is old and the mtime stands still. */
  predicate StillSince(touches: seq<int>, polls: seq<Poll>, k: int) {
    && 0 <= k < |polls|
    && forall i :: k <= i < |polls| ==>
         polls[i].age > LOCK_REMOTE_STALE_MS
         && MtimeAt(touches, polls[i].stat) == MtimeAt(touches, polls[|polls| - 1].stat)
  }

  /** What is observed was first seen at the start of the longest such streak. */
  lemma {:induction false} SeenIsStreak(touches: seq<int>, polls: seq<Poll>)
    requires |polls| > 0
    ensures match Seen(touches, polls)
            case None => forall k :: !StillSince(touches, polls, k)
            case Some(o) =>
              && o.key == MtimeAt(touches, polls[|polls| - 1].stat)
              && exists k :: IsFirst(touches, polls, k) && o.since == polls[k].noted
  {
    var n := |polls| - 1;
    var front := polls[..n];
    if polls[n].age <= LOCK_REMOTE_STALE_MS {
      forall k
        ensures !StillSince(touches, polls, k)
      {
        if StillSince(touches, polls, k) { LastIsOld(touches, polls, k); }
      }
    } else if n == 0 {
      assert IsFirst(touches, polls, 0);
    } else {
      SeenIsStreak(touches, front);
      var before := Seen(touches, front);
      if before.Some? && before.value.key == MtimeAt(touches, polls[n].stat) {
        var k :| IsFirst(touches, front, k) && before.value.since == front[k].noted;
        StreakGoesOn(touches, polls, k);
      } else {
        StreakBegins(touches, polls);
      }
    }
  }

  ghost predicate IsFirst(touches: seq<int>, polls: seq<Poll>, k: int) {
    StillSince(touches, polls, k) && forall j :: StillSince(touches, polls, j) ==> k <= j
  }

  lemma StreakGoesOn(touches: seq<int>, polls: seq<Poll>, k: int)
    requires |polls| > 1 && IsFirst(touches, polls[..|polls| - 1], k)
    requires polls[|polls| - 1].age > LOCK_REMOTE_STALE_MS
    requires MtimeAt(touches, polls[|polls| - 2].stat) == MtimeAt(touches, polls[|polls| - 1].stat)
    ensures IsFirst(touches, polls, k)
  {
    var n := |polls| - 1;
    var front := polls[..n];
    assert forall i :: 0 <= i < n ==> front[i] == polls[i];
    forall j | StillSince(touches, polls, j)
      ensures k <= j
    {
      if j < n { assert StillSince(touches, front, j); }
    }
  }

  lemma StreakBegins(touches: seq<int>, polls: seq<Poll>)
    requires |polls| > 1 && polls[|polls| - 1].age > LOCK_REMOTE_STALE_MS
    requires var front := polls[..|polls| - 1];
             (forall k :: !StillSince(touches, front, k))
             || MtimeAt(touches, polls[|polls| - 2].stat) != MtimeAt(touches, polls[|polls| - 1].stat)
    ensures IsFirst(touches, polls, |polls| - 1)
  {
    forall j | StillSince(touches, polls, j)
      ensures |polls| - 1 <= j
    {
      if j < |polls| - 1 { FrontIsStill(touches, polls, j); }
    }
  }

  lemma LastIsOld(touches: seq<int>, polls: seq<Poll>, k: int)
    requires StillSince(touches, polls, k)
    ensures polls[|polls| - 1].age > LOCK_REMOTE_STALE_MS
  {
  }

  lemma FrontIsStill(touches: seq<int>, polls: seq<Poll>, j: int)
    requires StillSince(touches, polls, j) && j < |polls| - 1
    ensures StillSince(touches, polls[..|polls| - 1], j)
    ensures MtimeAt(touches, polls[|polls| - 2].stat) == MtimeAt(touches, polls[|polls| - 1].stat)
  {
    assert forall i :: 0 <= i < |polls| - 1 ==> polls[..|polls| - 1][i] == polls[i];
  }

  /** One look after another, whether or not the holder still lives. */
  predicate OneByOne(polls: seq<Poll>) {
    && (forall k :: 0 <= k < |polls| ==> polls[k].stat <= polls[k].noted <= polls[k].judged)
    && (forall k :: 0 <= k < |polls| - 1 ==> polls[k].judged <= polls[k + 1].stat)
  }

  lemma {:induction false} NotedInOrder(polls: seq<Poll>, i: nat, j: nat)
    requires OneByOne(polls) && i <= j < |polls|
    ensures polls[i].noted <= polls[j].noted
  {
    if i < j {
      NotedInOrder(polls, i, j - 1);
      assert polls[j - 1].judged <= polls[j].stat;
    }
  }

  /**
   A holder is taken for gone exactly when its heartbeat has been old, and the same, at every look since one that was
   noted LOCK_OBSERVE_MS before the last: so a dead one always is in the end.
   */
  lemma TakenExactly(touches: seq<int>, polls: seq<Poll>)
    requires OneByOne(polls)
    ensures TakenForGone(touches, polls) <==>
              exists k :: StillSince(touches, polls, k) && polls[|polls| - 1].judged - polls[k].noted >= LOCK_OBSERVE_MS
  {
    if polls != [] {
      SeenIsStreak(touches, polls);
      var last := polls[|polls| - 1];
      if Seen(touches, polls).Some? {
        var first :| IsFirst(touches, polls, first) && Seen(touches, polls).value.since == polls[first].noted;
        forall k | StillSince(touches, polls, k)
          ensures polls[first].noted <= polls[k].noted
        {
          NotedInOrder(polls, first, k);
        }
      }
    }
  }
}
