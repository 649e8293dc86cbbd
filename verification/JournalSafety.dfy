/** What no crash, however often and wherever, can do to the CA folder. */
module JournalSafety {
  import opened Results
  import opened Journal

  /** Every folder that a crash of the change, or of any of its recoveries, can leave. */
  ghost predicate MidCrash(d: Disk, c: Change)
    requires ValidChange(c)
  {
    Undo(d, c) || Redo(d, c) || Finished(d, c)
  }

  /**
   The CA active at the start is whole in exactly one of `ca/` and its backup folder; no other
   backup but the one being restored is touched; and a staged CA never meets an active one once the
   journal says the active one was moved, so the "both exist" error cannot be reached.
   */
  lemma NoCaIsEverLost(d: Disk, c: Change)
    requires ValidChange(c) && MidCrash(d, c)
    ensures c.before.ca.Some? ==>
              if c.backup.value in d.backups
              then d.backups[c.backup.value] == c.before.ca.value && (d.ca == None || d.ca == Some(Whole(c.newCa)))
              else d.ca == c.before.ca
    ensures forall n :: n in c.before.backups && Some(n) != c.restoreFrom ==>
              n in d.backups && d.backups[n] == c.before.backups[n]
    ensures d.txn.Some? && Rank(d.txn.value.step) >= Rank(ActiveCaMoved) && d.Staged?(c.id) ==> d.ca == None
    ensures c.backup.Some? ==> c.backup != c.restoreFrom
  {
    if Tidying(d, c) || Finished(d, c) { OtherBackups(d, c); }
  }

  /** Dropping the restored backup, whatever is left of it, leaves every other one. */
  lemma OtherBackups(d: Disk, c: Change)
    requires ValidChange(c) && Dropped(c, d.backups) == Dropped(c, Grown(c))
    ensures forall n :: Some(n) != c.restoreFrom ==>
              (n in d.backups <==> n in Grown(c)) && (n in d.backups ==> d.backups[n] == Grown(c)[n])
  {
    forall n | Some(n) != c.restoreFrom
      ensures (n in d.backups <==> n in Grown(c)) && (n in d.backups ==> d.backups[n] == Grown(c)[n])
    {
      assert n in d.backups <==> n in Dropped(c, d.backups);
      assert n in Grown(c) <==> n in Dropped(c, Grown(c));
    }
  }

  /** A CA being restored is whole in its backup, in the stage or in `ca/`. */
  lemma RestoredCaIsWhole(d: Disk, c: Change)
    requires ValidChange(c) && MidCrash(d, c) && c.restoreFrom.Some?
    ensures Holds(d.backups, c.restoreFrom.value, c.newCa)
            || (c.id in d.stageCa && d.stageCa[c.id] == Some(Whole(c.newCa)))
            || d.ca == Some(Whole(c.newCa))
  {
  }

  function Place(f: PubFile): nat {
    match f
    case CaCrt => 0
    case MetaJson => 1
    case LeafCrt => 2
    case LeafPem => 3
  }

  /** The public files with the first `k` new ones in place. */
  function PublicWith(c: Change, k: nat): PubFiles {
    c.before.pub + map f | f in c.newPub && Place(f) < k :: c.newPub[f]
  }

  /**
   In every mid-crash state the new public files are in place up to some point of the install order: the CA first, the
   serving bundle last.
   */
  lemma PublicInOrder(d: Disk, c: Change)
    requires ValidChange(c) && MidCrash(d, c)
    ensures exists k :: 0 <= k <= 4 && d.pub == PublicWith(c, k)
  {
    if Publishing(d, c) {
      PublishedTo(d, c);
    } else if Tidying(d, c) || Finished(d, c) {
      assert d.pub == PublicWith(c, 4) by { AllPlaced(c); }
    } else {
      assert d.pub == PublicWith(c, 0);
    }
  }

  lemma AllPlaced(c: Change)
    ensures PublicWith(c, 4) == c.before.pub + c.newPub
  {
    assert forall f: PubFile :: Place(f) < 4;
    assert (map f | f in c.newPub && Place(f) < 4 :: c.newPub[f]) == c.newPub;
  }

  lemma PublishedTo(d: Disk, c: Change)
    requires ValidChange(c) && Publishing(d, c)
    ensures exists k :: 0 <= k <= 4 && d.pub == PublicWith(c, k)
  {
    var staged := d.stagePub[c.id];
    var k := if CaCrt in staged then 0 else if MetaJson in staged then 1 else if LeafCrt in staged then 2
             else if LeafPem in staged then 3 else 4;
    forall f: PubFile
      ensures f in staged <==> Place(f) >= k
    {
    }
    SplitIs(d, c, staged, k);
  }

  lemma SplitIs(d: Disk, c: Change, staged: PubFiles, k: nat)
    requires c.newPub.Keys == ALL_FILES && Split(d.pub, staged, c)
             && forall f: PubFile :: f in staged <==> Place(f) >= k
    ensures d.pub == PublicWith(c, k)
  {
    forall f: PubFile
      ensures f in d.pub <==> f in PublicWith(c, k)
      ensures f in d.pub ==> d.pub[f] == PublicWith(c, k)[f]
    {
      match f { case CaCrt => case MetaJson => case LeafCrt => case LeafPem => }
    }
  }

  // ---- any number of crashes of one change -------------------------------------------------------

  /**
   A change whose process dies after budgets[0] filesystem steps, followed by recoveries that die
   after budgets[1], budgets[2], ... steps. As soon as one of them ends, the folder is exactly the
   old one, or, unless the staging threw, exactly the new one; until then every CA is where
   NoCaIsEverLost says. A change that neither throws nor dies within 57 steps is made, and a recovery
   that is left 39 steps ends.
   */
  method CrashStorm(f: TlsFolder, now: nat, id: nat, restoreFrom: Option<nat>, newCa: nat, newPub: PubFiles,
                    throwsAt: nat, budgets: seq<nat>)
    returns (settled: bool, ghost c: Change)
    requires budgets != [] && f.disk.txn == None && f.disk.stageCa == map[] && f.disk.stagePub == map[]
    requires newPub.Keys == ALL_FILES && (f.disk.ca.Some? ==> f.disk.ca.value.Whole?)
    requires restoreFrom.Some? ==> Holds(f.disk.backups, restoreFrom.value, newCa)
    modifies f
    ensures ValidChange(c) && c.before == old(f.disk) && c.newCa == newCa && c.newPub == newPub
            && c.restoreFrom == restoreFrom
    ensures settled ==> f.disk.(temps := 0) == Before(c) || (throwsAt > 8 && f.disk.(temps := 0) == After(c))
    ensures !settled ==> MidCrash(f.disk, c)
    ensures budgets[0] >= 57 && throwsAt > 8 ==> settled && f.disk.(temps := 0) == After(c)
    ensures (exists k :: 1 <= k < |budgets| && budgets[k] >= 39) ==> settled
  {
    f.budget := budgets[0];
    var outcome, backup, change := f.RunTransaction(now, id, restoreFrom, newCa, newPub, throwsAt);
    c := change;
    settled := outcome != Crashed;
    for k := 1 to |budgets|
      invariant settled ==> f.disk.(temps := 0) == Before(c) || (throwsAt > 8 && f.disk.(temps := 0) == After(c))
      invariant !settled ==> Undo(f.disk, c) || (throwsAt > 8 && Redo(f.disk, c))
      invariant budgets[0] >= 57 && throwsAt > 8 ==> settled && f.disk.(temps := 0) == After(c)
      invariant (exists j :: 1 <= j < k && budgets[j] >= 39) ==> settled
    {
      if !settled {
        f.budget := budgets[k];
        outcome := f.Recover(c);
        settled := outcome == Done;
      }
    }
  }

  // ---- the whole life of a CA folder ----------------------------------------------------------

  /** The CA is whole in `ca/` or in some backup. */
  ghost predicate Keeps(d: Disk, ca: nat) {
    d.ca == Some(Whole(ca)) || exists n: nat :: Holds(d.backups, n, ca)
  }

  lemma ChangeKeeps(c: Change, ca: nat)
    requires ValidChange(c) && (Keeps(c.before, ca) || ca == c.newCa)
    ensures Keeps(After(c), ca)
  {
    var d := After(c);
    if ca != c.newCa {
      if c.before.ca == Some(Whole(ca)) {
        assert Holds(d.backups, c.backup.value, ca);
      } else {
        var n: nat :| Holds(c.before.backups, n, ca);
        assert Some(n) != c.restoreFrom;
        assert Holds(d.backups, n, ca);
      }
    }
  }

  /** One change after another, each undone or made. */
  ghost predicate Life(changes: seq<Change>, ends: seq<Disk>) {
    && |changes| == |ends|
    && (forall i :: 0 <= i < |changes| ==>
          ValidChange(changes[i]) && (ends[i] == Before(changes[i]) || ends[i] == After(changes[i])))
    && (forall i :: 0 < i < |changes| ==> changes[i].before == ends[i - 1])
  }

  /** Over any number of changes, made or undone, every CA that was ever whole in the folder still is. */
  lemma {:induction false} CasOutliveEveryChange(changes: seq<Change>, ends: seq<Disk>, i: nat, j: nat, ca: nat)
    requires Life(changes, ends) && i <= j < |changes|
    requires Keeps(changes[i].before, ca) || (ends[i] == After(changes[i]) && ca == changes[i].newCa)
    ensures Keeps(ends[j], ca)
    decreases j
  {
    if i == j {
      if ends[j] == After(changes[j]) {
        ChangeKeeps(changes[j], ca);
      } else if Keeps(changes[j].before, ca) {
        SameKeeps(changes[j].before, ends[j], ca);
      }
    } else {
      CasOutliveEveryChange(changes, ends, i, j - 1, ca);
      assert changes[j].before == ends[j - 1];
      if ends[j] == After(changes[j]) {
        ChangeKeeps(changes[j], ca);
      } else {
        SameKeeps(changes[j].before, ends[j], ca);
      }
    }
  }

  lemma SameKeeps(d: Disk, e: Disk, ca: nat)
    requires d.ca == e.ca && d.backups == e.backups && Keeps(d, ca)
    ensures Keeps(e, ca)
  {
  }
}
