/**
 CA changes as journalled transactions (packages/tls/src/ca/journal.ts).

 The TLS folder is a record of what is on disk; every method makes the filesystem calls of the
 source in its order and asks `Hook` before each one, as the source does. A crash is a budget of
 filesystem steps that runs out: the method stops where it is and nothing is cleaned up. Inside a
 recursive removal it may also stop half way, with any part of the tree gone.
 */
module Journal {
  import opened Results

  /** A CA folder: key, certificate and constraints complete, or some of them missing. */
  datatype Tree = Whole(ca: nat) | Damaged

  /** The public files, in install order. */
  datatype PubFile = CaCrt | MetaJson | LeafCrt | LeafPem
  type PubFiles = map<PubFile, nat>
  const ALL_FILES: set<PubFile> := {CaCrt, MetaJson, LeafCrt, LeafPem}

  datatype TxnStep = Staged | Validated | ActiveCaMoved | NewCaInstalled | LeafInstalled | Committed

  function Rank(step: TxnStep): nat {
    match step
    case Staged => 0
    case Validated => 1
    case ActiveCaMoved => 2
    case NewCaInstalled => 3
    case LeafInstalled => 4
    case Committed => 5
  }

  /** txn.json. Backup names are the seconds they stand for. */
  datatype Txn = Txn(id: nat, step: TxnStep, backup: Option<nat>, restoreFrom: Option<nat>)

  /** `stageCa[id]` is `ca.next-<id>` with its `ca` child, `stagePub[id]` is `.next-<id>`. */
  datatype Disk = Disk(ca: Option<Tree>, backups: map<nat, Tree>, pub: PubFiles,
                       stageCa: map<nat, Option<Tree>>, stagePub: map<nat, PubFiles>,
                       txn: Option<Txn>, temps: nat)
  {
    predicate Staged?(id: nat) {
      id in stageCa && stageCa[id].Some?
    }
  }

  datatype Outcome = Done | Failed | Crashed | Conflict

  // ---- backup names -------------------------------------------------------------------------

  /** The first free second from `now` on. */
  method BackupName(now: nat, taken: set<nat>) returns (at: nat)
    ensures now <= at && at !in taken
    ensures forall s :: now <= s < at ==> s in taken
  {
    at := now;
    var left := taken;
    while at in taken
      invariant now <= at && left <= taken
      invariant forall s :: now <= s < at ==> s in taken
      invariant forall s :: s in taken && s >= at ==> s in left
      decreases |left|
    {
      left := left - {at};
      at := at + 1;
    }
  }

  // ---- what a change is to do, and what a crash can leave ---------------------------------------

  /** A change of the CA, from a folder with no journal and no stage. */
  datatype Change = Change(before: Disk, id: nat, backup: Option<nat>, restoreFrom: Option<nat>,
                           newCa: nat, newPub: PubFiles)

  ghost predicate ValidChange(c: Change) {
    && c.before.txn == None && c.before.stageCa == map[] && c.before.stagePub == map[]
    && c.newPub.Keys == ALL_FILES
    && (c.before.ca.Some? <==> c.backup.Some?)
    && (c.backup.Some? ==> c.before.ca.value.Whole? && c.backup.value !in c.before.backups)
    && (c.restoreFrom.Some? ==> Holds(c.before.backups, c.restoreFrom.value, c.newCa))
  }

  predicate Holds(backups: map<nat, Tree>, name: nat, ca: nat) {
    name in backups && backups[name] == Whole(ca)
  }

  function TxnOf(c: Change, step: TxnStep): Txn {
    Txn(c.id, step, c.backup, c.restoreFrom)
  }

  /** The backups once the active CA has become one. */
  function Grown(c: Change): map<nat, Tree>
    requires c.backup.Some? ==> c.before.ca.Some?
  {
    if c.backup.Some? then c.before.backups[c.backup.value := c.before.ca.value] else c.before.backups
  }

  function Dropped(c: Change, backups: map<nat, Tree>): map<nat, Tree> {
    if c.restoreFrom.Some? then backups - {c.restoreFrom.value} else backups
  }

  /** The folder with the change made. */
  function After(c: Change): Disk
    requires ValidChange(c)
  {
    c.before.(ca := Some(Whole(c.newCa)), backups := Dropped(c, Grown(c)),
              pub := c.before.pub + c.newPub, temps := 0)
  }

  /** The folder with nothing changed. */
  function Before(c: Change): Disk {
    c.before.(temps := 0)
  }

  /** The CA, its backups and the public files as they were. */
  predicate Untouched(d: Disk, c: Change) {
    d.ca == c.before.ca && d.backups == c.before.backups && d.pub == c.before.pub
  }

  /** No stage folder but this transaction's. */
  predicate OwnStages(d: Disk, c: Change) {
    d.stageCa.Keys <= {c.id} && d.stagePub.Keys <= {c.id}
  }

  predicate FullStage(d: Disk, c: Change) {
    d.stageCa == map[c.id := Some(Whole(c.newCa))] && d.stagePub == map[c.id := c.newPub]
  }

  /** Not yet journalled, thrown away, or still being staged: the journal says so. */
  predicate Staging(d: Disk, c: Change) {
    Untouched(d, c) && OwnStages(d, c) && (d.txn == None || d.txn == Some(TxnOf(c, Staged)))
  }

  /** Validated, and the active CA still in place. */
  predicate Ready(d: Disk, c: Change) {
    Untouched(d, c) && FullStage(d, c) && c.backup.Some? && d.txn == Some(TxnOf(c, Validated))
  }

  /** No CA in place, the staged one waiting. */
  predicate Moved(d: Disk, c: Change)
    requires c.backup.Some? ==> c.before.ca.Some?
  {
    && d.ca == None && d.backups == Grown(c) && d.pub == c.before.pub && FullStage(d, c)
    && (d.txn == Some(TxnOf(c, Validated)) || d.txn == Some(TxnOf(c, ActiveCaMoved)))
  }

  /** The new CA in place, the public files not yet touched. */
  predicate Installed(d: Disk, c: Change)
    requires c.backup.Some? ==> c.before.ca.Some?
  {
    && d.ca == Some(Whole(c.newCa)) && d.backups == Grown(c) && d.pub == c.before.pub
    && d.stageCa == map[c.id := None] && d.stagePub == map[c.id := c.newPub]
    && (d.txn == Some(TxnOf(c, ActiveCaMoved)) || d.txn == Some(TxnOf(c, NewCaInstalled)))
  }

  /** Some public files moved out of the stage into place. */
  predicate Publishing(d: Disk, c: Change)
    requires c.backup.Some? ==> c.before.ca.Some?
  {
    && d.ca == Some(Whole(c.newCa)) && d.backups == Grown(c)
    && d.stageCa == map[c.id := None] && d.stagePub.Keys == {c.id}
    && Split(d.pub, d.stagePub[c.id], c) && RestInOrder(d.stagePub[c.id])
    && d.txn == Some(TxnOf(c, NewCaInstalled))
  }

  /** Each new public file is either still staged or in place; every other file is as it was. */
  predicate Split(pub: PubFiles, staged: PubFiles, c: Change) {
    && (forall f :: f in staged ==> f in c.newPub && staged[f] == c.newPub[f])
    && (forall f :: f in c.newPub && f !in staged ==> f in pub && pub[f] == c.newPub[f])
    && (forall f :: f in staged ==> (f in pub <==> f in c.before.pub) && (f in pub ==> pub[f] == c.before.pub[f]))
  }

  /** Files leave the stage in install order: with one still staged, so are all after it. */
  predicate RestInOrder(staged: PubFiles) {
    && (CaCrt in staged ==> MetaJson in staged) && (MetaJson in staged ==> LeafCrt in staged)
    && (LeafCrt in staged ==> LeafPem in staged)
  }

  /** No file before this one is staged. */
  predicate ComesNext(f: PubFile, staged: PubFiles) {
    match f
    case CaCrt => true
    case MetaJson => CaCrt !in staged
    case LeafCrt => CaCrt !in staged && MetaJson !in staged
    case LeafPem => CaCrt !in staged && MetaJson !in staged && LeafCrt !in staged
  }

  /** Everything in place; the restored backup, the stage and the journal are going. */
  predicate Tidying(d: Disk, c: Change)
    requires c.backup.Some? ==> c.before.ca.Some?
  {
    && d.ca == Some(Whole(c.newCa)) && d.pub == c.before.pub + c.newPub
    && Dropped(c, d.backups) == Dropped(c, Grown(c))
    && OwnStages(d, c)
    && (c.id in d.stageCa ==> d.stageCa[c.id] == None) && (c.id in d.stagePub ==> d.stagePub[c.id] == map[])
    && (d.txn == Some(TxnOf(c, LeafInstalled)) || (d.txn == Some(TxnOf(c, Committed)) && Tidy(d, c)))
  }

  predicate Tidy(d: Disk, c: Change) {
    && (c.restoreFrom.Some? ==> c.restoreFrom.value !in d.backups)
    && d.stageCa == map[] && d.stagePub == map[]
  }

  /** Recovery will put everything back. */
  predicate Undo(d: Disk, c: Change) {
    Staging(d, c) || Ready(d, c)
  }

  /** Recovery will finish the change. */
  predicate Redo(d: Disk, c: Change)
    requires c.backup.Some? ==> c.before.ca.Some?
  {
    Moved(d, c) || Installed(d, c) || Publishing(d, c) || Tidying(d, c)
  }

  /** The change has been made and its journal is gone. */
  predicate Finished(d: Disk, c: Change)
    requires ValidChange(c)
  {
    d.(temps := 0) == After(c)
  }

  function Advanced(txn: Txn, step: TxnStep): Txn {
    if Rank(step) <= Rank(txn.step) then txn else txn.(step := step)
  }

  predicate SameButTemps(d: Disk, e: Disk) {
    d.(temps := 0) == e.(temps := 0)
  }

  class TlsFolder {
    var disk: Disk
    var budget: nat

    constructor (disk: Disk, budget: nat)
      ensures this.disk == disk && this.budget == budget
    {
      this.disk, this.budget := disk, budget;
    }

    /** Called before each step that changes the disk: false means the process dies here. */
    method Hook() returns (go: bool)
      modifies `budget
      ensures go <==> old(budget) > 0
      ensures budget == if go then old(budget) - 1 else 0
    {
      go := budget > 0;
      if go { budget := budget - 1; }
    }

    /** writeAtomic of txn.json: a temp file, then a rename over it. */
    method WriteTxn(txn: Txn) returns (ok: bool)
      modifies this
      ensures budget <= old(budget) <= budget + 5 && (!ok ==> budget == 0 && old(budget) < 5)
      ensures ok ==> disk == old(disk).(txn := Some(txn))
      ensures !ok ==> SameButTemps(disk, old(disk)) || SameButTemps(disk, old(disk).(txn := Some(txn)))
    {
      ok := Hook(); // create
      if !ok { return; }
      disk := disk.(temps := disk.temps + 1);
      ok := Hook(); // write
      if !ok { return; }
      ok := Hook(); // fsync
      if !ok { return; }
      ok := Hook(); // rename
      if !ok { return; }
      disk := disk.(txn := Some(txn), temps := disk.temps - 1);
      ok := Hook(); // fsync of the folder
    }

    /** removeTree of ca.next-<id>. */
    method RemoveStageCa(id: nat) returns (ok: bool)
      modifies this
      ensures budget <= old(budget) <= budget + 2 && (!ok ==> budget == 0 && old(budget) < 2)
      ensures ok ==> disk == old(disk).(stageCa := old(disk).stageCa - {id})
      ensures !ok ==> exists rest :: disk == old(disk).(stageCa := rest) && PartOfCa(rest, old(disk).stageCa, id)
    {
      ok := Hook();
      if !ok {
        assert PartOfCa(disk.stageCa, old(disk).stageCa, id);
        return;
      }
      ok := Hook(); // may die half way
      if !ok {
        if id in disk.stageCa {
          var gone: bool := *;
          var left := if gone || disk.stageCa[id] == None then None else Some(Damaged);
          disk := disk.(stageCa := disk.stageCa[id := left]);
        }
        assert PartOfCa(disk.stageCa, old(disk).stageCa, id);
        return;
      }
      disk := disk.(stageCa := disk.stageCa - {id});
    }

    /** removeTree of .next-<id>. */
    method RemoveStagePub(id: nat) returns (ok: bool)
      modifies this
      ensures budget <= old(budget) <= budget + 2 && (!ok ==> budget == 0 && old(budget) < 2)
      ensures ok ==> disk == old(disk).(stagePub := old(disk).stagePub - {id})
      ensures !ok ==> exists rest :: disk == old(disk).(stagePub := rest) && PartOfPub(rest, old(disk).stagePub, id)
    {
      ok := Hook();
      if !ok {
        assert PartOfPub(disk.stagePub, old(disk).stagePub, id);
        return;
      }
      ok := Hook(); // may die half way
      if !ok {
        if id in disk.stagePub {
          var gone: set<PubFile> := *;
          disk := disk.(stagePub := disk.stagePub[id := disk.stagePub[id] - gone]);
        }
        assert PartOfPub(disk.stagePub, old(disk).stagePub, id);
        return;
      }
      disk := disk.(stagePub := disk.stagePub - {id});
    }

    /** removeTree of a backup. */
    method RemoveBackup(name: nat) returns (ok: bool)
      modifies this
      ensures budget <= old(budget) <= budget + 2 && (!ok ==> budget == 0 && old(budget) < 2)
      ensures ok ==> disk == old(disk).(backups := old(disk).backups - {name})
      ensures !ok ==> disk == old(disk) || (name in old(disk).backups
                        && disk == old(disk).(backups := old(disk).backups[name := Damaged]))
    {
      ok := Hook();
      if !ok { return; }
      ok := Hook(); // may die half way
      if !ok {
        if name in disk.backups { disk := disk.(backups := disk.backups[name := Damaged]); }
        return;
      }
      disk := disk.(backups := disk.backups - {name});
    }

    /** Throws a transaction away, its journal first. */
    method Discard(txn: Txn, ghost c: Change) returns (ok: bool)
      requires ValidChange(c) && Undo(disk, c) && txn.id == c.id
      modifies this
      ensures budget <= old(budget) <= budget + 5 && (!ok ==> budget == 0 && old(budget) < 5)
      ensures disk.temps == old(disk.temps)
      ensures ok ==> disk.(temps := 0) == Before(c)
      ensures !ok ==> Undo(disk, c)
    {
      ok := Hook();
      if !ok { return; }
      disk := disk.(txn := None);
      ok := RemoveStageCa(txn.id);
      if !ok { return; }
      ok := RemoveStagePub(txn.id);
      if ok { assert disk.stageCa == map[] && disk.stagePub == map[]; }
    }

    /** Journals a step, never backwards: a rerun repeats the early steps without journalling them. */
    method Advance(txn: Txn, step: TxnStep) returns (ok: bool, next: Txn)
      requires disk.txn == Some(txn)
      modifies this
      ensures budget <= old(budget) <= budget + 5 && (!ok ==> budget == 0 && old(budget) < 5)
      ensures next == Advanced(txn, step)
      ensures ok ==> disk == old(disk).(txn := Some(next))
      ensures !ok ==> SameButTemps(disk, old(disk)) || SameButTemps(disk, old(disk).(txn := Some(next)))
    {
      ok, next := true, Advanced(txn, step);
      if Rank(step) > Rank(txn.step) { ok := WriteTxn(next); }
    }

    /** Complete, step 1: the active CA becomes a backup, only while a staged CA still waits. */
    method MoveActive(txn: Txn, ghost c: Change) returns (ok: bool, next: Txn)
      requires ValidChange(c) && disk.txn == Some(txn) && (Ready(disk, c) || Redo(disk, c))
      modifies this
      ensures budget <= old(budget) <= budget + 7 && (!ok ==> budget == 0 && old(budget) < 7)
      ensures ok ==> RedoFrom(disk, c, next, ActiveCaMoved) && disk.temps == old(disk.temps)
      ensures !ok ==> (Ready(disk, c) && !old(Redo(disk, c))) || Redo(disk, c)
    {
      next := txn;
      if txn.backup.Some? && disk.ca.Some? && disk.Staged?(txn.id) {
        NotYetMoved(disk, c);
        ok := Hook(); // rename
        if !ok { return; }
        disk := disk.(ca := None, backups := disk.backups[txn.backup.value := disk.ca.value]);
        ok := Hook(); // fsync of the folder
        if !ok { return; }
      } else {
        NotReady(disk, c);
      }
      ghost var d := disk;
      JournalMoved(d, c, txn);
      ok, next := Advance(txn, ActiveCaMoved);
      Either(d, disk, c, next);
    }

    /** Complete, step 2: the staged CA becomes the active one. */
    method InstallCa(txn: Txn, ghost c: Change) returns (outcome: Outcome, next: Txn)
      requires ValidChange(c) && RedoFrom(disk, c, txn, ActiveCaMoved)
      modifies this
      ensures budget <= old(budget) <= budget + 7 && (outcome == Crashed ==> budget == 0 && old(budget) < 7)
      ensures outcome == Done || outcome == Crashed
      ensures outcome == Done ==> RedoFrom(disk, c, next, NewCaInstalled) && disk.temps == old(disk.temps)
      ensures Redo(disk, c)
    {
      next := txn;
      var ok: bool;
      if disk.Staged?(txn.id) {
        StagedMeansMoved(disk, c, txn);
        if disk.ca.Some? { return Conflict, txn; } // "both exist; move one aside by hand"
        ok := Hook(); // rename
        if !ok { return Crashed, txn; }
        disk := disk.(ca := disk.stageCa[txn.id], stageCa := disk.stageCa[txn.id := None]);
        ok := Hook(); // fsync of the folder
        if !ok { return Crashed, txn; }
      } else {
        UnstagedMeansInstalled(disk, c, txn);
      }
      ghost var d := disk;
      JournalInstalled(d, c, txn);
      ok, next := Advance(txn, NewCaInstalled);
      Either(d, disk, c, next);
      outcome := if ok then Done else Crashed;
    }

    /** One public file of step 3, if it is still staged. */
    method PublishFile(txn: Txn, f: PubFile, ghost c: Change) returns (ok: bool)
      requires ValidChange(c) && disk.txn == Some(txn) && (Publishing(disk, c) || Tidying(disk, c))
      requires txn.id in disk.stagePub ==> ComesNext(f, disk.stagePub[txn.id])
      modifies this
      ensures budget <= old(budget) <= budget + 2 && (!ok ==> budget == 0 && old(budget) < 2)
      ensures disk.txn == Some(txn) && disk.temps == old(disk.temps) && (Publishing(disk, c) || Tidying(disk, c))
      ensures disk.stagePub.Keys == old(disk.stagePub).Keys
      ensures txn.id in disk.stagePub ==> disk.stagePub[txn.id].Keys <= old(disk.stagePub)[txn.id].Keys
      ensures ok && txn.id in disk.stagePub ==> f !in disk.stagePub[txn.id]
    {
      ok := true;
      if txn.id in disk.stagePub && f in disk.stagePub[txn.id] {
        ok := Hook(); // rename
        if !ok { return; }
        PublishOne(disk, c, f);
        disk := disk.(pub := disk.pub[f := disk.stagePub[txn.id][f]],
                      stagePub := disk.stagePub[txn.id := disk.stagePub[txn.id] - {f}]);
        ok := Hook(); // fsync of the folder
      }
    }

    /** Complete, step 3: the public files move into place, the serving bundle last. */
    method Publish(txn: Txn, ghost c: Change) returns (ok: bool, next: Txn)
      requires ValidChange(c) && RedoFrom(disk, c, txn, NewCaInstalled)
      modifies this
      ensures budget <= old(budget) <= budget + 13 && (!ok ==> budget == 0 && old(budget) < 13)
      ensures ok ==> Tidying(disk, c) && disk.txn == Some(next) && disk.temps == old(disk.temps)
      ensures Redo(disk, c)
    {
      next := txn;
      InstalledStartsPublishing(disk, c, txn);
      ok := PublishAll(txn, c);
      if !ok { return; }
      if txn.id in disk.stagePub { NoneAtAll(disk.stagePub[txn.id]); }
      ghost var d := disk;
      JournalPublished(d, c, txn);
      ok, next := Advance(txn, LeafInstalled);
      Either(d, disk, c, next);
    }

    method PublishAll(txn: Txn, ghost c: Change) returns (ok: bool)
      requires ValidChange(c) && disk.txn == Some(txn) && (Publishing(disk, c) || Tidying(disk, c))
      modifies this
      ensures budget <= old(budget) <= budget + 8 && (!ok ==> budget == 0 && old(budget) < 8)
      ensures disk.txn == Some(txn) && disk.temps == old(disk.temps) && (Publishing(disk, c) || Tidying(disk, c))
      ensures ok && txn.id in disk.stagePub ==> NoneOf([CaCrt, MetaJson, LeafCrt, LeafPem], disk.stagePub[txn.id])
    {
      ok := true;
      var files := [CaCrt, MetaJson, LeafCrt, LeafPem];
      for k := 0 to 4
        invariant disk.txn == Some(txn) && disk.temps == old(disk.temps)
        invariant Publishing(disk, c) || Tidying(disk, c)
        invariant txn.id in disk.stagePub ==> NoneOf(files[..k], disk.stagePub[txn.id])
        invariant budget <= old(budget) <= budget + 2 * k
      {
        if txn.id in disk.stagePub { NextInOrder(files, k, disk.stagePub[txn.id]); }
        ok := PublishFile(txn, files[k], c);
        if !ok { return; }
        assert files[..k + 1] == files[..k] + [files[k]];
      }
      assert files[..4] == files;
    }

    method RemoveLeftovers(txn: Txn, ghost c: Change) returns (ok: bool)
      requires ValidChange(c) && Tidying(disk, c) && disk.txn == Some(txn)
      modifies this
      ensures budget <= old(budget) <= budget + 6 && (!ok ==> budget == 0 && old(budget) < 6)
      ensures ok ==> Tidying(disk, c) && Tidy(disk, c) && disk.txn == Some(txn) && disk.temps == old(disk.temps)
      ensures !ok ==> Tidying(disk, c)
    {
      ok := true;
      ghost var d := disk;
      if txn.restoreFrom.Some? {
        ok := RemoveBackup(txn.restoreFrom.value);
        BackupGoing(d, disk.backups, c);
        if !ok { return; }
      }
      d := disk;
      ok := RemoveStageCa(txn.id);
      StageCaGoing(d, disk.stageCa, c);
      if !ok { return; }
      d := disk;
      ok := RemoveStagePub(txn.id);
      StagePubGoing(d, disk.stagePub, c);
    }

    /** Complete, step 4: the restored backup, the stage and the journal go. */
    method Finish(txn: Txn, ghost c: Change) returns (ok: bool)
      requires ValidChange(c) && Tidying(disk, c) && disk.txn == Some(txn)
      modifies this
      ensures budget <= old(budget) <= budget + 12 && (!ok ==> budget == 0 && old(budget) < 12)
      ensures ok ==> Finished(disk, c) && disk.temps == old(disk.temps)
      ensures !ok ==> Redo(disk, c)
    {
      ok := RemoveLeftovers(txn, c);
      if !ok { return; }
      ghost var d := disk;
      JournalCommitted(d, c, txn);
      var next;
      ok, next := Advance(txn, Committed);
      Either(d, disk, c, next);
      if !ok { return; }
      ok := Hook(); // remove the journal
      if !ok { return; }
      TidyIsFinished(disk, c);
      disk := disk.(txn := None);
    }

    /** Finishes a validated transaction from whatever is on disk; every step is safe to repeat. */
    method Complete(start: Txn, ghost c: Change) returns (outcome: Outcome)
      requires ValidChange(c) && disk.txn == Some(start) && (Ready(disk, c) || Redo(disk, c))
      modifies this
      ensures budget <= old(budget) <= budget + 39 && (outcome == Crashed ==> budget == 0 && old(budget) < 39)
      ensures outcome == Done || outcome == Crashed
      ensures outcome == Done ==> Finished(disk, c) && disk.temps == old(disk.temps)
      ensures outcome == Crashed ==> (Ready(disk, c) && !old(Redo(disk, c))) || Redo(disk, c)
    {
      var ok, txn := MoveActive(start, c);
      if !ok { return Crashed; }
      outcome, txn := InstallCa(txn, c);
      if outcome != Done { return; }
      ok, txn := Publish(txn, c);
      if !ok { return Crashed; }
      ok := Finish(txn, c);
      outcome := if ok then Done else Crashed;
    }

    /** The staging callback: folders, CA files, public files; it may throw after any step. */
    method Stage(c: Change, throwsAt: nat) returns (outcome: Outcome)
      requires ValidChange(c) && Untouched(disk, c) && disk.txn == Some(TxnOf(c, Staged))
      requires disk.stageCa == map[] && disk.stagePub == map[]
      modifies this
      ensures budget <= old(budget) <= budget + 8 && (outcome == Crashed ==> budget == 0 && old(budget) < 8)
      ensures outcome != Conflict && Untouched(disk, c) && OwnStages(disk, c) && disk.txn == Some(TxnOf(c, Staged))
      ensures outcome == Done ==> FullStage(disk, c)
      ensures outcome != Crashed ==> (outcome == Failed <==> throwsAt <= 8)
      ensures disk.temps == old(disk.temps)
    {
      var files := [CaCrt, MetaJson, LeafCrt, LeafPem];
      for k := 0 to 8
        invariant disk == old(disk).(stageCa := disk.stageCa, stagePub := disk.stagePub)
        invariant OwnStages(disk, c)
        invariant k > 1 ==> c.id in disk.stagePub
        invariant k > 3 ==> disk.stageCa == map[c.id := Some(Whole(c.newCa))]
        invariant k > 1
                  ==> forall f :: f in disk.stagePub[c.id] ==> f in c.newPub && disk.stagePub[c.id][f] == c.newPub[f]
        invariant forall j :: 0 <= j < 4 && j + 4 < k ==> files[j] in disk.stagePub[c.id]
        invariant old(budget) == budget + k && k <= throwsAt
      {
        if k == throwsAt { return Failed; }
        var go := Hook();
        if !go { return Crashed; }
        if k == 0 { disk := disk.(stageCa := map[c.id := None]); }
        else if k == 1 { disk := disk.(stagePub := map[c.id := map[]]); }
        else if k == 2 { disk := disk.(stageCa := map[c.id := Some(Damaged)]); }
        else if k == 3 { disk := disk.(stageCa := map[c.id := Some(Whole(c.newCa))]); }
        else {
          var f := files[k - 4];
          disk := disk.(stagePub := disk.stagePub[c.id := disk.stagePub[c.id][f := c.newPub[f]]]);
        }
      }
      if throwsAt == 8 { return Failed; } // the stage did not validate
      assert files[0] == CaCrt && files[1] == MetaJson && files[2] == LeafCrt && files[3] == LeafPem;
      assert disk.stagePub[c.id] == c.newPub;
      outcome := Done;
    }

    /**
     A CA change: journal, stage, validate, then complete. An error before the renames throws the
     stage away; a crash anywhere leaves a folder whose fate is already decided.
     */
    method RunTransaction(now: nat, id: nat, restoreFrom: Option<nat>, newCa: nat, newPub: PubFiles, throwsAt: nat)
      returns (outcome: Outcome, backup: Option<nat>, ghost c: Change)
      requires disk.stageCa == map[] && disk.stagePub == map[] && newPub.Keys == ALL_FILES
      requires disk.ca.Some? ==> disk.ca.value.Whole?
      requires restoreFrom.Some? ==> Holds(disk.backups, restoreFrom.value, newCa)
      modifies this
      ensures budget <= old(budget) <= budget + 57 && (outcome == Crashed ==> budget == 0 && old(budget) < 57)
      ensures outcome != Conflict
      ensures old(disk.txn).Some? ==> outcome == Failed && disk == old(disk)
      ensures old(disk.txn) == None ==> ValidChange(c) && c == Change(old(disk), id, backup, restoreFrom, newCa, newPub)
      ensures old(disk.txn) == None && outcome == Done ==> Finished(disk, c)
      ensures old(disk.txn) == None && outcome == Failed ==> disk.(temps := 0) == Before(c)
      ensures old(disk.txn) == None && outcome == Crashed ==> Undo(disk, c) || (Redo(disk, c) && throwsAt > 8)
      ensures old(disk.txn) == None && outcome != Crashed ==> (outcome == Failed <==> throwsAt <= 8)
    {
      backup := None;
      c := Change(disk, id, None, restoreFrom, newCa, newPub);
      if disk.txn.Some? { return Failed, None, c; }
      if disk.ca.Some? {
        var at := BackupName(now, disk.backups.Keys);
        backup := Some(at);
      }
      var change := Change(disk, id, backup, restoreFrom, newCa, newPub);
      c := change;
      var ok := WriteTxn(TxnOf(change, Staged));
      if !ok { return Crashed, backup, c; }
      outcome := Stage(change, throwsAt);
      if outcome == Crashed { return; }
      if outcome == Failed {
        ok := Discard(TxnOf(change, Staged), c);
        return if ok then Failed else Crashed, backup, c;
      }
      ghost var d := disk;
      ok := WriteTxn(TxnOf(change, Validated));
      StageIsJournalled(d, disk, c);
      if !ok { return Crashed, backup, c; }
      outcome := Complete(TxnOf(change, Validated), c);
    }

    /** Orphan stage folders, once no journal names them. */
    method RemoveStrayStages() returns (ok: bool)
      modifies this
      ensures disk == old(disk).(stageCa := disk.stageCa, stagePub := disk.stagePub)
      ensures disk.stageCa.Keys <= old(disk).stageCa.Keys && disk.stagePub.Keys <= old(disk).stagePub.Keys
      ensures ok ==> disk.stageCa == map[] && disk.stagePub == map[]
      ensures old(disk).stageCa == map[] && old(disk).stagePub == map[] ==> ok
      ensures budget <= old(budget) <= budget + 2 * (|old(disk).stageCa| + |old(disk).stagePub|)
      ensures !ok ==> budget == 0 && old(budget) < 2 * (|old(disk).stageCa| + |old(disk).stagePub|)
    {
      ok := true;
      while disk.stageCa != map[]
        invariant disk == old(disk).(stageCa := disk.stageCa)
        invariant disk.stageCa.Keys <= old(disk).stageCa.Keys && |disk.stageCa| <= |old(disk).stageCa|
        invariant budget <= old(budget) <= budget + 2 * (|old(disk).stageCa| - |disk.stageCa|)
        decreases |disk.stageCa|
      {
        var id :| id in disk.stageCa;
        OneFewer(disk.stageCa, id);
        ok := RemoveStageCa(id);
        if !ok { return; }
      }
      while disk.stagePub != map[]
        invariant disk == old(disk).(stageCa := map[], stagePub := disk.stagePub)
        invariant disk.stagePub.Keys <= old(disk).stagePub.Keys && |disk.stagePub| <= |old(disk).stagePub|
        invariant budget <= old(budget)
        invariant old(budget) <= budget + 2 * (|old(disk).stageCa| + |old(disk).stagePub| - |disk.stagePub|)
        decreases |disk.stagePub|
      {
        var id :| id in disk.stagePub;
        OneFewer(disk.stagePub, id);
        ok := RemoveStagePub(id);
        if !ok { return; }
      }
      ok := true;
    }

    /**
     Every command but `status` runs this first: finish or roll back. The state on disk alone decides
     which, a recovery that crashes never changes the decision, and one that finishes leaves exactly
     the old folder or exactly the new one, with no journal and no stage.
     */
    method Recover(ghost c: Change) returns (outcome: Outcome)
      requires ValidChange(c) && (Undo(disk, c) || Redo(disk, c) || Finished(disk, c))
      modifies this
      ensures budget <= old(budget) <= budget + 39 && (outcome == Crashed ==> budget == 0 && old(budget) < 39)
      ensures outcome == Done || outcome == Crashed
      ensures outcome == Done && old(Undo(disk, c)) ==> disk == Before(c)
      ensures outcome == Done && !old(Undo(disk, c)) ==> disk == After(c)
      ensures outcome == Crashed && old(Undo(disk, c)) ==> Undo(disk, c)
      ensures outcome == Crashed && !old(Undo(disk, c)) ==> Redo(disk, c)
    {
      Fates(disk, c);
      SweptTemps(disk, c);
      disk := disk.(temps := 0); // cleanTemp
      if disk.txn == None {
        outcome := SweepStages(c);
      } else {
        outcome := Resume(disk.txn.value, c);
      }
    }

    /** Without a journal only stages may be left. */
    method SweepStages(ghost c: Change) returns (outcome: Outcome)
      requires ValidChange(c) && disk.txn == None && disk.temps == 0 && (Undo(disk, c) || Finished(disk, c))
      modifies this
      ensures budget <= old(budget) <= budget + 4 && (outcome == Crashed ==> budget == 0 && old(budget) < 4)
      ensures outcome == Done || outcome == Crashed
      ensures outcome == Done ==> disk == if old(Undo(disk, c)) then Before(c) else After(c)
      ensures outcome == Crashed ==> old(Undo(disk, c)) && Undo(disk, c)
    {
      FewStrays(disk, c);
      var ok := RemoveStrayStages();
      outcome := if ok then Done else Crashed;
    }

    /** With one, what it says and what is in place decide. */
    method Resume(txn: Txn, ghost c: Change) returns (outcome: Outcome)
      requires ValidChange(c) && disk.txn == Some(txn) && disk.temps == 0 && (Undo(disk, c) || Redo(disk, c))
      modifies this
      ensures budget <= old(budget) <= budget + 39 && (outcome == Crashed ==> budget == 0 && old(budget) < 39)
      ensures outcome == Done || outcome == Crashed
      ensures outcome == Done ==> disk == if old(Undo(disk, c)) then Before(c) else After(c)
      ensures outcome == Crashed ==> if old(Undo(disk, c)) then Undo(disk, c) else Redo(disk, c)
    {
      Fates(disk, c);
      if txn.step == Staged || (txn.step == Validated && disk.Staged?(txn.id) && disk.ca.Some?) {
        var ok := Discard(txn, c);
        return if ok then Done else Crashed;
      }
      outcome := Complete(txn, c);
    }
  }

  lemma OneFewer<K, V>(m: map<K, V>, k: K)
    requires k in m
    ensures |m - {k}| == |m| - 1
  {
    assert m.Keys == (m - {k}).Keys + {k};
    assert |m.Keys| == |m| && |(m - {k}).Keys| == |m - {k}|;
  }

  /** Without a journal there is at most the stage of the change that was thrown away. */
  lemma FewStrays(d: Disk, c: Change)
    requires ValidChange(c) && d.txn == None && (Undo(d, c) || Redo(d, c) || Finished(d, c))
    ensures |d.stageCa| <= 1 && |d.stagePub| <= 1
  {
    if OwnStages(d, c) {
      AtMostOne(d.stageCa, c.id);
      AtMostOne(d.stagePub, c.id);
    }
  }

  lemma AtMostOne<K, V>(m: map<K, V>, k: K)
    requires m.Keys <= {k}
    ensures |m| <= 1
  {
    if m != map[] { assert m.Keys == {k} && |m.Keys| == |m|; }
  }

  /** Bound to be finished, with this journal, at least this far along. */
  predicate RedoFrom(d: Disk, c: Change, txn: Txn, step: TxnStep)
    requires c.backup.Some? ==> c.before.ca.Some?
  {
    Redo(d, c) && d.txn == Some(txn) && Rank(step) <= Rank(txn.step)
  }

  // ---- small facts about the phases --------------------------------------------------------------

  lemma NotYetMoved(d: Disk, c: Change)
    requires ValidChange(c) && (Ready(d, c) || Redo(d, c)) && d.ca.Some? && d.Staged?(c.id)
    ensures Ready(d, c)
  {
  }

  lemma NotReady(d: Disk, c: Change)
    requires ValidChange(c) && (Ready(d, c) || Redo(d, c))
    requires !(c.backup.Some? && d.ca.Some? && d.Staged?(c.id))
    ensures Redo(d, c)
  {
  }

  /** Whether or not the journal was rewritten before the crash, the change is still bound to finish. */
  lemma Either(d: Disk, e: Disk, c: Change, next: Txn)
    requires c.backup.Some? ==> c.before.ca.Some?
    requires Redo(d, c) && Redo(d.(txn := Some(next)), c)
    requires SameButTemps(e, d) || SameButTemps(e, d.(txn := Some(next)))
    ensures Redo(e, c)
  {
  }

  lemma JournalMoved(d: Disk, c: Change, txn: Txn)
    requires ValidChange(c) && Redo(d, c) && d.txn == Some(txn)
    ensures var next := Advanced(txn, ActiveCaMoved); RedoFrom(d.(txn := Some(next)), c, next, ActiveCaMoved)
  {
  }

  lemma StagedMeansMoved(d: Disk, c: Change, txn: Txn)
    requires ValidChange(c) && RedoFrom(d, c, txn, ActiveCaMoved) && d.Staged?(c.id)
    ensures Moved(d, c)
  {
  }

  lemma UnstagedMeansInstalled(d: Disk, c: Change, txn: Txn)
    requires ValidChange(c) && RedoFrom(d, c, txn, ActiveCaMoved) && !d.Staged?(c.id)
    ensures Installed(d, c) || Publishing(d, c) || Tidying(d, c)
  {
  }

  lemma JournalInstalled(d: Disk, c: Change, txn: Txn)
    requires ValidChange(c) && d.txn == Some(txn) && (Installed(d, c) || Publishing(d, c) || Tidying(d, c))
    ensures var next := Advanced(txn, NewCaInstalled); RedoFrom(d.(txn := Some(next)), c, next, NewCaInstalled)
  {
  }

  lemma InstalledStartsPublishing(d: Disk, c: Change, txn: Txn)
    requires ValidChange(c) && RedoFrom(d, c, txn, NewCaInstalled)
    ensures Publishing(d, c) || Tidying(d, c)
  {
  }

  /** None of these files is staged. */
  predicate NoneOf(files: seq<PubFile>, staged: PubFiles) { forall j :: 0 <= j < |files| ==> files[j] !in staged }

  lemma NoneAtAll(staged: PubFiles)
    requires NoneOf([CaCrt, MetaJson, LeafCrt, LeafPem], staged)
    ensures staged.Keys !! ALL_FILES
  {
    var files := [CaCrt, MetaJson, LeafCrt, LeafPem];
    assert files[0] !in staged && files[1] !in staged && files[2] !in staged && files[3] !in staged;
  }

  lemma NextInOrder(files: seq<PubFile>, k: nat, staged: PubFiles)
    requires files == [CaCrt, MetaJson, LeafCrt, LeafPem] && k < 4 && NoneOf(files[..k], staged)
    ensures ComesNext(files[k], staged)
  {
    assert k > 0 ==> files[..k][0] == CaCrt;
    assert k > 1 ==> files[..k][1] == MetaJson;
    assert k > 2 ==> files[..k][2] == LeafCrt;
  }

  lemma PublishOne(d: Disk, c: Change, f: PubFile)
    requires ValidChange(c) && Publishing(d, c) && f in d.stagePub[c.id] && ComesNext(f, d.stagePub[c.id])
    ensures Publishing(d.(pub := d.pub[f := d.stagePub[c.id][f]],
                          stagePub := d.stagePub[c.id := d.stagePub[c.id] - {f}]), c)
  {
  }

  lemma JournalPublished(d: Disk, c: Change, txn: Txn)
    requires ValidChange(c) && d.txn == Some(txn) && (Publishing(d, c) || Tidying(d, c))
    requires c.id in d.stagePub ==> d.stagePub[c.id].Keys !! ALL_FILES
    ensures Tidying(d.(txn := Some(Advanced(txn, LeafInstalled))), c)
  {
    if Publishing(d, c) {
      forall f: PubFile
        ensures f in ALL_FILES
      {
        match f { case CaCrt => case MetaJson => case LeafCrt => case LeafPem => }
      }
      assert d.stagePub[c.id] == map[];
      assert d.pub == c.before.pub + c.newPub;
    }
  }

  lemma BackupGoing(d: Disk, rest: map<nat, Tree>, c: Change)
    requires ValidChange(c) && Tidying(d, c) && c.restoreFrom.Some?
    requires var r := c.restoreFrom.value;
             rest == d.backups || rest == d.backups - {r} || (r in d.backups && rest == d.backups[r := Damaged])
    ensures Tidying(d.(backups := rest), c)
  {
    assert rest - {c.restoreFrom.value} == d.backups - {c.restoreFrom.value};
  }

  lemma StageCaGoing(d: Disk, rest: map<nat, Option<Tree>>, c: Change)
    requires ValidChange(c) && Tidying(d, c)
    requires rest == d.stageCa - {c.id} || PartOfCa(rest, d.stageCa, c.id)
    ensures Tidying(d.(stageCa := rest), c)
  {
    if d.stageCa == map[] { assert rest == map[]; }
  }

  lemma StagePubGoing(d: Disk, rest: map<nat, PubFiles>, c: Change)
    requires ValidChange(c) && Tidying(d, c)
    requires rest == d.stagePub - {c.id} || PartOfPub(rest, d.stagePub, c.id)
    ensures Tidying(d.(stagePub := rest), c)
  {
    if d.stagePub == map[] { assert rest == map[]; }
    if c.id in rest { assert rest[c.id] == map[]; }
  }

  lemma JournalCommitted(d: Disk, c: Change, txn: Txn)
    requires ValidChange(c) && Tidying(d, c) && Tidy(d, c) && d.txn == Some(txn)
    ensures Tidying(d.(txn := Some(Advanced(txn, Committed))), c)
  {
  }

  lemma TidyIsFinished(d: Disk, c: Change)
    requires ValidChange(c) && Tidying(d, c) && Tidy(d, c)
    ensures Finished(d.(txn := None), c)
  {
    assert Dropped(c, d.backups) == d.backups;
  }

  /** The stage is full and the journal says 'staged' or 'validated'. */
  lemma StageIsJournalled(d: Disk, e: Disk, c: Change)
    requires ValidChange(c) && Untouched(d, c) && FullStage(d, c) && d.txn == Some(TxnOf(c, Staged))
    requires SameButTemps(e, d) || SameButTemps(e, d.(txn := Some(TxnOf(c, Validated))))
    ensures Undo(e, c) || Redo(e, c)
    ensures e.txn == Some(TxnOf(c, Validated)) ==> Ready(e, c) || Redo(e, c)
  {
  }

  /** The three fates are told apart by what is on disk. */
  lemma Fates(d: Disk, c: Change)
    requires ValidChange(c)
    ensures !(Undo(d, c) && Redo(d, c)) && !(Undo(d, c) && Finished(d, c)) && !(Redo(d, c) && Finished(d, c))
  {
    Changes(c);
  }

  /** A change always shows in the CA folder or its backups. */
  lemma Changes(c: Change)
    requires ValidChange(c)
    ensures After(c).ca != c.before.ca || After(c).backups != c.before.backups
  {
    if c.backup.Some? { assert c.backup.value in After(c).backups; }
  }

  lemma SweptTemps(d: Disk, c: Change)
    requires ValidChange(c)
    ensures Undo(d, c) ==> Undo(d.(temps := 0), c)
    ensures Redo(d, c) ==> Redo(d.(temps := 0), c)
    ensures Finished(d, c) ==> d.(temps := 0) == After(c)
  {
  }

  /** What a removal that died half way can leave. */
  predicate PartOfCa(rest: map<nat, Option<Tree>>, whole: map<nat, Option<Tree>>, id: nat) {
    && rest.Keys == whole.Keys
    && (forall i :: i in rest && i != id ==> rest[i] == whole[i])
    && (id in rest && whole[id] == None ==> rest[id] == None)
  }

  predicate PartOfPub(rest: map<nat, PubFiles>, whole: map<nat, PubFiles>, id: nat) {
    && rest.Keys == whole.Keys
    && (forall i :: i in rest && i != id ==> rest[i] == whole[i])
    && (id in rest ==> rest[id].Keys <= whole[id].Keys && forall f :: f in rest[id] ==> rest[id][f] == whole[id][f])
  }
}
