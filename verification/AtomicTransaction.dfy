/**
  Multi-file transactions with rollback (src/core/atomicTransaction.ts). A Disk maps paths to
  contents; any copy or atomic write may be the next to fail, renames and unlinks fail only when
  their source is missing.
 */
module AtomicTransactions {
  import opened Prelude

  // A random transaction id; and Backup(id, p) for the name p.txn.<id>.bak beside a file p.
  type TxnId = nat
  datatype Path = File(name: string) | Backup(id: TxnId, of: Path)
  type Content = string
  type Files = map<Path, Content>

  // What the transaction keeps of each path it touches: its backup, or None if it created it.
  type Snapshots = map<Path, Option<Path>>

  datatype Mutation = Mutation(filePath: Path, content: Content)

  datatype TxnResult = TxnResult(ok: bool, mutations: nat, rolledBack: bool)

  // ---------------------------------------------------------------- the batch, as a function

  // The files after the first n mutations, and the paths these name.
  function Apply(files: Files, ms: seq<Mutation>, n: nat): Files
    requires n <= |ms|
  {
    if n == 0 then files else Apply(files, ms, n - 1)[ms[n - 1].filePath := ms[n - 1].content]
  }

  function Targets(ms: seq<Mutation>, n: nat): set<Path>
    requires n <= |ms|
  {
    if n == 0 then {} else Targets(ms, n - 1) + {ms[n - 1].filePath}
  }

  lemma {:induction false} TargetsHave(ms: seq<Mutation>, i: nat, n: nat)
    requires i < n <= |ms|
    ensures ms[i].filePath in Targets(ms, n)
  {
    if i < n - 1 { TargetsHave(ms, i, n - 1); }
  }

  function Paths(ms: seq<Mutation>): set<Path> {
    set i | 0 <= i < |ms| :: ms[i].filePath
  }

  // No later mutation names the same path.
  predicate LastFor(ms: seq<Mutation>, i: nat)
    requires i < |ms|
  {
    forall j :: i < j < |ms| ==> ms[j].filePath != ms[i].filePath
  }

  // What a batch is for: each path it names has the content last given for it, and no other changes.
  ghost predicate Edited(before: Files, after: Files, ms: seq<Mutation>) {
    && (forall i: nat :: i < |ms| && LastFor(ms, i) ==>
          ms[i].filePath in after && after[ms[i].filePath] == ms[i].content)
    && forall p :: p !in Paths(ms) ==> SameAt(after, before, p)
  }

  lemma {:induction false} TargetsArePaths(ms: seq<Mutation>, n: nat)
    requires n <= |ms|
    ensures Targets(ms, n) == set i | 0 <= i < n :: ms[i].filePath
  {
    if n > 0 {
      TargetsArePaths(ms, n - 1);
    }
  }

  lemma {:induction false} AppliedAt(files: Files, ms: seq<Mutation>, n: nat, i: nat)
    requires i < n <= |ms| && forall j :: i < j < n ==> ms[j].filePath != ms[i].filePath
    ensures ms[i].filePath in Apply(files, ms, n) && Apply(files, ms, n)[ms[i].filePath] == ms[i].content
  {
    if i < n - 1 {
      AppliedAt(files, ms, n - 1, i);
    }
  }

  lemma {:induction false} AppliedElsewhere(files: Files, ms: seq<Mutation>, n: nat, p: Path)
    requires n <= |ms| && p !in Targets(ms, n)
    ensures SameAt(Apply(files, ms, n), files, p)
  {
    if n > 0 {
      AppliedElsewhere(files, ms, n - 1, p);
    }
  }

  /** Applying the mutations in order is that edit, paths named more than once included. */
  lemma ApplyEdits(files: Files, ms: seq<Mutation>)
    ensures Edited(files, Apply(files, ms, |ms|), ms) && Targets(ms, |ms|) == Paths(ms)
  {
    TargetsArePaths(ms, |ms|);
    forall i: nat | i < |ms| && LastFor(ms, i)
      ensures ms[i].filePath in Apply(files, ms, |ms|)
      ensures Apply(files, ms, |ms|)[ms[i].filePath] == ms[i].content
    {
      AppliedAt(files, ms, |ms|, i);
    }
    forall p | p !in Paths(ms) ensures SameAt(Apply(files, ms, |ms|), files, p) {
      AppliedElsewhere(files, ms, |ms|, p);
    }
  }

  predicate Reserved(id: TxnId, p: Path) {
    p.Backup? && p.id == id
  }

  // The transaction id occurs in none of these names.
  ghost predicate FreshId(id: TxnId, names: set<Path>) {
    forall p :: p in names ==> !Reserved(id, p)
  }

  predicate SameAt(a: Files, b: Files, p: Path) {
    (p in a <==> p in b) && (p in a ==> a[p] == b[p])
  }

  lemma SameEverywhere(a: Files, b: Files)
    requires forall p :: SameAt(a, b, p)
    ensures a == b
  {
    forall p ensures p in a <==> p in b {
      assert SameAt(a, b, p);
    }
    forall p | p in a ensures a[p] == b[p] {
      assert SameAt(a, b, p);
    }
  }

  // The two trees differ at most in reserved names.
  ghost predicate Agree(id: TxnId, a: Files, b: Files) {
    forall p :: !Reserved(id, p) ==> SameAt(a, b, p)
  }

  // ---------------------------------------------------------------- restoring

  // One restore: unlink a created file, or rename the backup over the target if it is still there.
  function RestoreOne(files: Files, p: Path, backup: Option<Path>): Files {
    match backup
    case None => files - {p}
    case Some(b) => if b in files then (files - {b})[p := files[b]] else files
  }

  function Backups(snaps: Snapshots): set<Path> {
    set p | p in snaps && snaps[p].Some? :: snaps[p].value
  }

  function BackupSet(backup: Option<Path>): set<Path> {
    if backup.Some? then {backup.value} else {}
  }

  lemma BackupsAdd(snaps: Snapshots, p: Path, backup: Option<Path>)
    requires p !in snaps
    ensures Backups(snaps[p := backup]) == Backups(snaps) + BackupSet(backup)
  {
    var more := snaps[p := backup];
    forall b | b in Backups(snaps) ensures b in Backups(more) {
      var q :| q in snaps && snaps[q].Some? && snaps[q].value == b;
      assert more[q] == snaps[q];
    }
    if backup.Some? { assert more[p].Some?; }
  }

  predicate Left(files: Files, snaps: Snapshots, q: Path) {
    if q in snaps then snaps[q].Some? && (snaps[q].value in files || q in files)
    else q in files && q !in Backups(snaps)
  }

  function LeftAt(files: Files, snaps: Snapshots, q: Path): Content
    requires Left(files, snaps, q)
  {
    if q in snaps && snaps[q].value in files then files[snaps[q].value] else files[q]
  }

  // What restoring every snapshot leaves, in whatever order they are restored.
  function RestoreAll(files: Files, snaps: Snapshots): Files {
    map q | q in files.Keys + snaps.Keys && Left(files, snaps, q) :: LeftAt(files, snaps, q)
  }

  // The snapshots of a transaction that began on the files in start.
  ghost predicate WellFormed(id: TxnId, start: Files, snaps: Snapshots) {
    && FreshId(id, start.Keys + snaps.Keys)
    && forall p :: p in snaps ==> snaps[p] == if p in start then Some(Backup(id, p)) else None
  }

  // Only snapshotted paths and their backups may differ from the start.
  ghost predicate OthersSame(start: Files, files: Files, snaps: Snapshots) {
    forall p :: p !in snaps && p !in Backups(snaps) ==> SameAt(files, start, p)
  }

  // The start content of a snapshotted path is in its backup, or else already back in place.
  ghost predicate AllHeld(start: Files, files: Files, snaps: Snapshots) {
    forall p :: p in snaps && snaps[p].Some? ==>
      && p in start
      && if snaps[p].value in files then files[snaps[p].value] == start[p] else SameAt(files, start, p)
  }

  // Every backup is still there.
  ghost predicate BackupsKept(start: Files, files: Files, snaps: Snapshots) {
    forall p :: p in snaps && snaps[p].Some? ==>
      p in start && snaps[p].value in files && files[snaps[p].value] == start[p]
  }

  // Paths and backups never meet, and no two snapshots share a backup.
  lemma Apart(id: TxnId, start: Files, snaps: Snapshots)
    requires WellFormed(id, start, snaps)
    ensures snaps.Keys !! Backups(snaps) && start.Keys !! Backups(snaps)
    ensures forall p, q :: p in snaps && q in snaps && p != q && snaps[p].Some? ==> snaps[p] != snaps[q]
    ensures FreshId(id, snaps.Keys)
    ensures forall b :: b in Backups(snaps) ==> Reserved(id, b)
  {
  }

  /**
    When a rollback brings the start back: if and only if nothing else changed and every
    snapshotted path whose backup is gone already has its start content.
   */
  lemma RollbackExactly(id: TxnId, start: Files, files: Files, snaps: Snapshots)
    requires WellFormed(id, start, snaps)
    ensures RestoreAll(files, snaps) == start <==> AllHeld(start, files, snaps) && OthersSame(start, files, snaps)
  {
    Apart(id, start, snaps);
    var now := RestoreAll(files, snaps);
    if AllHeld(start, files, snaps) && OthersSame(start, files, snaps) {
      forall p ensures SameAt(now, start, p) {
      }
    }
    if now == start {
      forall p ensures SameAt(now, start, p) {
      }
    }
  }

  // Restoring any snapshot, even twice, keeps the rollback possible.
  lemma RestoreOneKeeps(id: TxnId, start: Files, files: Files, snaps: Snapshots, p: Path)
    requires WellFormed(id, start, snaps) && p in snaps
    requires AllHeld(start, files, snaps) && OthersSame(start, files, snaps)
    ensures AllHeld(start, RestoreOne(files, p, snaps[p]), snaps)
    ensures OthersSame(start, RestoreOne(files, p, snaps[p]), snaps)
  {
    Apart(id, start, snaps);
  }

  // It uses up the path's own backup and leaves the others.
  lemma RestoreSpends(id: TxnId, start: Files, files: Files, snaps: Snapshots, p: Path)
    requires WellFormed(id, start, snaps) && p in snaps
    ensures p in start ==> Spent(RestoreOne(files, p, snaps[p]), snaps, p)
    ensures forall q :: Spent(files, snaps, q) ==> Spent(RestoreOne(files, p, snaps[p]), snaps, q)
  {
    Apart(id, start, snaps);
  }

  // It gives the path its start state and touches no other but the backup.
  lemma RestoreReturns(id: TxnId, start: Files, files: Files, snaps: Snapshots, p: Path)
    requires WellFormed(id, start, snaps) && p in snaps && AllHeld(start, files, snaps)
    ensures SameAt(RestoreOne(files, p, snaps[p]), start, p)
    ensures forall q :: q != p && !Reserved(id, q) ==> SameAt(RestoreOne(files, p, snaps[p]), files, q)
  {
    Apart(id, start, snaps);
  }

  function Only(snaps: Snapshots, done: set<Path>): Snapshots {
    map p | p in snaps && p in done :: snaps[p]
  }

  lemma OnlyAdd(id: TxnId, start: Files, snaps: Snapshots, done: set<Path>, p: Path)
    requires WellFormed(id, start, snaps) && p in snaps && p !in done
    ensures Only(snaps, done + {p}) == Only(snaps, done)[p := snaps[p]]
    ensures Backups(Only(snaps, done + {p})) == Backups(Only(snaps, done)) + BackupSet(snaps[p])
    ensures BackupSet(snaps[p]) !! Backups(Only(snaps, done))
  {
    Apart(id, start, snaps);
    BackupsAdd(Only(snaps, done), p, snaps[p]);
  }

  lemma RestoreStep(id: TxnId, start: Files, files: Files, snaps: Snapshots, done: set<Path>, p: Path)
    requires WellFormed(id, start, snaps) && p in snaps && p !in done
    ensures RestoreOne(RestoreAll(files, Only(snaps, done)), p, snaps[p]) == RestoreAll(files, Only(snaps, done + {p}))
    ensures snaps[p].Some? ==> (snaps[p].value in RestoreAll(files, Only(snaps, done)) <==> snaps[p].value in files)
  {
    Apart(id, start, snaps);
    var a, b := Only(snaps, done), Only(snaps, done + {p});
    OnlyAdd(id, start, snaps, done, p);
    var now := RestoreAll(files, a);
    assert SameAt(now, files, p);
    assert snaps[p].Some? ==> SameAt(now, files, snaps[p].value) && snaps[p].value !in b;
    var x, y := RestoreOne(now, p, snaps[p]), RestoreAll(files, b);
    forall q ensures SameAt(x, y, q) {
      if q != p && snaps[p] != Some(q) {
        assert q in Backups(a) <==> q in Backups(b);
        assert SameAt(now, y, q);
      }
    }
    SameEverywhere(x, y);
  }

  // A rollback in progress: everything but todo is restored.
  ghost predicate Undone(before: Files, files: Files, snaps: Snapshots, todo: set<Path>, restored: nat, failures: nat) {
    var done := Only(snaps, snaps.Keys - todo);
    && files == RestoreAll(before, done)
    && restored + failures + |todo| == |snaps|
    && (failures == 0 <==> Backups(done) <= before.Keys)
  }

  lemma UndoneStep(id: TxnId, start: Files, before: Files, files: Files, snaps: Snapshots, todo: set<Path>,
                   restored: nat, failures: nat, p: Path)
    requires WellFormed(id, start, snaps) && todo <= snaps.Keys && p in todo
    requires Undone(before, files, snaps, todo, restored, failures)
    ensures var ok, now := snaps[p].None? || snaps[p].value in files, RestoreOne(files, p, snaps[p]);
            Undone(before, now, snaps, todo - {p},
                   if ok then restored + 1 else restored, if ok then failures else failures + 1)
  {
    var done := snaps.Keys - todo;
    assert snaps.Keys - (todo - {p}) == done + {p};
    RestoreStep(id, start, before, snaps, done, p);
    OnlyAdd(id, start, snaps, done, p);
  }

  // ---------------------------------------------------------------- mutating

  // Taking one more snapshot keeps the handle's invariants.
  lemma SnapshotKeeps(id: TxnId, start: Files, files: Files, snaps: Snapshots, p: Path)
    requires WellFormed(id, start, snaps) && OthersSame(start, files, snaps)
    requires p !in snaps && !Reserved(id, p)
    ensures SameAt(files, start, p)
    ensures var b := Backup(id, p);
      var snaps' := snaps[p := if p in files then Some(b) else None];
      var files' := if p in files then files[b := files[p]] else files;
      && WellFormed(id, start, snaps') && OthersSame(start, files', snaps')
      && (AllHeld(start, files, snaps) ==> AllHeld(start, files', snaps'))
      && (BackupsKept(start, files, snaps) ==> BackupsKept(start, files', snaps'))
      && Agree(id, files', files) && !Spent(files', snaps', p) && SpendsNothing(files, snaps, files', snaps')
  {
    Apart(id, start, snaps);
    var snaps' := snaps[p := if p in start then Some(Backup(id, p)) else None];
    assert WellFormed(id, start, snaps');
    Apart(id, start, snaps');
    BackupsAdd(snaps, p, snaps'[p]);
  }

  // A write to a snapshotted path keeps them, unless the path's backup was used up.
  lemma WriteKeeps(id: TxnId, start: Files, files: Files, snaps: Snapshots, p: Path, content: Content)
    requires WellFormed(id, start, snaps) && OthersSame(start, files, snaps) && p in snaps
    ensures var files' := files[p := content];
      && OthersSame(start, files', snaps)
      && (AllHeld(start, files, snaps) && !Spent(files, snaps, p) ==> AllHeld(start, files', snaps))
      && (BackupsKept(start, files, snaps) ==> BackupsKept(start, files', snaps))
      && SpendsNothing(files, snaps, files', snaps)
  {
    Apart(id, start, snaps);
  }

  // Was the backup of p used up by an earlier restore?
  predicate Spent(files: Files, snaps: Snapshots, p: Path) {
    p in snaps && snaps[p].Some? && snaps[p].value !in files
  }

  // No further backup is used up.
  ghost predicate SpendsNothing(files: Files, snaps: Snapshots, files': Files, snaps': Snapshots) {
    forall q :: Spent(files', snaps', q) ==> Spent(files, snaps, q)
  }

  // A failed batch uses up backups and keeps the snapshots: a path written again on the same handle
  // is beyond rollback, unless it is given its start content.
  lemma SpentWriteIsFinal(id: TxnId, start: Files, files: Files, snaps: Snapshots, p: Path, content: Content)
    requires WellFormed(id, start, snaps) && OthersSame(start, files, snaps) && AllHeld(start, files, snaps)
    requires Spent(files, snaps, p) && p in start
    ensures RestoreAll(files[p := content], snaps) == start <==> content == start[p]
  {
    Apart(id, start, snaps);
    RollbackExactly(id, start, files[p := content], snaps);
  }

  // ---------------------------------------------------------------- the disk

  class Disk {
    var files: Files
    ghost var failures: nat  // copies and writes that have failed so far

    method CopyFile(source: Path, target: Path) returns (ok: bool)
      requires source in files
      modifies this
      ensures failures == old(failures) + if ok then 0 else 1
      ensures files == if ok then old(files)[target := old(files)[source]] else old(files)
    {
      if * {
        files := files[target := files[source]];
        return true;
      }
      failures := failures + 1;
      ok := false;
    }

    // The contract that AtomicWrites proves of the write itself: all of it or nothing.
    method AtomicWrite(path: Path, content: Content) returns (ok: bool)
      modifies this
      ensures failures == old(failures) + if ok then 0 else 1
      ensures files == if ok then old(files)[path := content] else old(files)
    {
      if * {
        files := files[path := content];
        return true;
      }
      failures := failures + 1;
      ok := false;
    }

    method Unlink(path: Path) returns (ok: bool)
      modifies this`files
      ensures ok == (path in old(files)) && files == old(files) - {path}
    {
      ok := path in files;
      files := files - {path};
    }

    method Rename(source: Path, target: Path) returns (ok: bool)
      modifies this`files
      ensures ok == (source in old(files))
      ensures files == if ok then (old(files) - {source})[target := old(files)[source]] else old(files)
    {
      ok := source in files;
      if ok { files := (files - {source})[target := files[source]]; }
    }
  }

  // ---------------------------------------------------------------- the transaction handle

  class AtomicTransaction {
    const id: TxnId
    const disk: Disk
    var snapshots: Snapshots
    var committed: bool
    var rolledBack: bool
    ghost const start: Files  // the files when the transaction began

    constructor (id: TxnId, disk: Disk)
      requires FreshId(id, disk.files.Keys)
      ensures this.disk == disk && this.id == id && start == disk.files
      ensures Valid() && Recoverable() && Unspent() && !Final() && snapshots == map[]
    {
      this.id, this.disk, this.start := id, disk, disk.files;
      snapshots, committed, rolledBack := map[], false, false;
    }

    ghost predicate Valid()
      reads this, disk
    {
      WellFormed(id, start, snapshots) && OthersSame(start, disk.files, snapshots)
    }

    // A rollback from here would restore the start (RollbackExactly).
    ghost predicate Recoverable()
      reads this, disk
    {
      AllHeld(start, disk.files, snapshots)
    }

    ghost predicate Unspent()
      reads this, disk
    {
      BackupsKept(start, disk.files, snapshots)
    }

    predicate Final()
      reads this
    {
      committed || rolledBack
    }

    method TakeSnapshot(p: Path) returns (ok: bool)
      requires Valid() && !Reserved(id, p)
      modifies this`snapshots, disk
      ensures Valid()
      ensures old(Recoverable()) ==> Recoverable()
      ensures old(Unspent()) ==> Unspent()
      ensures !ok ==> snapshots == old(snapshots) && disk.files == old(disk.files)
      ensures ok ==> snapshots.Keys == old(snapshots).Keys + {p}
      ensures SpendsNothing(old(disk.files), old(snapshots), disk.files, snapshots)
      ensures Agree(id, disk.files, old(disk.files))
      ensures old(snapshots).Keys <= snapshots.Keys
      ensures Final() ==> !ok
      ensures !Final() ==> disk.failures == old(disk.failures) + if ok then 0 else 1
    {
      if committed || rolledBack { return false; }
      if p in snapshots { return true; }
      SnapshotKeeps(id, start, disk.files, snapshots, p);
      ok := true;
      if p !in disk.files {
        snapshots := snapshots[p := None];
      } else {
        ok := disk.CopyFile(p, Backup(id, p));
        if ok {
          snapshots := snapshots[p := Some(Backup(id, p))];
        }
      }
    }

    method Mutate(p: Path, content: Content) returns (ok: bool)
      requires Valid() && !Reserved(id, p)
      modifies this`snapshots, disk
      ensures Valid()
      ensures old(Recoverable()) && !Spent(old(disk.files), old(snapshots), p) ==> Recoverable()
      ensures old(Unspent()) ==> Unspent()
      ensures SpendsNothing(old(disk.files), old(snapshots), disk.files, snapshots)
      ensures ok ==> snapshots.Keys == old(snapshots).Keys + {p}
      ensures Agree(id, disk.files, if ok then old(disk.files)[p := content] else old(disk.files))
      ensures old(snapshots).Keys <= snapshots.Keys
      ensures Final() ==> !ok && disk.files == old(disk.files) && snapshots == old(snapshots)
      ensures !Final() ==> disk.failures == old(disk.failures) + if ok then 0 else 1
    {
      var taken := TakeSnapshot(p);
      if !taken { return false; }
      WriteKeeps(id, start, disk.files, snapshots, p, content);
      ok := disk.AtomicWrite(p, content);
    }

    // None of these paths has a backup that was used up.
    ghost predicate NoneSpent(ps: set<Path>)
      reads this, disk
    {
      forall p :: p in ps ==> !Spent(disk.files, snapshots, p)
    }

    // A failed batch leaves the paths of its applied mutations restored, their backups used up.
    ghost predicate AllSpent(ps: set<Path>)
      reads this, disk
    {
      forall p :: p in ps && p in start ==> Spent(disk.files, snapshots, p)
    }

    method MutateAll(ms: seq<Mutation>) returns (ok: bool, ghost applied: nat)
      requires Valid() && Recoverable() && FreshId(id, Targets(ms, |ms|)) && NoneSpent(Targets(ms, |ms|))
      modifies this`snapshots, disk
      ensures Valid() && Recoverable() && applied <= |ms|
      ensures ok && old(Unspent()) ==> Unspent()
      ensures ok ==> snapshots.Keys == old(snapshots).Keys + Targets(ms, |ms|)
      ensures ok ==> Agree(id, disk.files, Apply(old(disk.files), ms, |ms|))
      ensures !ok && !Final() ==> AllSpent(Targets(ms, applied)) && PutBack(old(disk.files), Targets(ms, applied))
      ensures Final() ==> (ok <==> ms == []) && disk.files == old(disk.files)
      ensures !Final() ==> disk.failures == old(disk.failures) + if ok then 0 else 1
    {
      // On a finalised handle the first mutation throws.
      if committed || rolledBack { return ms == [], 0; }
      var done;
      ghost var touched, before, unspent := snapshots.Keys, disk.files, Unspent();
      Starts(ms, touched, before, unspent);
      ok, done := MutateEach(ms, touched, before, unspent);
      applied := done;
      if !ok {
        UndoApplied(ms, done, before);
      }
    }

    // The paths go back to where the transaction began, so the batch is undone exactly if it began there
    // too with every path that it had written.
    lemma FailedBatchUndoesExactly(was: Files, ps: set<Path>)
      requires PutBack(was, ps) && FreshId(id, ps)
      ensures Agree(id, disk.files, was) <==> forall q :: q in ps ==> SameAt(start, was, q)
    {
      forall q | q in ps ensures SameAt(disk.files, was, q) <==> SameAt(start, was, q) {
        assert SameAt(disk.files, start, q);
      }
      if forall q :: q in ps ==> SameAt(start, was, q) {
        forall q | !Reserved(id, q) ensures SameAt(disk.files, was, q) {
          assert SameAt(disk.files, if q in ps then start else was, q);
        }
      }
    }

    // Apply the mutations in order until one fails; applied counts those that did not.
    method MutateEach(ms: seq<Mutation>, ghost touched: set<Path>, ghost before: Files, ghost unspent: bool)
      returns (ok: bool, applied: nat)
      requires FreshId(id, Targets(ms, |ms|)) && Progress(ms, 0, touched, before, unspent)
      modifies this`snapshots, disk
      ensures applied <= |ms|
      ensures ok ==> Progress(ms, |ms|, touched, before, unspent)
      ensures !ok ==> Halted(ms, applied, before)
      ensures disk.failures == old(disk.failures) + if ok then 0 else 1
    {
      applied, ok := 0, true;
      while applied < |ms| && ok
        invariant applied <= |ms| && disk.failures == old(disk.failures) + if ok then 0 else 1
        invariant if ok then Progress(ms, applied, touched, before, unspent) else Halted(ms, applied, before)
        decreases |ms| - applied, ok
      {
        ok := MutateNext(ms, applied, touched, before, unspent);
        if ok { applied := applied + 1; }
      }
    }

    // A mutation failed after n of the batch: those can be undone.
    ghost predicate Halted(ms: seq<Mutation>, n: nat, before: Files)
      requires n <= |ms|
      reads this, disk
    {
      && Valid() && Recoverable() && Targets(ms, n) <= snapshots.Keys
      && Agree(id, disk.files, Apply(before, ms, n))
    }

    // These paths are as when the transaction began, and all others as they were.
    ghost predicate PutBack(was: Files, ps: set<Path>)
      reads this, disk
    {
      forall q :: !Reserved(id, q) ==> SameAt(disk.files, if q in ps then start else was, q)
    }

    // The first n mutations of the batch are applied, and can be undone.
    ghost predicate Progress(ms: seq<Mutation>, n: nat, touched: set<Path>, before: Files, unspent: bool)
      requires n <= |ms|
      reads this, disk
    {
      && Valid() && Recoverable() && !Final() && NoneSpent(Targets(ms, |ms|)) && (unspent ==> Unspent())
      && snapshots.Keys == touched + Targets(ms, n)
      && Agree(id, disk.files, Apply(before, ms, n))
    }

    lemma Starts(ms: seq<Mutation>, touched: set<Path>, before: Files, unspent: bool)
      requires Valid() && Recoverable() && !Final() && NoneSpent(Targets(ms, |ms|)) && unspent == Unspent()
      requires touched == snapshots.Keys && before == disk.files
      ensures Progress(ms, 0, touched, before, unspent)
    {
    }

    method MutateNext(ms: seq<Mutation>, n: nat, ghost touched: set<Path>, ghost before: Files, ghost unspent: bool)
      returns (ok: bool)
      requires n < |ms| && FreshId(id, Targets(ms, |ms|)) && Progress(ms, n, touched, before, unspent)
      modifies this`snapshots, disk
      ensures ok ==> Progress(ms, n + 1, touched, before, unspent)
      ensures !ok ==> Halted(ms, n, before)
      ensures disk.failures == old(disk.failures) + if ok then 0 else 1
    {
      TargetsHave(ms, n, |ms|);
      ok := Mutate(ms[n].filePath, ms[n].content);
    }

    // Restore the applied mutations, newest first; a restore that finds no backup is ignored.
    method UndoApplied(ms: seq<Mutation>, applied: nat, ghost before: Files)
      requires applied <= |ms| && Halted(ms, applied, before)
      modifies disk`files
      ensures Valid() && Recoverable() && AllSpent(Targets(ms, applied)) && PutBack(before, Targets(ms, applied))
    {
      var i := applied;
      ghost var undone: set<Path>, was := {}, Apply(before, ms, applied);
      while i > 0
        invariant 0 <= i <= applied && Undoing(ms, applied, i, undone, was)
      {
        i := i - 1;
        UndoNext(ms, applied, i, undone, was);
        undone := undone + {ms[i].filePath};
      }
      assert undone == Targets(ms, applied);
      UndoneIsBefore(ms, applied, before);
    }

    // Of the mutations applied, those from i on are undone.
    ghost predicate Undoing(ms: seq<Mutation>, applied: nat, i: nat, undone: set<Path>, was: Files)
      requires i <= applied <= |ms|
      reads this, disk
    {
      && Valid() && Recoverable() && Targets(ms, applied) <= snapshots.Keys
      && undone <= Targets(ms, applied) <= Targets(ms, i) + undone
      && AllSpent(undone) && PutBack(was, undone)
    }

    method UndoNext(ms: seq<Mutation>, applied: nat, i: nat, ghost undone: set<Path>, ghost was: Files)
      requires i < applied <= |ms| && Undoing(ms, applied, i + 1, undone, was)
      modifies disk`files
      ensures Undoing(ms, applied, i, undone + {ms[i].filePath}, was)
    {
      TargetsHave(ms, i, applied);
      UndoOne(ms[i].filePath, undone, was);
    }

    lemma UndoneIsBefore(ms: seq<Mutation>, n: nat, before: Files)
      requires n <= |ms| && PutBack(Apply(before, ms, n), Targets(ms, n))
      ensures PutBack(before, Targets(ms, n))
    {
      forall q | !Reserved(id, q) && q !in Targets(ms, n) ensures SameAt(disk.files, before, q) {
        AppliedElsewhere(before, ms, n, q);
        assert SameAt(disk.files, Apply(before, ms, n), q);
      }
    }

    method UndoOne(p: Path, ghost undone: set<Path>, ghost was: Files)
      requires Valid() && Recoverable() && p in snapshots && undone <= snapshots.Keys
      requires AllSpent(undone) && PutBack(was, undone)
      modifies disk`files
      ensures Valid() && Recoverable() && AllSpent(undone + {p}) && PutBack(was, undone + {p})
    {
      RestoreOneKeeps(id, start, disk.files, snapshots, p);
      RestoreSpends(id, start, disk.files, snapshots, p);
      RestoreReturns(id, start, disk.files, snapshots, p);
      var _ := Restore(p, snapshots[p]);
    }

    method Restore(p: Path, backup: Option<Path>) returns (ok: bool)
      modifies disk`files
      ensures disk.files == RestoreOne(old(disk.files), p, backup)
      ensures ok == (backup.None? || backup.value in old(disk.files))
    {
      if backup.None? {
        if p in disk.files { var _ := disk.Unlink(p); }
        ok := true;
      } else {
        ok := disk.Rename(backup.value, p);
      }
    }

    // Unlink every backup, whichever are still there.
    method RemoveBackups() returns (ok: bool)
      requires Valid()
      modifies disk`files
      ensures disk.files == old(disk.files) - Backups(snapshots)
      ensures ok == (Backups(snapshots) <= old(disk.files).Keys)
    {
      var todo := snapshots.Keys;
      ghost var done: set<Path>, gone: set<Path> := {}, {};
      ok := true;
      while todo != {}
        invariant todo + done == snapshots.Keys && todo !! done
        invariant gone == Backups(Only(snapshots, done))
        invariant disk.files == old(disk.files) - gone && ok == (gone <= old(disk.files).Keys)
        decreases todo
      {
        var p :| p in todo;
        todo := todo - {p};
        OnlyAdd(id, start, snapshots, done, p);
        done, gone := done + {p}, gone + BackupSet(snapshots[p]);
        if snapshots[p].Some? {
          var unlinked := disk.Unlink(snapshots[p].value);
          ok := ok && unlinked;
        }
      }
      assert Only(snapshots, done) == snapshots;
    }

    method Commit() returns (r: TxnResult)
      requires Valid()
      modifies this`committed, this`snapshots, disk`files
      ensures committed == (old(committed) || !rolledBack)
      ensures old(Final()) ==> !r.ok && disk.files == old(disk.files) && snapshots == old(snapshots)
      ensures !old(Final()) ==> disk.files == old(disk.files) - Backups(old(snapshots)) && snapshots == map[]
      ensures !old(Final()) ==> r == TxnResult(Backups(old(snapshots)) <= old(disk.files).Keys, |old(snapshots)|, false)
    {
      if committed { return TxnResult(false, 0, false); }
      if rolledBack { return TxnResult(false, 0, true); }
      committed := true;
      var ok := RemoveBackups();
      r := TxnResult(ok, |snapshots|, false);
      snapshots := map[];
    }

    method Rollback() returns (r: TxnResult)
      requires Valid()
      modifies this`rolledBack, this`snapshots, disk`files
      ensures old(committed) ==> !r.ok && disk.files == old(disk.files) && snapshots == old(snapshots)
      ensures !old(committed) ==> rolledBack && r.rolledBack && snapshots == map[]
      ensures !old(committed) ==> disk.files == RestoreAll(old(disk.files), old(snapshots))
      ensures !old(committed) ==> (disk.files == start <==> old(Recoverable()))
      ensures !old(committed) ==> (r.ok <==> Backups(old(snapshots)) <= old(disk.files).Keys)
      ensures r.ok ==> r.mutations == |old(snapshots)|
    {
      if committed { return TxnResult(false, 0, false); }
      rolledBack := true;
      RollbackExactly(id, start, disk.files, snapshots);
      var restored, failures := RestoreEach();
      snapshots := map[];
      r := TxnResult(failures == 0, restored, true);
    }

    method RestoreEach() returns (restored: nat, failures: nat)
      requires Valid()
      modifies disk`files
      ensures disk.files == RestoreAll(old(disk.files), snapshots)
      ensures restored + failures == |snapshots|
      ensures failures == 0 <==> Backups(snapshots) <= old(disk.files).Keys
    {
      restored, failures := 0, 0;
      var todo := snapshots.Keys;
      assert Only(snapshots, snapshots.Keys - todo) == map[];
      assert RestoreAll(disk.files, map[]) == disk.files;
      while todo != {}
        invariant todo <= snapshots.Keys
        invariant Undone(old(disk.files), disk.files, snapshots, todo, restored, failures)
        decreases todo
      {
        var p :| p in todo;
        UndoneStep(id, start, old(disk.files), disk.files, snapshots, todo, restored, failures, p);
        todo := todo - {p};
        var ok := Restore(p, snapshots[p]);
        if ok { restored := restored + 1; } else { failures := failures + 1; }
      }
      assert Only(snapshots, snapshots.Keys - {}) == snapshots;
    }

    // Roll back unless already finalised, in which case only leftover backups go.
    method Abort() returns (r: TxnResult)
      requires Valid()
      modifies this`rolledBack, this`snapshots, disk`files
      ensures snapshots == map[]
      ensures old(Final()) ==> r.ok && disk.files == old(disk.files) - Backups(old(snapshots))
      ensures !old(Final()) ==> r.rolledBack && (disk.files == start <==> old(Recoverable()))
      ensures !old(Final()) ==> (r.ok <==> Backups(old(snapshots)) <= old(disk.files).Keys)
    {
      if rolledBack || committed {
        var _ := RemoveBackups();
        snapshots := map[];
        return TxnResult(true, 0, rolledBack);
      }
      r := Rollback();
    }
  }

  // A batch over f and g that fails at g leaves f spent; writing f again on that handle, the rollback
  // leaves the second content where the first was.
  lemma FailedBatchSpends(id: TxnId, f: string, first: Content, new0: Content, new1: Content)
    requires new1 != first
    ensures var p, b := File(f), Backup(id, File(f));
            var start: Files, snaps: Snapshots := map[p := first], map[p := Some(b)];
            var applied := map[p := new0, b := first];
            var undone := RestoreOne(applied, p, Some(b));
            && WellFormed(id, start, snaps)
            && undone == start && Spent(undone, snaps, p)
            && RestoreAll(undone[p := new1], snaps) == map[p := new1] != start
  {
    var p, b := File(f), Backup(id, File(f));
    var start: Files, snaps: Snapshots := map[p := first], map[p := Some(b)];
    var undone := RestoreOne(map[p := new0, b := first], p, Some(b));
    assert undone == start;
    var now := RestoreAll(undone[p := new1], snaps);
    assert p in now && now[p] == new1;
    assert b !in now;
  }

  // A second batch that writes f again and then fails takes back what the first had written there.
  lemma SecondBatchUndoesFirst(id: TxnId, f: string, first: Content, new0: Content, new1: Content)
    requires new0 != first
    ensures var p, b := File(f), Backup(id, File(f));
            var afterFirst := map[p := new0, b := first];
            RestoreOne(afterFirst[p := new1], p, Some(b)) == map[p := first]
            && !SameAt(map[p := first], afterFirst, p)
  {
    var p, b := File(f), Backup(id, File(f));
    assert map[p := new0, b := first][p := new1] - {b} == map[p := new1];
  }

  /**
    All or nothing: a batch succeeds if and only if none of its copies and writes fails. Then
    each path has the content last given for it; otherwise every file is as before. No backup is
    left either way, and no other file changed.
   */
  method AtomicEdit(id: TxnId, disk: Disk, ms: seq<Mutation>) returns (r: TxnResult)
    requires FreshId(id, disk.files.Keys + Targets(ms, |ms|))
    modifies disk
    ensures r.ok <==> disk.failures == old(disk.failures)
    ensures r.ok ==> Edited(old(disk.files), disk.files, ms) && r == TxnResult(true, |Paths(ms)|, false)
    ensures !r.ok ==> disk.files == old(disk.files) && r == TxnResult(false, 0, true)
  {
    ApplyEdits(disk.files, ms);
    var txn := new AtomicTransaction(id, disk);
    r := EditWith(txn, ms);
  }

  method EditWith(txn: AtomicTransaction, ms: seq<Mutation>) returns (r: TxnResult)
    requires txn.Valid() && txn.Recoverable() && txn.Unspent() && !txn.Final() && txn.snapshots == map[]
    requires txn.start == txn.disk.files && FreshId(txn.id, Targets(ms, |ms|))
    modifies txn, txn.disk
    ensures r.ok <==> txn.disk.failures == old(txn.disk.failures)
    ensures r.ok ==> txn.disk.files == Apply(txn.start, ms, |ms|) && r == TxnResult(true, |Targets(ms, |ms|)|, false)
    ensures !r.ok ==> txn.disk.files == txn.start && r == TxnResult(false, 0, true)
  {
    var done, _ := txn.MutateAll(ms);
    if done {
      r := CommitBatch(txn, ms);
    } else {
      var _ := txn.Rollback();
      r := TxnResult(false, 0, true);
    }
  }

  method CommitBatch(txn: AtomicTransaction, ms: seq<Mutation>) returns (r: TxnResult)
    requires txn.Valid() && txn.Unspent() && !txn.Final()
    requires txn.snapshots.Keys == Targets(ms, |ms|) && FreshId(txn.id, Targets(ms, |ms|))
    requires Agree(txn.id, txn.disk.files, Apply(txn.start, ms, |ms|))
    modifies txn, txn.disk`files
    ensures txn.disk.files == Apply(txn.start, ms, |ms|) && r == TxnResult(true, |Targets(ms, |ms|)|, false)
  {
    Cleaned(txn.id, txn.start, txn.disk.files, txn.snapshots, ms);
    BackupsStay(txn.start, txn.disk.files, txn.snapshots);
    r := txn.Commit();
  }

  lemma BackupsStay(start: Files, files: Files, snaps: Snapshots)
    requires BackupsKept(start, files, snaps)
    ensures Backups(snaps) <= files.Keys
  {
  }

  lemma AppliedKeys(files: Files, ms: seq<Mutation>, n: nat)
    requires n <= |ms|
    ensures Apply(files, ms, n).Keys == files.Keys + Targets(ms, n)
  {
    if n > 0 {
      AppliedKeys(files, ms, n - 1);
    }
  }

  // With the backups gone, what is left of a successful batch is exactly its result.
  lemma Cleaned(id: TxnId, start: Files, files: Files, snaps: Snapshots, ms: seq<Mutation>)
    requires WellFormed(id, start, snaps) && OthersSame(start, files, snaps) && FreshId(id, Targets(ms, |ms|))
    requires Agree(id, files, Apply(start, ms, |ms|))
    ensures files - Backups(snaps) == Apply(start, ms, |ms|)
  {
    Apart(id, start, snaps);
    AppliedKeys(start, ms, |ms|);
    var now, applied := files - Backups(snaps), Apply(start, ms, |ms|);
    forall q ensures SameAt(now, applied, q) {
      if Reserved(id, q) {
        assert q !in applied && q !in snaps;
      }
    }
    SameEverywhere(now, applied);
  }
}
