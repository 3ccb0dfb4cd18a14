/**
  The atomic file write (atomicWriteSync in src/core/atomicWrite.ts) against a crash model:
  inodes keep what was written to them only once synced, and a directory that is never synced may
  come back from a crash with any of its past entries.
 */
module AtomicWrites {
  import opened Prelude

  type Name = string
  type Ino = nat

  datatype File = File(data: seq<bv8>, mode: nat)

  // dirs holds every state of the directory, the current one last.
  datatype World = World(inodes: map<Ino, File>, synced: set<Ino>, dirs: seq<map<Name, Ino>>)

  ghost predicate WellFormed(w: World) {
    && w.dirs != []
    && w.synced <= w.inodes.Keys
    && forall i, n :: 0 <= i < |w.dirs| && n in w.dirs[i] ==> w.dirs[i][n] in w.inodes
  }

  function Dir(w: World): map<Name, Ino>
    requires w.dirs != []
  {
    w.dirs[|w.dirs| - 1]
  }

  // What a running process sees at a name.
  ghost function Lookup(w: World, n: Name): Option<File>
    requires WellFormed(w)
  {
    if n in Dir(w) then Some(w.inodes[Dir(w)[n]]) else None
  }

  // One way the i-th directory state may answer for a name after a crash.
  ghost predicate MayRead(w: World, i: int, n: Name, found: Option<File>)
    requires WellFormed(w) && 0 <= i < |w.dirs|
  {
    match found
    case None => n !in w.dirs[i]
    case Some(file) => n in w.dirs[i] && (w.dirs[i][n] in w.synced ==> file == w.inodes[w.dirs[i][n]])
  }

  // After a crash, each name answers as some past directory state would, and an inode with
  // unsynced changes holds anything at all.
  ghost predicate Recovers(w: World, after: map<Name, File>)
    requires WellFormed(w)
  {
    forall n: Name :: NameRecovers(w, n, At(after, n))
  }

  ghost predicate NameRecovers(w: World, n: Name, found: Option<File>)
    requires WellFormed(w)
  {
    exists i :: 0 <= i < |w.dirs| && MayRead(w, i, n, found)
  }

  function At(after: map<Name, File>, n: Name): Option<File> {
    if n in after then Some(after[n]) else None
  }

  ghost predicate SurvivesWithin(w: World, target: Name, versions: set<Option<File>>)
    requires WellFormed(w)
  {
    forall after: map<Name, File> :: Recovers(w, after) ==>
      At(after, target) in versions
  }

  // Every directory state the world may fall back to binds the target to a synced version.
  ghost predicate Settled(w: World, target: Name, versions: set<Option<File>>)
    requires WellFormed(w)
  {
    forall i :: 0 <= i < |w.dirs| ==>
      if target in w.dirs[i]
      then w.dirs[i][target] in w.synced && Some(w.inodes[w.dirs[i][target]]) in versions
      else None in versions
  }

  lemma FreshVersion(versions: set<Option<File>>) returns (file: File)
    ensures Some(file) !in versions
  {
    var bound: nat := 0;
    var rest := versions;
    while rest != {}
      invariant rest <= versions
      invariant forall v :: v in versions && v !in rest && v.Some? ==> v.value.mode < bound
      decreases rest
    {
      var v :| v in rest;
      rest := rest - {v};
      if v.Some? && v.value.mode >= bound { bound := v.value.mode + 1; }
    }
    file := File([], bound);
  }

  /**
    A target survives every crash within a finite set of versions if and only if it is settled
    there: publishing an inode before syncing its data and mode can surface any file whatever.
   */
  lemma SurvivalIsSettlement(w: World, target: Name, versions: set<Option<File>>)
    requires WellFormed(w)
    ensures SurvivesWithin(w, target, versions) <==> Settled(w, target, versions)
  {
    if Settled(w, target, versions) {
      forall after: map<Name, File> | Recovers(w, after) ensures At(after, target) in versions {
        assert NameRecovers(w, target, At(after, target));
      }
    }
    if SurvivesWithin(w, target, versions) {
      forall i | 0 <= i < |w.dirs|
        ensures if target in w.dirs[i]
          then w.dirs[i][target] in w.synced && Some(w.inodes[w.dirs[i][target]]) in versions
          else None in versions
      {
        CrashTo(w, target, versions, i);
      }
    }
  }

  // The crash that falls back to the i-th directory state at the target alone.
  lemma CrashTo(w: World, target: Name, versions: set<Option<File>>, i: nat)
    requires WellFormed(w) && i < |w.dirs| && SurvivesWithin(w, target, versions)
    ensures if target in w.dirs[i]
      then w.dirs[i][target] in w.synced && Some(w.inodes[w.dirs[i][target]]) in versions
      else None in versions
  {
    var now: map<Name, File> := map n | n in Dir(w) :: w.inodes[Dir(w)[n]];
    var found: Option<File> := None;
    if target in w.dirs[i] {
      var file := w.inodes[w.dirs[i][target]];
      if w.dirs[i][target] !in w.synced { file := FreshVersion(versions); }
      found := Some(file);
    }
    var after := if found.Some? then now[target := found.value] else now - {target};
    forall n: Name ensures NameRecovers(w, n, At(after, n)) {
      if n == target {
        assert MayRead(w, i, n, found);
      } else {
        assert MayRead(w, |w.dirs| - 1, n, At(after, n));
      }
    }
    assert Recovers(w, after);
  }

  // ---------------------------------------------------------------- system calls

  class Kernel {
    var inodes: map<Ino, File>
    var synced: set<Ino>
    var dirs: seq<map<Name, Ino>>
    var open: set<Ino>
    ghost var past: seq<World>  // every state, so every point at which a crash may come

    ghost function Now(): World
      reads this
    {
      World(inodes, synced, dirs)
    }

    ghost predicate Valid()
      reads this
    {
      WellFormed(Now()) && open <= inodes.Keys
    }

    ghost method Tick()
      modifies this`past
      ensures past == old(past) + [Now()]
    {
      past := past + [Now()];
    }

    method Open(name: Name, umaskMode: nat) returns (fd: Option<Ino>)
      requires Valid() && name !in Dir(Now())
      modifies this
      ensures Valid() && past == old(past) + [Now()]
      ensures fd.None? ==> Now() == old(Now()) && open == old(open)
      ensures fd.Some? ==>
        && fd.value !in old(inodes) && open == old(open) + {fd.value}
        && Now() == World(old(inodes)[fd.value := File([], umaskMode)], old(synced),
                          old(dirs) + [Dir(old(Now()))[name := fd.value]])
    {
      if * {
        fd := None;
      } else {
        var ino := FreshIno();
        fd := Some(ino);
        inodes := inodes[ino := File([], umaskMode)];
        dirs := dirs + [dirs[|dirs| - 1][name := ino]];
        open := open + {ino};
      }
      Tick();
    }

    method FreshIno() returns (ino: Ino)
      ensures ino !in inodes
    {
      var rest := inodes.Keys;
      ino := 0;
      while rest != {}
        invariant rest <= inodes.Keys
        invariant forall i :: i in inodes && i !in rest ==> i < ino
        decreases rest
      {
        var i :| i in rest;
        rest := rest - {i};
        if i >= ino { ino := i + 1; }
      }
    }

    // pwrite: at least one byte of payload[from..], unless it fails.
    method Write(fd: Ino, payload: seq<bv8>, from: nat) returns (n: Option<nat>)
      requires Valid() && fd in inodes && from < |payload| && from <= |inodes[fd].data|
      modifies this
      ensures Valid() && past == old(past) + [Now()] && open == old(open)
      ensures n.None? ==> Now() == old(Now())
      ensures n.Some? ==>
        && 0 < n.value <= |payload| - from
        && Now() == World(old(inodes)[fd := File(old(inodes)[fd].data[..from] + payload[from..from + n.value],
                                                 old(inodes)[fd].mode)],
                          old(synced) - {fd}, old(dirs))
    {
      if * {
        n := None;
      } else {
        var count :| 0 < count <= |payload| - from;
        n := Some(count);
        inodes := inodes[fd := File(inodes[fd].data[..from] + payload[from..from + count], inodes[fd].mode)];
        synced := synced - {fd};
      }
      Tick();
    }

    method Fchmod(fd: Ino, mode: nat) returns (ok: bool)
      requires Valid() && fd in inodes
      modifies this
      ensures Valid() && past == old(past) + [Now()] && open == old(open)
      ensures Now() == if ok
        then World(old(inodes)[fd := old(inodes)[fd].(mode := mode)], old(synced) - {fd}, old(dirs))
        else old(Now())
    {
      ok := false;
      if * {
        ok := true;
        inodes := inodes[fd := inodes[fd].(mode := mode)];
        synced := synced - {fd};
      }
      Tick();
    }

    method Fsync(fd: Ino) returns (ok: bool)
      requires Valid() && fd in inodes
      modifies this
      ensures Valid() && past == old(past) + [Now()] && open == old(open)
      ensures Now() == if ok then World(old(inodes), old(synced) + {fd}, old(dirs)) else old(Now())
    {
      ok := false;
      if * {
        ok := true;
        synced := synced + {fd};
      }
      Tick();
    }

    // Even a close that reports an error releases the descriptor.
    method Close(fd: Ino) returns (ok: bool)
      requires Valid()
      modifies this
      ensures Valid() && past == old(past) + [Now()]
      ensures Now() == old(Now()) && open == old(open) - {fd}
    {
      open := open - {fd};
      ok := *;
      Tick();
    }

    method Rename(source: Name, target: Name) returns (ok: bool)
      requires Valid() && source in Dir(Now())
      modifies this
      ensures Valid() && past == old(past) + [Now()] && open == old(open)
      ensures Now() == if ok
        then old(Now()).(dirs := old(dirs) + [(Dir(old(Now())) - {source})[target := Dir(old(Now()))[source]]])
        else old(Now())
    {
      ok := false;
      if * {
        ok := true;
        var d := dirs[|dirs| - 1];
        dirs := dirs + [(d - {source})[target := d[source]]];
      }
      Tick();
    }

    method Unlink(name: Name) returns (ok: bool)
      requires Valid()
      modifies this
      ensures Valid() && past == old(past) + [Now()] && open == old(open)
      ensures ok ==> name in Dir(old(Now()))
      ensures Now() == if ok then old(Now()).(dirs := old(dirs) + [Dir(old(Now())) - {name}]) else old(Now())
    {
      ok := false;
      var d := dirs[|dirs| - 1];
      if name in d {
        if * {
          ok := true;
          dirs := dirs + [d - {name}];
        }
      }
      Tick();
    }
  }

  // ---------------------------------------------------------------- the write

  // Every state from the n-th on leaves the target settled on these versions.
  ghost predicate AlwaysSettled(past: seq<World>, n: nat, target: Name, versions: set<Option<File>>) {
    forall k :: n <= k < |past| ==> WellFormed(past[k]) && Settled(past[k], target, versions)
  }

  // Apart from the names given, two worlds show the same files.
  ghost predicate SameBut(a: World, b: World, names: set<Name>)
    requires WellFormed(a) && WellFormed(b)
  {
    forall n :: n !in names ==> Lookup(a, n) == Lookup(b, n)
  }

  // The temporary file is open, and nothing else has changed.
  ghost predicate Staging(was: World, now: World, tmp: Name, fd: Ino) {
    && WellFormed(was) && WellFormed(now)
    && fd !in was.inodes && fd in now.inodes
    && now.dirs == was.dirs + [Dir(was)[tmp := fd]]
    && (forall i :: i in was.inodes ==> i in now.inodes && now.inodes[i] == was.inodes[i])
    && now.synced - {fd} == was.synced
  }

  lemma StagingIsSettled(was: World, now: World, tmp: Name, fd: Ino, target: Name, versions: set<Option<File>>)
    requires Staging(was, now, tmp, fd) && Settled(was, target, versions) && target != tmp
    ensures Settled(now, target, versions) && SameBut(was, now, {tmp})
  {
    assert Dir(was) == was.dirs[|was.dirs| - 1];
  }

  // Writes, chmods and syncs the open temporary file.
  method Fill(k: Kernel, fd: Ino, tmp: Name, target: Name, payload: seq<bv8>, mode: Option<nat>,
              ghost was: World, ghost versions: set<Option<File>>, ghost umaskMode: nat)
    returns (ok: bool)
    requires k.Valid() && Staging(was, k.Now(), tmp, fd) && k.inodes[fd] == File([], umaskMode)
    requires Settled(was, target, versions) && target != tmp
    modifies k
    ensures k.Valid() && Staging(was, k.Now(), tmp, fd) && k.open == old(k.open)
    ensures ok ==> fd in k.synced && k.inodes[fd] == File(payload, if mode.Some? then mode.value else umaskMode)
    ensures |old(k.past)| <= |k.past| && k.past[..|old(k.past)|] == old(k.past)
    ensures AlwaysSettled(k.past, |old(k.past)|, target, versions)
  {
    var written := 0;
    while written < |payload|
      invariant written <= |payload| && k.Valid() && Staging(was, k.Now(), tmp, fd) && k.open == old(k.open)
      invariant k.inodes[fd] == File(payload[..written], umaskMode)
      invariant |old(k.past)| <= |k.past| && k.past[..|old(k.past)|] == old(k.past)
      invariant AlwaysSettled(k.past, |old(k.past)|, target, versions)
      decreases |payload| - written
    {
      var n := k.Write(fd, payload, written);
      StagingIsSettled(was, k.Now(), tmp, fd, target, versions);
      if n.None? { return false; }
      assert payload[..written][..written] + payload[written..written + n.value] == payload[..written + n.value];
      written := written + n.value;
    }
    assert payload[..written] == payload;
    if mode.Some? {
      ok := k.Fchmod(fd, mode.value);
      StagingIsSettled(was, k.Now(), tmp, fd, target, versions);
      if !ok { return; }
    }
    ok := k.Fsync(fd);
    StagingIsSettled(was, k.Now(), tmp, fd, target, versions);
  }

  // Closes the descriptor, then renames the temporary file over the target or removes it.
  method Publish(k: Kernel, fd: Ino, tmp: Name, target: Name, filled: bool, ghost next: File,
                 ghost was: World, ghost versions: set<Option<File>>)
    returns (ok: bool, cleaned: bool)
    requires k.Valid() && Staging(was, k.Now(), tmp, fd)
    requires Settled(was, target, versions) && target != tmp && tmp !in Dir(was)
    requires filled ==> fd in k.synced && k.inodes[fd] == next
    modifies k
    ensures k.Valid() && k.open == old(k.open) - {fd}
    ensures |old(k.past)| <= |k.past| && k.past[..|old(k.past)|] == old(k.past)
    ensures AlwaysSettled(k.past, |old(k.past)|, target, versions + {Some(next)})
    ensures Settled(k.Now(), target, versions + {Some(next)})
    ensures ok ==> Lookup(k.Now(), target) == Some(next) && Lookup(k.Now(), tmp) == None
    ensures ok ==> SameBut(was, k.Now(), {target, tmp})
    ensures !ok ==> SameBut(was, k.Now(), if cleaned then {} else {tmp})
  {
    StagingIsSettled(was, k.Now(), tmp, fd, target, versions);
    ok, cleaned := filled, true;
    var closed := k.Close(fd);
    ok := ok && closed;
    if ok {
      ok := k.Rename(tmp, target);
      if ok { RenameIsSettled(was, old(k.Now()), k.Now(), tmp, fd, target, versions, next); }
    }
    if !ok {
      cleaned := Discard(k, fd, tmp, target, next, was, versions);
    }
  }

  // Nothing was published: the temporary name is removed, if it can be.
  method Discard(k: Kernel, fd: Ino, tmp: Name, target: Name, ghost next: File, ghost was: World,
                 ghost versions: set<Option<File>>)
    returns (cleaned: bool)
    requires k.Valid() && Staging(was, k.Now(), tmp, fd)
    requires Settled(was, target, versions) && target != tmp && tmp !in Dir(was)
    modifies k
    ensures k.Valid() && k.open == old(k.open) && k.past == old(k.past) + [k.Now()]
    ensures Settled(k.Now(), target, versions + {Some(next)})
    ensures SameBut(was, k.Now(), if cleaned then {} else {tmp})
  {
    ghost var staged := k.Now();
    cleaned := k.Unlink(tmp);
    if cleaned {
      UnlinkIsSettled(was, staged, k.Now(), tmp, fd, target, versions);
    } else {
      StagingIsSettled(was, k.Now(), tmp, fd, target, versions);
    }
  }

  // Renaming the synced temporary file adds its contents to the versions, and nothing else.
  lemma RenameIsSettled(was: World, staged: World, now: World, tmp: Name, fd: Ino, target: Name,
                        versions: set<Option<File>>, next: File)
    requires Staging(was, staged, tmp, fd) && Settled(was, target, versions) && target != tmp && tmp !in Dir(was)
    requires fd in staged.synced && staged.inodes[fd] == next && WellFormed(now)
    requires now == staged.(dirs := staged.dirs + [(Dir(staged) - {tmp})[target := fd]])
    ensures Settled(now, target, versions + {Some(next)}) && SameBut(was, now, {target, tmp})
    ensures Lookup(now, target) == Some(next) && Lookup(now, tmp) == None
  {
    StagingIsSettled(was, staged, tmp, fd, target, versions);
    assert Dir(was) == was.dirs[|was.dirs| - 1];
  }

  lemma UnlinkIsSettled(was: World, staged: World, now: World, tmp: Name, fd: Ino, target: Name,
                        versions: set<Option<File>>)
    requires Staging(was, staged, tmp, fd) && Settled(was, target, versions) && target != tmp && tmp !in Dir(was)
    requires WellFormed(now) && now == staged.(dirs := staged.dirs + [Dir(staged) - {tmp}])
    ensures Settled(now, target, versions) && SameBut(was, now, {})
  {
    StagingIsSettled(was, staged, tmp, fd, target, versions);
    assert Dir(was) == was.dirs[|was.dirs| - 1];
  }

  // The temporary file's whole life.
  method WriteAside(k: Kernel, target: Name, tmp: Name, payload: seq<bv8>, mode: Option<nat>, umaskMode: nat,
                    ghost next: File, ghost versions: set<Option<File>>)
    returns (ok: bool, cleaned: bool)
    requires k.Valid() && tmp !in Dir(k.Now()) && target != tmp
    requires Settled(k.Now(), target, versions)
    requires next == File(payload, if mode.Some? then mode.value else umaskMode)
    modifies k
    ensures k.Valid() && k.open == old(k.open)
    ensures |old(k.past)| <= |k.past| && k.past[..|old(k.past)|] == old(k.past)
    ensures AlwaysSettled(k.past, |old(k.past)|, target, versions + {Some(next)})
    ensures Settled(k.Now(), target, versions + {Some(next)})
    ensures ok ==> Lookup(k.Now(), target) == Some(next) && Lookup(k.Now(), tmp) == None
    ensures ok ==> SameBut(old(k.Now()), k.Now(), {target, tmp})
    ensures !ok ==> SameBut(old(k.Now()), k.Now(), if cleaned then {} else {tmp})
  {
    ghost var was := k.Now();
    ok, cleaned := false, true;
    var fd := k.Open(tmp, umaskMode);
    if fd.Some? {
      StagingIsSettled(was, k.Now(), tmp, fd.value, target, versions);
      var filled := Fill(k, fd.value, tmp, target, payload, mode, was, versions, umaskMode);
      ok, cleaned := Publish(k, fd.value, tmp, target, filled, next, was, versions);
    }
  }

  /**
    atomicWriteSync from the mode probe on. Whatever fails and whenever a crash comes, the target
    reads as one of the versions it could have read as before, or as the complete new payload
    with the old mode. A failure changes nothing, unless the clean-up unlink fails too, and then
    only the temporary name. No descriptor stays open.
   */
  method AtomicWriteSync(k: Kernel, target: Name, tmp: Name, payload: seq<bv8>, umaskMode: nat,
                         ghost versions: set<Option<File>>)
    returns (ok: bool, cleaned: bool)
    requires k.Valid() && tmp !in Dir(k.Now()) && target != tmp
    requires SurvivesWithin(k.Now(), target, versions)
    modifies k
    ensures k.Valid() && k.open == old(k.open)
    ensures |old(k.past)| <= |k.past| && k.past[..|old(k.past)|] == old(k.past)
    ensures AlwaysSurvives(k.past, |old(k.past)|, target,
                           versions + {Some(Next(old(k.Now()), target, payload, umaskMode))})
    ensures SurvivesWithin(k.Now(), target, versions + {Some(Next(old(k.Now()), target, payload, umaskMode))})
    ensures ok ==>
      && Lookup(k.Now(), target) == Some(Next(old(k.Now()), target, payload, umaskMode))
      && Lookup(k.Now(), tmp) == None
      && SameBut(old(k.Now()), k.Now(), {target, tmp})
    ensures ok && target in Dir(old(k.Now())) ==>
      Lookup(k.Now(), target) == Some(File(payload, old(k.inodes)[Dir(old(k.Now()))[target]].mode))
    ensures !ok ==> SameBut(old(k.Now()), k.Now(), if cleaned then {} else {tmp})
  {
    SurvivalIsSettlement(k.Now(), target, versions);
    ghost var next := Next(k.Now(), target, payload, umaskMode);
    // mkdir, or a stat that fails with something other than ENOENT
    if * {
      SurvivalIsSettlement(k.Now(), target, versions + {Some(next)});
      return false, true;
    }
    var d := k.dirs[|k.dirs| - 1];
    var mode := if target in d then Some(k.inodes[d[target]].mode) else None;
    ok, cleaned := WriteAside(k, target, tmp, payload, mode, umaskMode, next, versions);
    SettledSurvives(k.past, |old(k.past)|, target, versions + {Some(next)});
    SurvivalIsSettlement(k.Now(), target, versions + {Some(next)});
  }

  // What the write is to leave at the target: all of the payload, and the mode that was there.
  ghost function Next(w: World, target: Name, payload: seq<bv8>, umaskMode: nat): (f: File)
    requires WellFormed(w)
    ensures f.data == payload
    ensures target in Dir(w) ==> f.mode == w.inodes[Dir(w)[target]].mode
    ensures target !in Dir(w) ==> f.mode == umaskMode
  {
    File(payload, if Lookup(w, target).Some? then Lookup(w, target).value.mode else umaskMode)
  }

  ghost predicate AlwaysSurvives(past: seq<World>, n: nat, target: Name, versions: set<Option<File>>) {
    forall k :: n <= k < |past| ==> WellFormed(past[k]) && SurvivesWithin(past[k], target, versions)
  }

  lemma SettledSurvives(past: seq<World>, n: nat, target: Name, versions: set<Option<File>>)
    requires AlwaysSettled(past, n, target, versions)
    ensures AlwaysSurvives(past, n, target, versions)
  {
    forall k | n <= k < |past| ensures SurvivesWithin(past[k], target, versions) {
      SurvivalIsSettlement(past[k], target, versions);
    }
  }
}
