/**
  The checkpoint functions as the source runs them: loops that fill the entry table, copy
  snapshots, walk the anchors backward, stage, commit and collect. Each method is proved to
  compute its function of Checkpoints.dfy, whatever order the sets are visited in.
 */
module CheckpointSessions {
  import opened Prelude
  import opened Checkpoints
  import opened CheckpointTheorems

  datatype Plan = Plan(k: nat, items: map<Path, Action>, createdAfter: set<Path>)

  // Walk back from the newest anchor while the byte budget and the hard cap last.
  method NewestWithinBudget(e: Env, anchors: seq<Anchor>) returns (i: nat)
    requires anchors != []
    ensures LongestSuffix(e, anchors, i)
    ensures i == KeepFrom(e, anchors, |anchors| - 1)
  {
    i := |anchors| - 1;
    var budget := e.units(anchors[i]);
    SuffixUnits(e, anchors, i);
    while i > 0 && |anchors| - i < MAX_ANCHORS_HARD && budget + e.units(anchors[i - 1]) <= COMPACTION_TARGET_BYTES
      invariant Fits(e, anchors, i) && budget == Units(e, anchors[i..])
      invariant KeepFrom(e, anchors, i) == KeepFrom(e, anchors, |anchors| - 1)
    {
      SuffixUnits(e, anchors, i - 1);
      i := i - 1;
      budget := budget + e.units(anchors[i]);
    }
    if i > 0 {
      SuffixUnits(e, anchors, i - 1);
    }
    KeepsLongestSuffix(e, anchors);
  }

  lemma SuffixUnits(e: Env, anchors: seq<Anchor>, i: nat)
    requires i < |anchors|
    ensures Units(e, anchors[i..]) == e.units(anchors[i]) + Units(e, anchors[i + 1..])
    ensures Units(e, anchors[|anchors|..]) == 0
  {
    assert anchors[i..][1..] == anchors[i + 1..];
  }

  class CheckpointSession {
    const e: Env
    var live: Tree
    var snaps: map<Digest, Content>
    var anchors: seq<Anchor>

    constructor (e: Env, live: Tree)
      ensures this.e == e && Value() == Store(live, map[], [])
    {
      this.e := e;
      this.live := live;
      snaps := map[];
      anchors := [];
    }

    function Value(): Store
      reads this
    {
      Store(live, snaps, anchors)
    }

    // The loop over tracked files: one entry each, snapshots copied when first needed.
    method RecordFiles(t: Turn) returns (files: map<Path, Entry>)
      requires Injective(e.digest)
      modifies this`snaps
      ensures files == map p | p in Tracked(old(Value()), t) :: EntryFor(e, old(Value()), t, p)
      ensures snaps == GrownSnaps(e, old(Value()), t)
    {
      ghost var s := Value();
      var todo := Tracked(Value(), t);
      ghost var done: set<Path> := {};
      files := map[];
      while todo != {}
        invariant todo + done == Tracked(s, t) && todo !! done
        invariant files == map p | p in done :: EntryFor(e, s, t, p)
        invariant GrownBy(e, s, t, done, snaps)
        decreases todo
      {
        var p :| p in todo;
        todo := todo - {p};
        var entry := RecordFile(t, p, s, done);
        files := files[p := entry];
        done := done + {p};
      }
      GrownByAll(e, s, t, snaps);
    }

    method RecordFile(t: Turn, p: Path, ghost s: Store, ghost done: set<Path>) returns (entry: Entry)
      requires Injective(e.digest) && live == s.live && anchors == s.anchors
      requires GrownBy(e, s, t, done, snaps)
      modifies this`snaps
      ensures entry == EntryFor(e, s, t, p)
      ensures GrownBy(e, s, t, done + {p}, snaps)
    {
      var prev := LastFiles(anchors);
      if p !in live { return Absent; }
      var f := live[p];
      if |f.content| > MAX_SNAPSHOT_BYTES { return Big; }
      if Reusable(prev, p, f) { return Snap(prev[p].h, prev[p].mtime, prev[p].size, f.mode); }
      var h := e.digest(f.content);
      entry := Snap(h, f.mtime, |f.content|, f.mode);
      if !SameDigest(e, prev, p, f) && h !in snaps {
        if h in t.unwritable { return Big; }
        snaps := snaps[h := f.content];
      }
    }

    method AppendCheckpoint(t: Turn)
      requires Injective(e.digest)
      modifies this
      ensures Value() == Checkpoints.AppendCheckpoint(e, old(Value()), t)
      ensures live == old(live)
    {
      var turn, created := NextTurn(anchors), Created(Value(), t);
      var files := RecordFiles(t);
      if t.lineWritten {
        anchors := anchors + [Anchor(turn, t.historyLength, files, created, t.root)];
        if e.fileBytes(anchors) > COMPACTION_TARGET_BYTES {
          CompactFile(t.rewritten, t.stuck);
        }
      }
    }

    method CompactFile(rewritten: bool, stuck: set<Digest>)
      modifies this`anchors, this`snaps
      ensures Value() == Compact(e, old(Value()), rewritten, stuck)
    {
      if |anchors| <= 1 { return; }
      var k := NewestWithinBudget(e, anchors);
      if k > 0 {
        RewriteAnchors(anchors[k..], rewritten, stuck);
      }
    }

    method RewriteAnchors(kept: seq<Anchor>, rewritten: bool, stuck: set<Digest>)
      modifies this`anchors, this`snaps
      ensures Value() == Rewrite(old(Value()), kept, rewritten, stuck)
    {
      if rewritten {
        anchors := kept;
        GcSnapshots(stuck);
      }
    }

    method GcSnapshots(stuck: set<Digest>)
      modifies this`snaps
      ensures snaps == Gc(old(snaps), anchors, stuck)
    {
      var referenced := NamedSnapshots();
      var names := snaps.Keys;
      while names != {}
        invariant names <= snaps.Keys <= old(snaps).Keys
        invariant forall h :: h in snaps ==> snaps[h] == old(snaps)[h]
        invariant forall h :: h in old(snaps) && h !in snaps ==> h !in referenced && h !in stuck
        invariant forall h :: h in snaps && h !in names ==> h in referenced || h in stuck
        decreases names
      {
        var name :| name in names;
        names := names - {name};
        if name !in referenced && name !in stuck {
          snaps := snaps - {name};
        }
      }
    }

    method NamedSnapshots() returns (referenced: set<Digest>)
      ensures referenced == Referenced(anchors)
    {
      referenced := {};
      for i := 0 to |anchors|
        invariant referenced == Referenced(anchors[..i])
      {
        var files := anchors[i].files;
        referenced := referenced + set p | p in files && files[p].Snap? :: files[p].h;
        ReferencedStep(anchors, i);
      }
      assert anchors[..|anchors|] == anchors;
    }

    // Phase 1, planning: no mutation.
    method FindTurn(turn: nat) returns (k: nat)
      ensures k <= |anchors| && (k == |anchors| <==> !HasTurn(anchors, turn))
      ensures k < |anchors| ==> k == IndexOf(anchors, turn)
    {
      k := 0;
      while k < |anchors| && anchors[k].turn != turn
        invariant k <= |anchors|
        invariant forall j :: 0 <= j < k ==> anchors[j].turn != turn
      {
        k := k + 1;
      }
    }

    method PlanItems(k: nat, w: Rewinding) returns (items: map<Path, Action>)
      requires k < |anchors|
      ensures items == Items(e, Value(), anchors[k], w)
    {
      var a := anchors[k];
      items := map[];
      var todo := a.files.Keys;
      while todo != {}
        invariant todo <= a.files.Keys
        invariant items == map p | p in a.files && p !in todo :: PlanItem(e, Value(), a, w, p)
        decreases todo
      {
        var p :| p in todo;
        todo := todo - {p};
        var act := PlanFile(k, w, p);
        items := items[p := act];
      }
    }

    method PlanFile(k: nat, w: Rewinding, p: Path) returns (act: Action)
      requires k < |anchors| && p in anchors[k].files
      ensures act == PlanItem(e, Value(), anchors[k], w, p)
    {
      var a := anchors[k];
      if !e.inside(a.root, p) {
        act := SkipBoundary;
      } else if a.files[p].Absent? {
        act := if p in live then Delete else Noop(false);
      } else if a.files[p].Snap? {
        if p in live && |live[p].content| <= MAX_SNAPSHOT_BYTES && e.digest(live[p].content) == a.files[p].h {
          act := Noop(false);
        } else {
          act := RestoreSnapshot(a.files[p].h, a.files[p].mode);
        }
      } else if p in w.versions {
        act := RestoreVersion;
      } else {
        act := Noop(p !in live);
      }
    }

    method PlanRewind(turn: nat, w: Rewinding) returns (plan: Option<Plan>)
      ensures plan.Some? <==> HasTurn(anchors, turn)
      ensures plan.Some? ==>
        && plan.value.k == IndexOf(anchors, turn)
        && plan.value.items == Items(e, Value(), anchors[plan.value.k], w)
        && plan.value.createdAfter == CreatedAfter(e, anchors, plan.value.k)
    {
      var k := FindTurn(turn);
      if k == |anchors| { return None; }
      var items := PlanItems(k, w);
      var a, createdAfter := anchors[k], {};
      for i := k + 1 to |anchors|
        invariant createdAfter == CreatedAfter(e, anchors[..i], k)
      {
        createdAfter := createdAfter
          + set p | p in anchors[i].created && p !in a.created && e.inside(a.root, p);
        CreatedAfterStep(e, anchors, i, k);
      }
      assert anchors[..|anchors|] == anchors;
      plan := Some(Plan(k, items, createdAfter));
    }

    // Phase 2, staging: only the private stage directory is written.
    method Stage(items: map<Path, Action>, w: Rewinding) returns (staged: Tree, failed: set<Path>, degraded: set<Path>)
      ensures staged == Staged(Value(), w, items)
      ensures failed == Unstaged(Value(), w, items)
      ensures degraded == set p | p in Degraded(Value(), w, items) && Restores(items[p])
    {
      staged, failed, degraded := map[], {}, {};
      var todo := items.Keys;
      ghost var done: set<Path> := {};
      while todo != {}
        invariant todo + done == items.Keys && todo !! done
        invariant staged == map p | p in Staged(Value(), w, items) && p in done :: Staged(Value(), w, items)[p]
        invariant failed == Unstaged(Value(), w, items) * done
        invariant degraded == set p | p in Degraded(Value(), w, items) && Restores(items[p]) && p in done
        decreases todo
      {
        var p :| p in todo;
        todo := todo - {p};
        if Restores(items[p]) {
          if items[p].RestoreSnapshot? && SnapStages(Value(), w, p, items[p].h) {
            staged := staged[p := LiveFile(snaps[items[p].h], items[p].mode, w.now)];
          } else if VersionStages(w, p) {
            var mode := if items[p].RestoreSnapshot? then items[p].mode else w.versions[p].mode;
            staged := staged[p := LiveFile(w.versions[p].content, mode, w.now)];
            if items[p].RestoreSnapshot? { degraded := degraded + {p}; }
          } else {
            failed := failed + {p};
            if items[p].RestoreVersion? { degraded := degraded + {p}; }
          }
        }
        done := done + {p};
      }
    }

    // Phase 3a: planned deletions.
    method CommitDeletes(items: map<Path, Action>, w: Rewinding) returns (failed: set<Path>, lost: set<Path>)
      requires forall p :: p in items && items[p].Delete? ==> p in live
      modifies this`live
      ensures live == AfterDeletes(old(live), w, items)
      ensures failed == Deletions(items) * w.unlinkFails
      ensures lost == set p | p in items && items[p].Noop? && items[p].lost
    {
      failed, lost := {}, {};
      var todo := items.Keys;
      ghost var done: set<Path> := {};
      while todo != {}
        invariant todo + done == items.Keys && todo !! done
        invariant live == old(live) - (Deletions(items) * done - w.unlinkFails)
        invariant failed == Deletions(items) * w.unlinkFails * done
        invariant lost == set p | p in done && items[p].Noop? && items[p].lost
        decreases todo
      {
        var p :| p in todo;
        todo := todo - {p};
        if items[p].Delete? {
          if p in w.unlinkFails {
            failed := failed + {p};
          } else {
            live := live - {p};
          }
        } else if items[p].Noop? && items[p].lost {
          lost := lost + {p};
        }
        done := done + {p};
      }
    }

    // Phase 3b: each staged payload is copied beside its target and renamed over it.
    method CommitRestores(staged: Tree, w: Rewinding) returns (failed: set<Path>)
      modifies this`live
      ensures live == AfterRestores(old(live), w, staged)
      ensures failed == staged.Keys * w.renameFails
    {
      failed := {};
      var todo := staged.Keys;
      ghost var done: set<Path> := {};
      while todo != {}
        invariant todo + done == staged.Keys && todo !! done
        invariant live == old(live) + map p | p in staged && p in done && p !in w.renameFails :: staged[p]
        invariant failed == staged.Keys * w.renameFails * done
        decreases todo
      {
        var p :| p in todo;
        todo := todo - {p};
        if p in w.renameFails {
          failed := failed + {p};
        } else {
          live := live[p := staged[p]];
        }
        done := done + {p};
      }
    }

    // Phase 3c: files created after the anchor go, best effort.
    method CommitCreatedAfter(created: set<Path>, w: Rewinding)
      modifies this`live
      ensures live == AfterCreated(old(live), w, created)
    {
      var todo := created;
      while todo != {}
        invariant todo <= created
        invariant live == old(live) - (created - todo - w.unlinkFails)
        decreases todo
      {
        var p :| p in todo;
        todo := todo - {p};
        if p in live && p !in w.unlinkFails {
          live := live - {p};
        }
      }
    }

    method RewindToCheckpoint(turn: nat, w: Rewinding) returns (report: Report)
      modifies this
      ensures (Value(), report) == Rewind(e, old(Value()), turn, w)
    {
      var plan := PlanRewind(turn, w);
      if plan.None? || w.noStageDir {
        return Report(false, w.historyLength, {}, {}, 0);
      }
      var Plan(k, items, createdAfter) := plan.value;
      var staged, unstaged, degraded := Stage(items, w);
      var undeleted, lost := CommitDeletes(items, w);
      var unrestored := CommitRestores(staged, w);
      CommitCreatedAfter(createdAfter, w);
      var truncated := |anchors| - (k + 1);
      var historyLength := Min(anchors[k].historyLength, w.historyLength);
      if truncated > 0 {
        RewriteAnchors(anchors[..k + 1], w.rewritten, w.stuck);
        if !w.rewritten { truncated := 0; }
      }
      assert degraded + lost == Degraded(old(Value()), w, items);
      report := Report(true, historyLength, unstaged + undeleted + unrestored, degraded + lost, truncated);
    }
  }

  // snaps is what the store grows to once the files in done have been recorded.
  ghost predicate GrownBy(e: Env, s: Store, t: Turn, done: set<Path>, snaps: map<Digest, Content>) {
    && (forall h :: h in s.snaps ==> h in snaps && snaps[h] == s.snaps[h])
    && (forall p :: p in done && Copies(e, s, t, p) ==>
          e.digest(s.live[p].content) in snaps && snaps[e.digest(s.live[p].content)] == s.live[p].content)
    && (forall h :: h in snaps && h !in s.snaps ==>
          exists p :: p in done && Copies(e, s, t, p) && e.digest(s.live[p].content) == h)
  }

  lemma GrownByAll(e: Env, s: Store, t: Turn, snaps: map<Digest, Content>)
    requires Injective(e.digest) && GrownBy(e, s, t, Tracked(s, t), snaps)
    ensures snaps == GrownSnaps(e, s, t)
  {
    forall h | h in NewDigests(e, s, t) ensures h in snaps && snaps[h] == ContentOf(e, s, t, h) {
      GrownHolds(e, s, t, snaps, h);
    }
    forall h | h in snaps && h !in s.snaps ensures h in NewDigests(e, s, t) {
    }
  }

  lemma GrownHolds(e: Env, s: Store, t: Turn, snaps: map<Digest, Content>, h: Digest)
    requires Injective(e.digest) && GrownBy(e, s, t, Tracked(s, t), snaps) && h in NewDigests(e, s, t)
    ensures h in snaps && snaps[h] == ContentOf(e, s, t, h)
  {
    var p :| p in Tracked(s, t) && Copies(e, s, t, p) && e.digest(s.live[p].content) == h;
    assert e.digest(ContentOf(e, s, t, h)) == e.digest(s.live[p].content);
  }

  lemma ReferencedStep(anchors: seq<Anchor>, i: nat)
    requires i < |anchors|
    ensures Referenced(anchors[..i + 1]) == Referenced(anchors[..i])
      + set p | p in anchors[i].files && anchors[i].files[p].Snap? :: anchors[i].files[p].h
  {
    var a, b := anchors[..i], anchors[..i + 1];
    assert forall j :: 0 <= j < i ==> a[j] == b[j];
    assert b[i] == anchors[i];
    forall h | h in Referenced(a) ensures h in Referenced(b) {
      var j, p :| 0 <= j < |a| && p in a[j].files && a[j].files[p].Snap? && a[j].files[p].h == h;
      assert b[j].files[p].h == h;
    }
    forall p | p in anchors[i].files && anchors[i].files[p].Snap? ensures anchors[i].files[p].h in Referenced(b) {
      assert b[i].files[p].Snap?;
    }
  }

  lemma CreatedAfterStep(e: Env, anchors: seq<Anchor>, i: nat, k: nat)
    requires k < i < |anchors|
    ensures CreatedAfter(e, anchors[..i + 1], k) == CreatedAfter(e, anchors[..i], k)
      + set p | p in anchors[i].created && p !in anchors[k].created && e.inside(anchors[k].root, p)
  {
    var a, b := anchors[..i], anchors[..i + 1];
    assert forall j :: 0 <= j < i ==> a[j] == b[j];
    assert b[i] == anchors[i];
    forall p | p in CreatedLater(a, k) ensures p in CreatedLater(b, k) {
      var j :| k < j < |a| && p in a[j].created && p !in a[k].created;
      assert p in b[j].created;
    }
    forall p | p in anchors[i].created && p !in anchors[k].created ensures p in CreatedLater(b, k) {
      assert p in b[i].created;
    }
  }
}
