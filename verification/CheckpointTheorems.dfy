/** What every run of turns, edits and rewinds keeps, and what a rewind brings back. */
module CheckpointTheorems {
  import opened Prelude
  import opened Checkpoints

  // past[t] is the live tree at the end of turn t.
  ghost predicate EntryMatches(e: Env, snaps: map<Digest, Content>, tree: Tree, p: Path, entry: Entry) {
    match entry
    case Absent => p !in tree
    case Big => p in tree
    case Snap(h, mtime, size, mode) =>
      && h in snaps
      && p in tree
      && e.digest(tree[p].content) == h
      && tree[p] == LiveFile(tree[p].content, mode, mtime)
      && |tree[p].content| == size <= MAX_SNAPSHOT_BYTES
  }

  ghost predicate AnchorMatches(e: Env, snaps: map<Digest, Content>, past: map<nat, Tree>, a: Anchor) {
    && a.turn in past
    && forall p :: p in a.files ==> EntryMatches(e, snaps, past[a.turn], p, a.files[p])
  }

  ghost predicate Increasing(anchors: seq<Anchor>) {
    forall i, j :: 0 <= i < j < |anchors| ==> anchors[i].turn < anchors[j].turn
  }

  // The snapshot holds content with the hash it is named by.
  ghost predicate Sound(e: Env, snaps: map<Digest, Content>, h: Digest) {
    h in snaps && e.digest(snaps[h]) == h
  }

  ghost predicate Addressed(e: Env, snaps: map<Digest, Content>) {
    forall h :: h in snaps ==> Sound(e, snaps, h)
  }

  // Turns increase, every snapshot named exists, and each anchor describes the tree of its turn.
  ghost predicate Inv(e: Env, s: Store, past: map<nat, Tree>) {
    && Increasing(s.anchors)
    && forall i :: 0 <= i < |s.anchors| ==> AnchorMatches(e, s.snaps, past, s.anchors[i])
  }

  // The operating system tells content changed since the last anchor apart by mtime and size.
  ghost predicate Honest(s: Store, past: map<nat, Tree>) {
    s.anchors != [] ==>
      var turn := s.anchors[|s.anchors| - 1].turn;
      turn in past && forall p :: p in s.live && p in past[turn] ==> SameStat(s.live[p], past[turn][p])
  }

  predicate SameStat(f: LiveFile, g: LiveFile) {
    f.mtime == g.mtime && |f.content| == |g.content| ==> f.content == g.content
  }

  // ---------------------------------------------------------------- append keeps the invariant

  // Copies that are completed hold the content they are named by; what was there stays.
  lemma GrownIsAddressed(e: Env, s: Store, t: Turn)
    ensures forall h :: h in s.snaps ==> h in GrownSnaps(e, s, t) && GrownSnaps(e, s, t)[h] == s.snaps[h]
    ensures forall h :: h in GrownSnaps(e, s, t) && h !in s.snaps ==> Sound(e, GrownSnaps(e, s, t), h)
  {
  }

  lemma EntryIsRight(e: Env, s: Store, past: map<nat, Tree>, t: Turn, p: Path)
    requires Inv(e, s, past) && Honest(s, past) && p in Tracked(s, t)
    ensures EntryMatches(e, GrownSnaps(e, s, t), s.live, p, EntryFor(e, s, t, p))
  {
    var prev := LastFiles(s.anchors);
    if p in s.live && p in prev && prev[p].Snap? {
      assert AnchorMatches(e, s.snaps, past, s.anchors[|s.anchors| - 1]);
      assert EntryMatches(e, s.snaps, past[s.anchors[|s.anchors| - 1].turn], p, prev[p]);
    }
    if Copies(e, s, t, p) {
      assert e.digest(s.live[p].content) in NewDigests(e, s, t);
    }
  }

  /**
    An entry goes without a snapshot exactly if the file is oversized, or has content not seen at the
    anchor before, with a digest that is neither in the directory nor can be written.
   */
  lemma BigExactly(e: Env, s: Store, t: Turn, p: Path)
    ensures EntryFor(e, s, t, p).Big? <==>
              && p in s.live
              && var f := s.live[p];
                 || |f.content| > MAX_SNAPSHOT_BYTES
                 || (&& Lookup(e, s, p)
                     && e.digest(f.content) !in s.snaps && e.digest(f.content) in t.unwritable)
  {
  }

  // Every snapshot that an append writes is named by the anchor it is written for.
  lemma AppendWritesWhatItNames(e: Env, s: Store, t: Turn, h: Digest)
    requires h in GrownSnaps(e, s, t) && h !in s.snaps
    ensures h in Referenced([NewAnchor(e, s, t)])
  {
    var p :| p in Tracked(s, t) && Copies(e, s, t, p) && e.digest(s.live[p].content) == h;
    ReferencedHas([NewAnchor(e, s, t)], 0, p);
  }

  lemma AppendKeepsInv(e: Env, s: Store, past: map<nat, Tree>, t: Turn)
    requires Inv(e, s, past) && Honest(s, past)
    ensures Inv(e, Append(e, s, t), if t.lineWritten then past[NextTurn(s.anchors) := s.live] else past)
  {
    GrownIsAddressed(e, s, t);
    var s' := Append(e, s, t);
    var past' := if t.lineWritten then past[NextTurn(s.anchors) := s.live] else past;
    forall i | 0 <= i < |s'.anchors| ensures AnchorMatches(e, s'.snaps, past', s'.anchors[i]) {
      if i < |s.anchors| {
        assert AnchorMatches(e, s.snaps, past, s.anchors[i]);
        assert s.anchors[i].turn < NextTurn(s.anchors);
      } else {
        forall p | p in Tracked(s, t) ensures EntryMatches(e, s'.snaps, s.live, p, EntryFor(e, s, t, p)) {
          EntryIsRight(e, s, past, t, p);
        }
      }
    }
  }

  // A process killed while it copies a snapshot: some copies are whole, one may be torn, and no anchor
  // is written. Which copies were made is said by the digests of t that cannot be written.
  ghost function Killed(e: Env, s: Store, t: Turn, torn: Digest, part: Content): Store {
    var snaps := GrownSnaps(e, s, t);
    Store(s.live, if torn in NewDigests(e, s, t) && torn !in s.snaps then snaps[torn := part] else snaps, s.anchors)
  }

  lemma KilledKeepsInv(e: Env, s: Store, past: map<nat, Tree>, t: Turn, torn: Digest, part: Content)
    requires Inv(e, s, past)
    ensures Inv(e, Killed(e, s, t, torn, part), past)
  {
    GrownIsAddressed(e, s, t);
    var s' := Killed(e, s, t, torn, part);
    forall i | 0 <= i < |s.anchors| ensures AnchorMatches(e, s'.snaps, past, s.anchors[i]) {
      assert AnchorMatches(e, s.snaps, past, s.anchors[i]);
    }
  }

  // ---------------------------------------------------------------- retention

  lemma {:induction false} UnitsOfSuffix(e: Env, anchors: seq<Anchor>, j: nat, k: nat)
    requires j <= k <= |anchors|
    ensures Units(e, anchors[k..]) <= Units(e, anchors[j..])
    decreases k - j
  {
    if j < k {
      UnitsOfSuffix(e, anchors, j + 1, k);
      assert anchors[j..][1..] == anchors[j + 1..];
    }
  }

  /** Compaction keeps exactly the longest suffix of anchors within the byte target. */
  lemma KeepsLongestSuffix(e: Env, anchors: seq<Anchor>)
    requires anchors != []
    ensures Fits(e, anchors, |anchors| - 1)
    ensures LongestSuffix(e, anchors, KeepFrom(e, anchors, |anchors| - 1))
  {
    var r := KeepFrom(e, anchors, |anchors| - 1);
    forall j: nat | j < r ensures !Fits(e, anchors, j) {
      UnitsOfSuffix(e, anchors, j, r - 1);
    }
  }

  lemma ReferencedHas(anchors: seq<Anchor>, i: nat, p: Path)
    requires i < |anchors| && p in anchors[i].files && anchors[i].files[p].Snap?
    ensures anchors[i].files[p].h in Referenced(anchors)
  {
  }

  lemma RewriteKeepsInv(e: Env, s: Store, past: map<nat, Tree>, lo: nat, hi: nat, rewritten: bool, stuck: set<Digest>)
    requires Inv(e, s, past) && lo <= hi <= |s.anchors|
    ensures Inv(e, Rewrite(s, s.anchors[lo..hi], rewritten, stuck), past)
  {
    var kept := s.anchors[lo..hi];
    var s' := Rewrite(s, kept, rewritten, stuck);
    if rewritten {
      forall i | 0 <= i < |kept| ensures AnchorMatches(e, s'.snaps, past, kept[i]) {
        assert AnchorMatches(e, s.snaps, past, s.anchors[lo + i]);
        forall p | p in kept[i].files && kept[i].files[p].Snap? ensures kept[i].files[p].h in s'.snaps {
          ReferencedHas(kept, i, p);
        }
      }
    }
  }

  /**
    A compaction that runs without failures keeps the longest suffix within the target, drops
    every older anchor, and leaves exactly the snapshots that the kept anchors name.
   */
  lemma CompactionIsExact(e: Env, s: Store, past: map<nat, Tree>)
    requires Inv(e, s, past) && |s.anchors| > 1
    requires !Fits(e, s.anchors, 0)
    ensures Fits(e, s.anchors, |s.anchors| - 1)
    ensures var k, s' := KeepFrom(e, s.anchors, |s.anchors| - 1), Compact(e, s, true, {});
      && LongestSuffix(e, s.anchors, k) && s'.anchors == s.anchors[k..]
      && 1 <= |s'.anchors| <= MAX_ANCHORS_HARD
      && s'.snaps.Keys == Referenced(s'.anchors)
      && s'.live == s.live
  {
    var k := CompactedTo(e, s);
    KeptNamesHeld(e, s, past, k);
    GcLeavesReferenced(s.snaps, s.anchors[k..]);
  }

  lemma CompactedTo(e: Env, s: Store) returns (k: nat)
    requires |s.anchors| > 1 && !Fits(e, s.anchors, 0)
    ensures Fits(e, s.anchors, |s.anchors| - 1) && k == KeepFrom(e, s.anchors, |s.anchors| - 1)
    ensures k > 0 && LongestSuffix(e, s.anchors, k) && |s.anchors| - k <= MAX_ANCHORS_HARD
    ensures Compact(e, s, true, {}) == Store(s.live, Gc(s.snaps, s.anchors[k..], {}), s.anchors[k..])
  {
    KeepsLongestSuffix(e, s.anchors);
    k := KeepFrom(e, s.anchors, |s.anchors| - 1);
    CompactIs(e, s, k);
  }

  lemma CompactIs(e: Env, s: Store, k: nat)
    requires |s.anchors| > 1 && Fits(e, s.anchors, |s.anchors| - 1)
    requires 0 < k == KeepFrom(e, s.anchors, |s.anchors| - 1) < |s.anchors|
    ensures Compact(e, s, true, {}) == Store(s.live, Gc(s.snaps, s.anchors[k..], {}), s.anchors[k..])
  {
  }

  lemma KeptNamesHeld(e: Env, s: Store, past: map<nat, Tree>, k: nat)
    requires Inv(e, s, past) && k <= |s.anchors|
    ensures Referenced(s.anchors[k..]) <= s.snaps.Keys
  {
    var kept := s.anchors[k..];
    forall h | h in Referenced(kept) ensures h in s.snaps {
      var i, p :| 0 <= i < |kept| && p in kept[i].files && kept[i].files[p].Snap? && kept[i].files[p].h == h;
      assert AnchorMatches(e, s.snaps, past, s.anchors[k + i]);
    }
  }

  lemma GcLeavesReferenced(snaps: map<Digest, Content>, anchors: seq<Anchor>)
    requires Referenced(anchors) <= snaps.Keys
    ensures Gc(snaps, anchors, {}).Keys == Referenced(anchors)
  {
  }

  lemma CompactKeepsInv(e: Env, s: Store, past: map<nat, Tree>, rewritten: bool, stuck: set<Digest>)
    requires Inv(e, s, past)
    ensures Inv(e, Compact(e, s, rewritten, stuck), past)
  {
    if |s.anchors| > 1 {
      KeepsLongestSuffix(e, s.anchors);
      var k := KeepFrom(e, s.anchors, |s.anchors| - 1);
      assert s.anchors[k..] == s.anchors[k..|s.anchors|];
      RewriteKeepsInv(e, s, past, k, |s.anchors|, rewritten, stuck);
    }
  }

  /**
    What an append keeps: all anchors, unless the file with the new one is over the target and can be
    rewritten, and then the longest suffix within it.
   */
  lemma RetentionExactly(e: Env, s: Store, t: Turn)
    requires t.lineWritten
    ensures var all, kept := s.anchors + [NewAnchor(e, s, t)], AppendCheckpoint(e, s, t).anchors;
            if e.fileBytes(all) > COMPACTION_TARGET_BYTES && t.rewritten
            then |kept| <= |all| && kept == all[|all| - |kept|..] && LongestSuffix(e, all, |all| - |kept|)
            else kept == all
  {
    CompactKeeps(e, Append(e, s, t), t.rewritten, t.stuck);
  }

  lemma CompactKeeps(e: Env, s: Store, rewritten: bool, stuck: set<Digest>)
    requires s.anchors != []
    ensures var all, kept := s.anchors, Compact(e, s, rewritten, stuck).anchors;
            if rewritten
            then |kept| <= |all| && kept == all[|all| - |kept|..] && LongestSuffix(e, all, |all| - |kept|)
            else kept == all
  {
    KeepsLongestSuffix(e, s.anchors);
    var k := KeepFrom(e, s.anchors, |s.anchors| - 1);
    CompactDropsTo(e, s, k, rewritten, stuck);
  }

  lemma CompactDropsTo(e: Env, s: Store, k: nat, rewritten: bool, stuck: set<Digest>)
    requires s.anchors != [] && Fits(e, s.anchors, |s.anchors| - 1)
    requires k == KeepFrom(e, s.anchors, |s.anchors| - 1) < |s.anchors|
    ensures Compact(e, s, rewritten, stuck).anchors == if rewritten then s.anchors[k..] else s.anchors
  {
    assert s.anchors[0..] == s.anchors;
  }

  // ---------------------------------------------------------------- rewind

  lemma IndexIsUnique(anchors: seq<Anchor>, i: nat)
    requires Increasing(anchors) && i < |anchors|
    ensures HasTurn(anchors, anchors[i].turn) && IndexOf(anchors, anchors[i].turn) == i
  {
  }

  lemma RewindKeepsInv(e: Env, s: Store, past: map<nat, Tree>, turn: nat, w: Rewinding)
    requires Inv(e, s, past)
    ensures Inv(e, Rewind(e, s, turn, w).0, past)
  {
    if HasTurn(s.anchors, turn) && !w.noStageDir {
      var k := IndexOf(s.anchors, turn);
      var s1 := s.(live := Commit(e, s, w, k));
      assert s.anchors[..k + 1] == s.anchors[0..k + 1];
      RewriteKeepsInv(e, s1, past, 0, k + 1, w.rewritten, w.stuck);
    }
  }

  /** A rewind that cannot stage, or that names no anchor, changes neither files nor anchors. */
  lemma AbortedRewindChangesNothing(e: Env, s: Store, turn: nat, w: Rewinding)
    ensures !Rewind(e, s, turn, w).1.ok <==> (w.noStageDir || !HasTurn(s.anchors, turn))
    ensures !Rewind(e, s, turn, w).1.ok ==> Rewind(e, s, turn, w).0 == s
  {
  }

  /** After a rewind to turn t that could rewrite the anchors, the next append is turn t + 1. */
  lemma RewindCutsFuture(e: Env, s: Store, past: map<nat, Tree>, turn: nat, w: Rewinding)
    requires Inv(e, s, past) && Rewind(e, s, turn, w).1.ok && w.rewritten
    ensures var s' := Rewind(e, s, turn, w).0;
      && NextTurn(s'.anchors) == turn + 1
      && s'.anchors == s.anchors[..IndexOf(s.anchors, turn) + 1]
      && (forall i :: 0 <= i < |s.anchors| ==> (s.anchors[i] in s'.anchors <==> s.anchors[i].turn <= turn))
  {
    var k := IndexOf(s.anchors, turn);
    var s' := Rewind(e, s, turn, w).0;
    forall i | 0 <= i < |s.anchors| ensures s.anchors[i] in s'.anchors <==> s.anchors[i].turn <= turn {
      if i <= k {
        assert s'.anchors[i] == s.anchors[i];
      }
    }
  }

  // The report counts the anchors dropped, none if the anchor file could not be rewritten.
  lemma TruncatedAreDropped(e: Env, s: Store, turn: nat, w: Rewinding)
    requires Rewind(e, s, turn, w).1.ok
    ensures var (s', report) := Rewind(e, s, turn, w);
            s'.anchors == s.anchors[..|s.anchors| - report.truncated]
  {
  }

  // The content that a digest names can be had: the live file has it, or the snapshot is sound.
  ghost predicate Obtainable(e: Env, s: Store, p: Path, h: Digest) {
    Unchanged(e, s, p, h) || Sound(e, s.snaps, h)
  }

  predicate Unchanged(e: Env, s: Store, p: Path, h: Digest) {
    p in s.live && |s.live[p].content| <= MAX_SNAPSHOT_BYTES && e.digest(s.live[p].content) == h
  }

  // The fate of a path that the rewind reports neither failed nor degraded. An oversized file has no
  // snapshot: it is set back to the version planned for it, or left alone.
  ghost predicate Restored(e: Env, s: Store, w: Rewinding, k: nat, was: Tree, now: Tree, p: Path)
    requires k < |s.anchors| && p in s.anchors[k].files
  {
    match s.anchors[k].files[p]
    case Absent => p !in now
    case Big =>
      if p in w.versions then p in now && now[p].content == w.versions[p].content else SameAt(now, s.live, p)
    case Snap(h, _, _, _) =>
      p in was && p in now && (Obtainable(e, s, p, h) <==> now[p].content == was[p].content)
  }

  predicate Unreported(e: Env, s: Store, w: Rewinding, k: nat, p: Path)
    requires k < |s.anchors|
  {
    p !in Failed(e, s, w, k) && p !in Degraded(s, w, Items(e, s, s.anchors[k], w))
  }

  ghost predicate SameAt(a: Tree, b: Tree, p: Path) {
    (p in a <==> p in b) && (p in a ==> a[p] == b[p])
  }

  // First recorded as created by an anchor after k.
  ghost predicate CameLater(anchors: seq<Anchor>, k: nat, p: Path)
    requires k < |anchors|
  {
    p !in anchors[k].created && exists i :: k < i < |anchors| && p in anchors[i].created
  }

  // The rewind to the anchor at k is to delete it.
  ghost predicate Doomed(e: Env, anchors: seq<Anchor>, k: nat, p: Path)
    requires k < |anchors|
  {
    e.inside(anchors[k].root, p) && CameLater(anchors, k, p)
  }

  ghost predicate Spared(e: Env, s: Store, w: Rewinding, k: nat, p: Path)
    requires k < |s.anchors|
  {
    Doomed(e, s.anchors, k, p) ==> p in w.unlinkFails
  }

  lemma CreatedAfterExactly(e: Env, anchors: seq<Anchor>, k: nat, p: Path)
    requires k < |anchors|
    ensures p in CreatedAfter(e, anchors, k) <==> Doomed(e, anchors, k, p)
  {
    if p in CreatedLater(anchors, k) {
      var i :| k < i < |anchors| && p in anchors[i].created && p !in anchors[k].created;
    }
  }

  lemma CommitAt(e: Env, s: Store, w: Rewinding, k: nat, p: Path)
    requires k < |s.anchors| && p in s.anchors[k].files && Spared(e, s, w, k, p)
    ensures var act := PlanItem(e, s, s.anchors[k], w, p);
      var live := Commit(e, s, w, k);
      if act.Delete? then (p in live <==> p in w.unlinkFails)
      else if Payload(s, w, p, act).Some? && p !in w.renameFails
      then p in live && live[p] == Payload(s, w, p, act).value
      else SameAt(live, s.live, p)
  {
    CreatedAfterExactly(e, s.anchors, k, p);
  }

  lemma RewindsAbsent(e: Env, s: Store, w: Rewinding, k: nat, p: Path)
    requires k < |s.anchors| && p in s.anchors[k].files && s.anchors[k].files[p].Absent?
    requires e.inside(s.anchors[k].root, p) && Spared(e, s, w, k, p)
    requires Unreported(e, s, w, k, p)
    ensures p !in Commit(e, s, w, k)
  {
    CommitAt(e, s, w, k, p);
  }

  lemma RewindsBig(e: Env, s: Store, w: Rewinding, k: nat, p: Path)
    requires k < |s.anchors| && p in s.anchors[k].files && s.anchors[k].files[p].Big?
    requires e.inside(s.anchors[k].root, p) && Spared(e, s, w, k, p)
    requires Unreported(e, s, w, k, p)
    ensures var now := Commit(e, s, w, k);
            if p in w.versions then p in now && now[p].content == w.versions[p].content else SameAt(now, s.live, p)
  {
    CommitAt(e, s, w, k, p);
  }

  lemma RewindsSnapshot(e: Env, s: Store, tree: Tree, w: Rewinding, k: nat, p: Path)
    requires k < |s.anchors| && p in s.anchors[k].files && s.anchors[k].files[p].Snap? && Injective(e.digest)
    requires EntryMatches(e, s.snaps, tree, p, s.anchors[k].files[p])
    requires e.inside(s.anchors[k].root, p) && Spared(e, s, w, k, p)
    requires Unreported(e, s, w, k, p)
    ensures var now := Commit(e, s, w, k);
            && p in tree && p in now
            && (Obtainable(e, s, p, s.anchors[k].files[p].h) <==> now[p].content == tree[p].content)
  {
    CommitAt(e, s, w, k, p);
  }

  /**
    One path of a rewind to the anchor at k, with any failures. Inside the workspace, not created
    after the anchor and reported neither failed nor degraded: it is gone if it was absent; an
    oversized one has its planned version; and one with a snapshot has its anchor-time content if
    and only if that can be had. What failed, or lies outside, is as it was.
   */
  lemma RewindsPath(e: Env, s: Store, past: map<nat, Tree>, w: Rewinding, k: nat, p: Path)
    requires Inv(e, s, past) && Injective(e.digest) && k < |s.anchors|
    requires p in s.anchors[k].files && Spared(e, s, w, k, p)
    ensures e.inside(s.anchors[k].root, p) && Unreported(e, s, w, k, p) ==>
              Restored(e, s, w, k, past[s.anchors[k].turn], Commit(e, s, w, k), p)
    ensures p in Failed(e, s, w, k) || !e.inside(s.anchors[k].root, p) ==> SameAt(Commit(e, s, w, k), s.live, p)
  {
    var tree := TreeOf(e, s, past, k, p);
    if e.inside(s.anchors[k].root, p) && Unreported(e, s, w, k, p) {
      match s.anchors[k].files[p]
      case Absent => RewindsAbsent(e, s, w, k, p);
      case Big => RewindsBig(e, s, w, k, p);
      case Snap(_, _, _, _) => RewindsSnapshot(e, s, tree, w, k, p);
    }
    RewindLeavesFailed(e, s, w, k, p);
  }

  lemma TreeOf(e: Env, s: Store, past: map<nat, Tree>, k: nat, p: Path) returns (tree: Tree)
    requires Inv(e, s, past) && k < |s.anchors| && p in s.anchors[k].files
    ensures s.anchors[k].turn in past && tree == past[s.anchors[k].turn]
    ensures EntryMatches(e, s.snaps, tree, p, s.anchors[k].files[p])
  {
    assert AnchorMatches(e, s.snaps, past, s.anchors[k]);
    tree := past[s.anchors[k].turn];
  }

  lemma RewindLeavesFailed(e: Env, s: Store, w: Rewinding, k: nat, p: Path)
    requires k < |s.anchors|
    requires p in s.anchors[k].files && Spared(e, s, w, k, p)
    ensures p in Failed(e, s, w, k) || !e.inside(s.anchors[k].root, p) ==> SameAt(Commit(e, s, w, k), s.live, p)
  {
    CommitAt(e, s, w, k, p);
  }

  // A path reported degraded but not failed has the version that stands in for its snapshot.
  lemma FallsBack(e: Env, s: Store, w: Rewinding, k: nat, p: Path)
    requires k < |s.anchors| && p in s.anchors[k].files && s.anchors[k].files[p].Snap? && Spared(e, s, w, k, p)
    requires p in Degraded(s, w, Items(e, s, s.anchors[k], w)) && p !in Failed(e, s, w, k)
    ensures p in w.versions && p in Commit(e, s, w, k)
    ensures Commit(e, s, w, k)[p] == LiveFile(w.versions[p].content, s.anchors[k].files[p].mode, w.now)
  {
    CommitAt(e, s, w, k, p);
  }

  // A file that was there, and is not after the rewind although it was not to be deleted, is reported.
  lemma LossIsReported(e: Env, s: Store, past: map<nat, Tree>, w: Rewinding, k: nat, p: Path)
    requires Inv(e, s, past) && Injective(e.digest) && k < |s.anchors| && p in s.anchors[k].files
    requires e.inside(s.anchors[k].root, p) && Spared(e, s, w, k, p)
    requires !s.anchors[k].files[p].Absent? && p !in Commit(e, s, w, k)
    ensures !Unreported(e, s, w, k, p)
  {
    RewindsPath(e, s, past, w, k, p);
    if s.anchors[k].files[p].Big? {
      CommitAt(e, s, w, k, p);
    }
  }

  // Where the report falls short: a file created after the anchor stays exactly if its unlink fails,
  // and unless it is an anchored file too the report does not say so.
  lemma LeftoverIsUnreported(e: Env, s: Store, w: Rewinding, k: nat, p: Path)
    requires k < |s.anchors| && Doomed(e, s.anchors, k, p) && p !in s.anchors[k].files
    ensures p in Commit(e, s, w, k) <==> p in s.live && p in w.unlinkFails
    ensures Unreported(e, s, w, k, p)
  {
    CreatedAfterExactly(e, s.anchors, k, p);
  }

  lemma CommitElsewhere(e: Env, s: Store, w: Rewinding, k: nat, p: Path)
    requires k < |s.anchors|
    ensures Doomed(e, s.anchors, k, p) && p !in w.unlinkFails ==> p !in Commit(e, s, w, k)
    ensures p !in s.anchors[k].files && !Doomed(e, s.anchors, k, p) ==> SameAt(Commit(e, s, w, k), s.live, p)
  {
    CreatedAfterExactly(e, s.anchors, k, p);
  }

  // No foreign call fails.
  predicate Clean(w: Rewinding) {
    && !w.noStageDir && w.rewritten
    && w.unstageable == {} && w.versionLost == {} && w.unlinkFails == {} && w.renameFails == {}
  }

  lemma CleanReportsNothing(e: Env, s: Store, past: map<nat, Tree>, w: Rewinding, k: nat)
    requires Inv(e, s, past) && Clean(w) && k < |s.anchors|
    ensures Failed(e, s, w, k) == {}
    ensures forall p :: p in s.anchors[k].files && !s.anchors[k].files[p].Big? ==>
      p !in Degraded(s, w, Items(e, s, s.anchors[k], w))
  {
    assert AnchorMatches(e, s.snaps, past, s.anchors[k]);
    forall p | p in s.anchors[k].files
      ensures EntryMatches(e, s.snaps, past[s.anchors[k].turn], p, s.anchors[k].files[p])
    {
    }
  }

  // All that a rewind to the anchor at k is to do, with nothing failing. The tree was is its turn's.
  ghost predicate RewoundTo(e: Env, s: Store, w: Rewinding, k: nat, was: Tree, now: Tree)
    requires k < |s.anchors|
  {
    forall p: Path :: RewoundAt(e, s, w, k, was, now, p)
  }

  ghost predicate RewoundAt(e: Env, s: Store, w: Rewinding, k: nat, was: Tree, now: Tree, p: Path)
    requires k < |s.anchors|
  {
    if !e.inside(s.anchors[k].root, p) then SameAt(now, s.live, p)
    else if CameLater(s.anchors, k, p) then p !in now
    else if p !in s.anchors[k].files then SameAt(now, s.live, p)
    else Restored(e, s, w, k, was, now, p)
  }

  lemma RewindsCleanly(e: Env, s: Store, past: map<nat, Tree>, w: Rewinding, k: nat, p: Path)
    requires Inv(e, s, past) && Injective(e.digest) && Clean(w) && k < |s.anchors|
    requires p in s.anchors[k].files && e.inside(s.anchors[k].root, p) && !CameLater(s.anchors, k, p)
    ensures s.anchors[k].turn in past && Restored(e, s, w, k, past[s.anchors[k].turn], Commit(e, s, w, k), p)
  {
    var tree := TreeOf(e, s, past, k, p);
    if s.anchors[k].files[p].Big? {
      CommitAt(e, s, w, k, p);
    } else {
      CleanReportsNothing(e, s, past, w, k);
      RewindsPath(e, s, past, w, k, p);
    }
  }

  lemma RewindsEachPath(e: Env, s: Store, past: map<nat, Tree>, w: Rewinding, k: nat, p: Path)
    requires Inv(e, s, past) && Injective(e.digest) && Clean(w) && k < |s.anchors|
    ensures s.anchors[k].turn in past && RewoundAt(e, s, w, k, past[s.anchors[k].turn], Commit(e, s, w, k), p)
  {
    assert AnchorMatches(e, s.snaps, past, s.anchors[k]);
    if p !in s.anchors[k].files || Doomed(e, s.anchors, k, p) {
      CommitElsewhere(e, s, w, k, p);
    } else if !e.inside(s.anchors[k].root, p) {
      RewindLeavesFailed(e, s, w, k, p);
    } else {
      RewindsCleanly(e, s, past, w, k, p);
    }
  }

  /** The rewind theorem: files, absences, created-after files and everything else, at once. */
  lemma RewindBringsBack(e: Env, s: Store, past: map<nat, Tree>, w: Rewinding, k: nat)
    requires Inv(e, s, past) && Injective(e.digest) && Clean(w) && k < |s.anchors|
    ensures s.anchors[k].turn in past
    ensures var (s', report) := Rewind(e, s, s.anchors[k].turn, w);
      && report.ok && report.failed == {}
      && report.historyLength == Min(s.anchors[k].historyLength, w.historyLength)
      && RewoundTo(e, s, w, k, past[s.anchors[k].turn], s'.live)
  {
    IndexIsUnique(s.anchors, k);
    CleanReportsNothing(e, s, past, w, k);
    assert AnchorMatches(e, s.snaps, past, s.anchors[k]);
    forall p: Path ensures RewoundAt(e, s, w, k, past[s.anchors[k].turn], Commit(e, s, w, k), p) {
      RewindsEachPath(e, s, past, w, k, p);
    }
  }

  /**
    The exact reach of the promise on content: an anchored file comes back if and only if no later
    anchor records it as created, because created-after files are deleted after the restores, and its
    content can be had.
   */
  lemma ContentComesBackExactly(e: Env, s: Store, past: map<nat, Tree>, w: Rewinding, k: nat, p: Path)
    requires Inv(e, s, past) && Injective(e.digest) && Clean(w) && k < |s.anchors|
    requires p in s.anchors[k].files && s.anchors[k].files[p].Snap? && e.inside(s.anchors[k].root, p)
    ensures var was, now := past[s.anchors[k].turn], Rewind(e, s, s.anchors[k].turn, w).0.live;
      && p in was
      && ((p in now && now[p].content == was[p].content) <==>
          !CameLater(s.anchors, k, p) && Obtainable(e, s, p, s.anchors[k].files[p].h))
  {
    RewindBringsBack(e, s, past, w, k);
    var tree := TreeOf(e, s, past, k, p);
    assert RewoundAt(e, s, w, k, tree, Rewind(e, s, s.anchors[k].turn, w).0.live, p);
  }

  /**
    The exact reach of the promise on permissions: the mode comes back if and only if the live file
    does not have the anchor-time content (so that it is restored) or has its mode.
   */
  lemma ModeComesBackExactly(e: Env, s: Store, past: map<nat, Tree>, w: Rewinding, k: nat, p: Path)
    requires Inv(e, s, past) && Injective(e.digest) && Clean(w) && k < |s.anchors|
    requires p in s.anchors[k].files && s.anchors[k].files[p].Snap? && e.inside(s.anchors[k].root, p)
    requires !CameLater(s.anchors, k, p)
    ensures var was, now := past[s.anchors[k].turn], Rewind(e, s, s.anchors[k].turn, w).0.live;
      && p in was && p in now
      && (now[p].mode == was[p].mode <==>
          (p in s.live && s.live[p].content == was[p].content ==> s.live[p].mode == was[p].mode))
  {
    IndexIsUnique(s.anchors, k);
    var tree := TreeOf(e, s, past, k, p);
    ModeAfterCommit(e, s, tree, w, k, p);
  }

  lemma ModeAfterCommit(e: Env, s: Store, tree: Tree, w: Rewinding, k: nat, p: Path)
    requires k < |s.anchors| && p in s.anchors[k].files && s.anchors[k].files[p].Snap? && Injective(e.digest)
    requires EntryMatches(e, s.snaps, tree, p, s.anchors[k].files[p]) && Clean(w)
    requires e.inside(s.anchors[k].root, p) && !Doomed(e, s.anchors, k, p)
    ensures var now := Commit(e, s, w, k);
      && p in now
      && (now[p].mode == tree[p].mode <==>
          (p in s.live && s.live[p].content == tree[p].content ==> s.live[p].mode == tree[p].mode))
  {
    CommitAt(e, s, w, k, p);
  }
}
