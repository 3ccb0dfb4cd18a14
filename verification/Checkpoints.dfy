/**
  Turn checkpoints and transactional rewind (src/core/conversationCheckpoints.ts), as functions
  on values. Foreign calls that may fail take their failures from explicit oracles, so that every
  lemma below holds for every choice of failures. CheckpointSession.dfy runs the same steps
  imperatively and is proved to compute these functions.
 */
module Checkpoints {
  import opened Prelude

  type Path = string
  type Content = string
  type Digest = string

  const MAX_SNAPSHOT_BYTES: nat := 8 * 1024 * 1024
  const COMPACTION_TARGET_BYTES: nat := 150 * 1024
  const MAX_ANCHORS_HARD: nat := 500

  // A live file; stat reports its mtime, its mode and the length of its content.
  datatype LiveFile = LiveFile(content: Content, mode: nat, mtime: int)

  type Tree = map<Path, LiveFile>

  // One file of an anchor. Snap(h, ..) names the snapshot "sha256-h".
  datatype Entry =
    | Absent
    | Big
    | Snap(h: Digest, mtime: int, size: nat, mode: nat)

  datatype Anchor = Anchor(turn: nat, historyLength: nat, files: map<Path, Entry>, created: set<Path>, root: string)

  // The live tree, the snapshot directory and the anchors listed by the anchor file.
  datatype Store = Store(live: Tree, snaps: map<Digest, Content>, anchors: seq<Anchor>)

  // What the model leaves opaque: the hash, the workspace test, the serializer.
  datatype Env = Env(
    digest: Content -> Digest,
    inside: (string, Path) -> bool,
    units: Anchor -> nat,
    fileBytes: seq<Anchor> -> nat)

  ghost predicate Injective(digest: Content -> Digest) {
    forall a, b :: digest(a) == digest(b) ==> a == b
  }

  // ---------------------------------------------------------------- append

  datatype FileHistory = FileHistory(edited: set<Path>, created: set<Path>)

  // The end of a turn, with its failures: snapshots that cannot be written, whether the anchor
  // line and the rewritten anchor file can be written, snapshots that cannot be unlinked.
  datatype Turn = Turn(
    historyLength: nat,
    history: Option<FileHistory>,
    root: string,
    unwritable: set<Digest>,
    lineWritten: bool,
    rewritten: bool,
    stuck: set<Digest>)

  function LastFiles(anchors: seq<Anchor>): map<Path, Entry> {
    if anchors == [] then map[] else anchors[|anchors| - 1].files
  }

  function LastCreated(anchors: seq<Anchor>): set<Path> {
    if anchors == [] then {} else anchors[|anchors| - 1].created
  }

  function NextTurn(anchors: seq<Anchor>): nat {
    (if anchors == [] then 0 else anchors[|anchors| - 1].turn) + 1
  }

  function Created(s: Store, t: Turn): set<Path> {
    LastCreated(s.anchors) + if t.history.Some? then t.history.value.created else {}
  }

  function Tracked(s: Store, t: Turn): set<Path> {
    if t.history.Some? then Created(s, t) + t.history.value.edited else {}
  }

  // The mtime+size fast path: the previous digest is reused without hashing.
  predicate Reusable(prev: map<Path, Entry>, p: Path, f: LiveFile) {
    p in prev && prev[p].Snap? && prev[p].mtime == f.mtime && prev[p].size == |f.content|
  }

  predicate SameDigest(e: Env, prev: map<Path, Entry>, p: Path, f: LiveFile) {
    p in prev && prev[p].Snap? && prev[p].h == e.digest(f.content)
  }

  // The file's content must be found in, or copied into, the snapshot directory.
  predicate Lookup(e: Env, s: Store, p: Path) {
    && p in s.live
    && |s.live[p].content| <= MAX_SNAPSHOT_BYTES
    && !Reusable(LastFiles(s.anchors), p, s.live[p])
    && !SameDigest(e, LastFiles(s.anchors), p, s.live[p])
  }

  predicate Copies(e: Env, s: Store, t: Turn, p: Path) {
    && Lookup(e, s, p)
    && e.digest(s.live[p].content) !in s.snaps
    && e.digest(s.live[p].content) !in t.unwritable
  }

  function EntryFor(e: Env, s: Store, t: Turn, p: Path): Entry {
    if p !in s.live then Absent
    else
      var f := s.live[p];
      if |f.content| > MAX_SNAPSHOT_BYTES then Big
      else if Reusable(LastFiles(s.anchors), p, f) then
        Snap(LastFiles(s.anchors)[p].h, f.mtime, |f.content|, f.mode)
      else
        var h := e.digest(f.content);
        if SameDigest(e, LastFiles(s.anchors), p, f) || h in s.snaps || h !in t.unwritable
        then Snap(h, f.mtime, |f.content|, f.mode)
        else Big
  }

  function NewDigests(e: Env, s: Store, t: Turn): set<Digest> {
    set p | p in Tracked(s, t) && Copies(e, s, t, p) :: e.digest(s.live[p].content)
  }

  ghost function ContentOf(e: Env, s: Store, t: Turn, h: Digest): Content
    requires h in NewDigests(e, s, t)
  {
    var p :| p in Tracked(s, t) && Copies(e, s, t, p) && e.digest(s.live[p].content) == h;
    s.live[p].content
  }

  ghost function GrownSnaps(e: Env, s: Store, t: Turn): map<Digest, Content> {
    s.snaps + map h | h in NewDigests(e, s, t) :: ContentOf(e, s, t, h)
  }

  function NewAnchor(e: Env, s: Store, t: Turn): Anchor {
    Anchor(NextTurn(s.anchors), t.historyLength,
           map p | p in Tracked(s, t) :: EntryFor(e, s, t, p), Created(s, t), t.root)
  }

  ghost function Append(e: Env, s: Store, t: Turn): Store {
    Store(s.live, GrownSnaps(e, s, t), s.anchors + if t.lineWritten then [NewAnchor(e, s, t)] else [])
  }

  // ---------------------------------------------------------------- retention

  function Units(e: Env, anchors: seq<Anchor>): nat {
    if anchors == [] then 0 else e.units(anchors[0]) + Units(e, anchors[1..])
  }

  // The suffix from k may be kept: at least one anchor, within the target (one alone always is),
  // at most MAX_ANCHORS_HARD.
  predicate Fits(e: Env, anchors: seq<Anchor>, k: nat) {
    && k < |anchors|
    && |anchors| - k <= MAX_ANCHORS_HARD
    && (k == |anchors| - 1 || Units(e, anchors[k..]) <= COMPACTION_TARGET_BYTES)
  }

  ghost predicate LongestSuffix(e: Env, anchors: seq<Anchor>, k: nat) {
    Fits(e, anchors, k) && forall j: nat :: j < k ==> !Fits(e, anchors, j)
  }

  function KeepFrom(e: Env, anchors: seq<Anchor>, k: nat): (r: nat)
    requires Fits(e, anchors, k)
    ensures Fits(e, anchors, r) && r <= k && (r == 0 || !Fits(e, anchors, r - 1))
  {
    if k > 0 && Fits(e, anchors, k - 1) then KeepFrom(e, anchors, k - 1) else k
  }

  function Referenced(anchors: seq<Anchor>): set<Digest> {
    set i, p | 0 <= i < |anchors| && p in anchors[i].files && anchors[i].files[p].Snap? :: anchors[i].files[p].h
  }

  function Gc(snaps: map<Digest, Content>, anchors: seq<Anchor>, stuck: set<Digest>): map<Digest, Content> {
    map h | h in snaps && (h in Referenced(anchors) || h in stuck) :: snaps[h]
  }

  function Rewrite(s: Store, kept: seq<Anchor>, rewritten: bool, stuck: set<Digest>): Store {
    if rewritten then Store(s.live, Gc(s.snaps, kept, stuck), kept) else s
  }

  function Compact(e: Env, s: Store, rewritten: bool, stuck: set<Digest>): Store {
    if |s.anchors| <= 1 then s
    else
      var k := KeepFrom(e, s.anchors, |s.anchors| - 1);
      if k == 0 then s else Rewrite(s, s.anchors[k..], rewritten, stuck)
  }

  ghost function AppendCheckpoint(e: Env, s: Store, t: Turn): Store {
    var a := Append(e, s, t);
    if t.lineWritten && e.fileBytes(a.anchors) > COMPACTION_TARGET_BYTES
    then Compact(e, a, t.rewritten, t.stuck)
    else a
  }

  // ---------------------------------------------------------------- rewind

  datatype Action =
    | RestoreSnapshot(h: Digest, mode: nat)
    | RestoreVersion
    | Delete
    | SkipBoundary
    | Noop(lost: bool)  // lost: nothing recorded and nothing live

  // The failures of one rewind. A fallback version is what FileHistory still holds for a path.
  datatype Rewinding = Rewinding(
    historyLength: nat,
    versions: Tree,
    noStageDir: bool,
    unstageable: set<Path>,
    versionLost: set<Path>,
    unlinkFails: set<Path>,
    renameFails: set<Path>,
    rewritten: bool,
    stuck: set<Digest>,
    now: int)

  predicate HasTurn(anchors: seq<Anchor>, turn: nat) {
    exists i :: 0 <= i < |anchors| && anchors[i].turn == turn
  }

  // findIndex: the first anchor of that turn.
  function IndexOf(anchors: seq<Anchor>, turn: nat): (i: nat)
    requires HasTurn(anchors, turn)
    ensures i < |anchors| && anchors[i].turn == turn
    ensures forall j :: 0 <= j < i ==> anchors[j].turn != turn
  {
    if anchors[0].turn == turn then 0
    else
      assert HasTurn(anchors[1..], turn) by {
        var i :| 0 <= i < |anchors| && anchors[i].turn == turn;
        assert anchors[1..][i - 1].turn == turn;
      }
      1 + IndexOf(anchors[1..], turn)
  }

  function PlanItem(e: Env, s: Store, a: Anchor, w: Rewinding, p: Path): Action
    requires p in a.files
  {
    if !e.inside(a.root, p) then SkipBoundary
    else match a.files[p]
      case Absent => if p in s.live then Delete else Noop(false)
      case Big => if p in w.versions then RestoreVersion else Noop(p !in s.live)
      case Snap(h, _, _, mode) =>
        if p in s.live && |s.live[p].content| <= MAX_SNAPSHOT_BYTES && e.digest(s.live[p].content) == h
        then Noop(false)
        else RestoreSnapshot(h, mode)
  }

  function Items(e: Env, s: Store, a: Anchor, w: Rewinding): map<Path, Action> {
    map p | p in a.files :: PlanItem(e, s, a, w, p)
  }

  // Files first recorded as created by an anchor after k.
  function CreatedLater(anchors: seq<Anchor>, k: nat): set<Path>
    requires k < |anchors|
  {
    set i, p | k < i < |anchors| && p in anchors[i].created && p !in anchors[k].created :: p
  }

  function CreatedAfter(e: Env, anchors: seq<Anchor>, k: nat): set<Path>
    requires k < |anchors|
  {
    set p | p in CreatedLater(anchors, k) && e.inside(anchors[k].root, p)
  }

  predicate VersionStages(w: Rewinding, p: Path) {
    p in w.versions && p !in w.versionLost
  }

  predicate SnapStages(s: Store, w: Rewinding, p: Path, h: Digest) {
    h in s.snaps && p !in w.unstageable
  }

  // The payload staged for a path: its snapshot, or else the version planned as a fallback.
  function Payload(s: Store, w: Rewinding, p: Path, act: Action): Option<LiveFile> {
    match act
    case RestoreSnapshot(h, mode) =>
      if SnapStages(s, w, p, h) then Some(LiveFile(s.snaps[h], mode, w.now))
      else if VersionStages(w, p) then Some(LiveFile(w.versions[p].content, mode, w.now))
      else None
    case RestoreVersion =>
      if VersionStages(w, p) then Some(LiveFile(w.versions[p].content, w.versions[p].mode, w.now)) else None
    case _ => None
  }

  function Staged(s: Store, w: Rewinding, items: map<Path, Action>): Tree {
    map p | p in items && Payload(s, w, p, items[p]).Some? :: Payload(s, w, p, items[p]).value
  }

  predicate Restores(act: Action) {
    act.RestoreSnapshot? || act.RestoreVersion?
  }

  function Unstaged(s: Store, w: Rewinding, items: map<Path, Action>): set<Path> {
    set p | p in items && Restores(items[p]) && Payload(s, w, p, items[p]).None?
  }

  // Staged from the fallback version instead of the snapshot, not at all from a version, or lost.
  function Degraded(s: Store, w: Rewinding, items: map<Path, Action>): set<Path> {
    set p | p in items &&
      ((items[p].RestoreSnapshot? && !SnapStages(s, w, p, items[p].h) && VersionStages(w, p))
       || (items[p].RestoreVersion? && !VersionStages(w, p))
       || (items[p].Noop? && items[p].lost))
  }

  function Deletions(items: map<Path, Action>): set<Path> {
    set p | p in items && items[p].Delete?
  }

  // The live tree after the commit phase: deletes, staged renames, created-after deletes.
  function AfterDeletes(live: Tree, w: Rewinding, items: map<Path, Action>): Tree {
    live - (Deletions(items) - w.unlinkFails)
  }

  function AfterRestores(live: Tree, w: Rewinding, staged: Tree): Tree {
    live + (staged - w.renameFails)
  }

  function AfterCreated(live: Tree, w: Rewinding, created: set<Path>): Tree {
    live - (created - w.unlinkFails)
  }

  function Commit(e: Env, s: Store, w: Rewinding, k: nat): Tree
    requires k < |s.anchors|
  {
    var items := Items(e, s, s.anchors[k], w);
    AfterCreated(
      AfterRestores(AfterDeletes(s.live, w, items), w, Staged(s, w, items)), w,
      CreatedAfter(e, s.anchors, k))
  }

  // What the rewind reports. failed and degraded are as in the source, restored and deleted follow.
  datatype Report = Report(ok: bool, historyLength: nat, failed: set<Path>, degraded: set<Path>, truncated: nat)

  function Failed(e: Env, s: Store, w: Rewinding, k: nat): set<Path>
    requires k < |s.anchors|
  {
    var items := Items(e, s, s.anchors[k], w);
    Unstaged(s, w, items) + (Deletions(items) * w.unlinkFails) + (Staged(s, w, items).Keys * w.renameFails)
  }

  function Truncate(s: Store, w: Rewinding, k: nat): Store
    requires k < |s.anchors|
  {
    if k + 1 == |s.anchors| then s else Rewrite(s, s.anchors[..k + 1], w.rewritten, w.stuck)
  }

  function Min(a: nat, b: nat): (r: nat)
    ensures r <= a && r <= b && (r == a || r == b)
  {
    if a < b then a else b
  }

  function Rewind(e: Env, s: Store, turn: nat, w: Rewinding): (Store, Report) {
    if !HasTurn(s.anchors, turn) then (s, Report(false, w.historyLength, {}, {}, 0))
    else
      var k := IndexOf(s.anchors, turn);
      if w.noStageDir then (s, Report(false, w.historyLength, {}, {}, 0))
      else
        var items := Items(e, s, s.anchors[k], w);
        (Truncate(s.(live := Commit(e, s, w, k)), w, k),
         Report(true, Min(s.anchors[k].historyLength, w.historyLength), Failed(e, s, w, k),
                Degraded(s, w, items), if w.rewritten then |s.anchors| - (k + 1) else 0))
  }
}
