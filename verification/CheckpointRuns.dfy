/** Runs of turns, killed turns, edits and rewinds: what they keep, and what a rewind after them owes. */
module CheckpointRuns {
  import opened Prelude
  import opened Checkpoints
  import opened CheckpointTheorems

  datatype Op =
    | EndTurn(t: Turn)
    | KillTurn(t: Turn, torn: Digest, part: Content)
    | Edits(live: Tree)
    | RewindTo(turn: nat, w: Rewinding)

  // A store and, for the proofs, what was at the end of each turn: the live tree, and what the turn
  // said of itself. Turns that a rewind has cut off are overwritten as their numbers come up again.
  datatype Session = Session(store: Store, past: map<nat, Tree>, ends: map<nat, Turn>)

  function Fresh(live: Tree): Session {
    Session(Store(live, map[], []), map[], map[])
  }

  ghost function Step(e: Env, x: Session, op: Op): Session {
    match op
    case EndTurn(t) =>
      var s', n := AppendCheckpoint(e, x.store, t), NextTurn(x.store.anchors);
      if t.lineWritten then Session(s', x.past[n := x.store.live], x.ends[n := t]) else Session(s', x.past, x.ends)
    case KillTurn(t, torn, part) => x.(store := Killed(e, x.store, t, torn, part))
    case Edits(live) => x.(store := x.store.(live := live))
    case RewindTo(turn, w) => x.(store := Rewind(e, x.store, turn, w).0)
  }

  ghost function Run(e: Env, x: Session, ops: seq<Op>): Session
    decreases |ops|
  {
    if ops == [] then x else Run(e, Step(e, x, ops[0]), ops[1..])
  }

  ghost predicate TrustedRun(e: Env, x: Session, ops: seq<Op>)
    decreases |ops|
  {
    ops == [] || ((ops[0].EndTurn? ==> Honest(x.store, x.past)) && TrustedRun(e, Step(e, x, ops[0]), ops[1..]))
  }

  lemma StepKeepsInv(e: Env, x: Session, op: Op)
    requires Inv(e, x.store, x.past) && (op.EndTurn? ==> Honest(x.store, x.past))
    ensures Inv(e, Step(e, x, op).store, Step(e, x, op).past)
  {
    match op
    case EndTurn(t) =>
      AppendKeepsInv(e, x.store, x.past, t);
      CompactKeepsInv(e, Append(e, x.store, t), Step(e, x, op).past, t.rewritten, t.stuck);
    case KillTurn(t, torn, part) => KilledKeepsInv(e, x.store, x.past, t, torn, part);
    case Edits(live) =>
      forall i | 0 <= i < |x.store.anchors| ensures AnchorMatches(e, x.store.snaps, x.past, x.store.anchors[i]) {
      }
    case RewindTo(turn, w) => RewindKeepsInv(e, x.store, x.past, turn, w);
  }

  lemma {:induction false} RunKeepsInv(e: Env, x: Session, ops: seq<Op>)
    requires Inv(e, x.store, x.past) && TrustedRun(e, x, ops)
    ensures Inv(e, Run(e, x, ops).store, Run(e, x, ops).past)
    decreases |ops|
  {
    if ops != [] {
      StepKeepsInv(e, x, ops[0]);
      RunKeepsInv(e, Step(e, x, ops[0]), ops[1..]);
    }
  }

  lemma StepKeepsAddressed(e: Env, x: Session, op: Op)
    requires Addressed(e, x.store.snaps) && !op.KillTurn?
    ensures Addressed(e, Step(e, x, op).store.snaps)
  {
    if op.EndTurn? {
      GrownIsAddressed(e, x.store, op.t);
    }
  }

  // Only a killed copy can leave a snapshot whose content has another hash than its name.
  lemma {:induction false} RunKeepsAddressed(e: Env, x: Session, ops: seq<Op>)
    requires Addressed(e, x.store.snaps) && forall op :: op in ops ==> !op.KillTurn?
    ensures Addressed(e, Run(e, x, ops).store.snaps)
    decreases |ops|
  {
    if ops != [] {
      assert ops[0] in ops;
      StepKeepsAddressed(e, x, ops[0]);
      RunKeepsAddressed(e, Step(e, x, ops[0]), ops[1..]);
    }
  }

  // ---------------------------------------------------------------- what anchors say of their turns

  // Turn t reported p as created.
  ghost predicate Reported(ends: map<nat, Turn>, t: nat, p: Path) {
    t in ends && ends[t].history.Some? && p in ends[t].history.value.created
  }

  ghost predicate CreatedBy(ends: map<nat, Turn>, n: nat, p: Path) {
    exists t :: 1 <= t <= n && Reported(ends, t, p)
  }

  // Created up to turn n, or edited by the time it ended.
  ghost predicate TouchedBy(ends: map<nat, Turn>, n: nat, p: Path)
    requires n in ends
  {
    ends[n].history.Some? && (CreatedBy(ends, n, p) || p in ends[n].history.value.edited)
  }

  // The end of turn t had no room for a snapshot of the file.
  predicate NoRoom(e: Env, t: Turn, f: LiveFile) {
    |f.content| > MAX_SNAPSHOT_BYTES || e.digest(f.content) in t.unwritable
  }

  ghost predicate Tells(e: Env, past: map<nat, Tree>, ends: map<nat, Turn>, a: Anchor) {
    && a.turn in past && a.turn in ends
    && a.historyLength == ends[a.turn].historyLength && a.root == ends[a.turn].root
    && (forall p :: p in a.created <==> CreatedBy(ends, a.turn, p))
    && (forall p :: p in a.files <==> TouchedBy(ends, a.turn, p))
    && forall p :: p in a.files && a.files[p].Big? ==>
         p in past[a.turn] && NoRoom(e, ends[a.turn], past[a.turn][p])
  }

  // Every anchor says of its turn what the turn said of itself.
  ghost predicate Truthful(e: Env, x: Session) {
    forall i :: 0 <= i < |x.store.anchors| ==> Tells(e, x.past, x.ends, x.store.anchors[i])
  }

  lemma CreatedEarlier(ends: map<nat, Turn>, t: Turn, n: nat, m: nat, p: Path)
    requires m < n
    ensures CreatedBy(ends[n := t], m, p) <==> CreatedBy(ends, m, p)
  {
    if CreatedBy(ends, m, p) {
      var i :| 1 <= i <= m && Reported(ends, i, p);
      assert Reported(ends[n := t], i, p);
    }
    if CreatedBy(ends[n := t], m, p) {
      var i :| 1 <= i <= m && Reported(ends[n := t], i, p);
      assert Reported(ends, i, p);
    }
  }

  lemma CreatedNow(ends: map<nat, Turn>, t: Turn, n: nat, p: Path)
    ensures CreatedBy(ends[n + 1 := t], n + 1, p) <==>
              CreatedBy(ends, n, p) || (t.history.Some? && p in t.history.value.created)
  {
    CreatedEarlier(ends, t, n + 1, n, p);
    if t.history.Some? && p in t.history.value.created {
      assert Reported(ends[n + 1 := t], n + 1, p);
    }
    if CreatedBy(ends, n, p) {
      var i :| 1 <= i <= n && Reported(ends[n + 1 := t], i, p);
    }
  }

  lemma EarlierTells(e: Env, x: Session, t: Turn, a: Anchor)
    requires Tells(e, x.past, x.ends, a) && a.turn < NextTurn(x.store.anchors)
    ensures var n := NextTurn(x.store.anchors); Tells(e, x.past[n := x.store.live], x.ends[n := t], a)
  {
    forall p: Path
      ensures CreatedBy(x.ends[NextTurn(x.store.anchors) := t], a.turn, p) <==> CreatedBy(x.ends, a.turn, p)
    {
      CreatedEarlier(x.ends, t, NextTurn(x.store.anchors), a.turn, p);
    }
  }

  lemma NewAnchorCreated(e: Env, x: Session, t: Turn, p: Path)
    requires Truthful(e, x)
    ensures var n := NextTurn(x.store.anchors);
            p in Created(x.store, t) <==> CreatedBy(x.ends[n := t], n, p)
  {
    var n := NextTurn(x.store.anchors);
    CreatedNow(x.ends, t, n - 1, p);
    if x.store.anchors != [] {
      assert Tells(e, x.past, x.ends, x.store.anchors[|x.store.anchors| - 1]);
    }
  }

  lemma NewAnchorTells(e: Env, x: Session, t: Turn)
    requires Truthful(e, x)
    ensures var n := NextTurn(x.store.anchors);
            Tells(e, x.past[n := x.store.live], x.ends[n := t], NewAnchor(e, x.store, t))
  {
    forall p: Path
      ensures var n := NextTurn(x.store.anchors); p in Created(x.store, t) <==> CreatedBy(x.ends[n := t], n, p)
    {
      NewAnchorCreated(e, x, t, p);
    }
    forall p | p in Tracked(x.store, t) && EntryFor(e, x.store, t, p).Big?
      ensures p in x.store.live && NoRoom(e, t, x.store.live[p])
    {
      BigExactly(e, x.store, t, p);
    }
  }

  lemma AppendTells(e: Env, x: Session, t: Turn)
    requires Increasing(x.store.anchors) && Truthful(e, x) && t.lineWritten
    ensures var n := NextTurn(x.store.anchors);
            Truthful(e, Session(Append(e, x.store, t), x.past[n := x.store.live], x.ends[n := t]))
  {
    var n := NextTurn(x.store.anchors);
    var y := Session(Append(e, x.store, t), x.past[n := x.store.live], x.ends[n := t]);
    NewAnchorTells(e, x, t);
    forall i | 0 <= i < |y.store.anchors| ensures Tells(e, y.past, y.ends, y.store.anchors[i]) {
      if i < |x.store.anchors| {
        EarlierTells(e, x, t, x.store.anchors[i]);
      }
    }
  }

  lemma FewerTell(e: Env, x: Session, s: Store, lo: nat, hi: nat)
    requires Truthful(e, x) && lo <= hi <= |x.store.anchors| && s.anchors == x.store.anchors[lo..hi]
    ensures Truthful(e, x.(store := s))
  {
    forall i | 0 <= i < |s.anchors| ensures Tells(e, x.past, x.ends, s.anchors[i]) {
      assert s.anchors[i] == x.store.anchors[lo + i];
    }
  }

  lemma CompactTells(e: Env, x: Session, rewritten: bool, stuck: set<Digest>)
    requires Truthful(e, x)
    ensures Truthful(e, x.(store := Compact(e, x.store, rewritten, stuck)))
  {
    var anchors := x.store.anchors;
    if |anchors| > 1 {
      KeepsLongestSuffix(e, anchors);
      var k := KeepFrom(e, anchors, |anchors| - 1);
      assert anchors[k..] == anchors[k..|anchors|];
      if k > 0 && rewritten {
        FewerTell(e, x, Compact(e, x.store, rewritten, stuck), k, |anchors|);
      }
    }
  }

  lemma RewindTells(e: Env, x: Session, turn: nat, w: Rewinding)
    requires Truthful(e, x)
    ensures Truthful(e, x.(store := Rewind(e, x.store, turn, w).0))
  {
    var anchors, s' := x.store.anchors, Rewind(e, x.store, turn, w).0;
    if Rewind(e, x.store, turn, w).1.ok {
      var hi := |anchors| - Rewind(e, x.store, turn, w).1.truncated;
      TruncatedAreDropped(e, x.store, turn, w);
      assert anchors[..hi] == anchors[0..hi];
      FewerTell(e, x, s', 0, hi);
    }
  }

  lemma StepKeepsTruth(e: Env, x: Session, op: Op)
    requires Increasing(x.store.anchors) && Truthful(e, x)
    ensures Truthful(e, Step(e, x, op))
  {
    match op
    case EndTurn(t) =>
      if t.lineWritten {
        var n := NextTurn(x.store.anchors);
        AppendTells(e, x, t);
        var y := Session(Append(e, x.store, t), x.past[n := x.store.live], x.ends[n := t]);
        CompactTells(e, y, t.rewritten, t.stuck);
      }
    case RewindTo(turn, w) => RewindTells(e, x, turn, w);
    case _ =>
  }

  lemma {:induction false} RunKeepsTruth(e: Env, x: Session, ops: seq<Op>)
    requires Inv(e, x.store, x.past) && TrustedRun(e, x, ops) && Truthful(e, x)
    ensures Truthful(e, Run(e, x, ops))
    decreases |ops|
  {
    if ops != [] {
      StepKeepsInv(e, x, ops[0]);
      StepKeepsTruth(e, x, ops[0]);
      RunKeepsTruth(e, Step(e, x, ops[0]), ops[1..]);
    }
  }

  // ---------------------------------------------------------------- the guarantee

  // Reported as created after turn n and by no turn up to it.
  ghost predicate NewAfter(ends: map<nat, Turn>, n: nat, last: nat, p: Path) {
    CreatedBy(ends, last, p) && !CreatedBy(ends, n, p)
  }

  ghost predicate AsVersion(x: Session, w: Rewinding, now: Tree, p: Path) {
    if p in w.versions then p in now && now[p].content == w.versions[p].content else SameAt(now, x.store.live, p)
  }

  // The file has its content of then, exactly if that can be had.
  ghost predicate AsThen(e: Env, x: Session, was: Tree, now: Tree, p: Path)
    requires p in was
  {
    p in now && (Obtainable(e, x.store, p, e.digest(was[p].content)) <==> now[p].content == was[p].content)
  }

  /**
    What a rewind from turn last to turn n makes of a path, said of the turns alone: what is outside the
    workspace is not touched; what was created since is gone; of what the session had touched, the
    absent is gone and the present is as it was, or at its version if there was no room for it.
   */
  ghost predicate Owed(e: Env, x: Session, n: nat, last: nat, w: Rewinding, now: Tree, p: Path)
    requires n in x.past && n in x.ends
  {
    var was := x.past[n];
    if !e.inside(x.ends[n].root, p) then SameAt(now, x.store.live, p)
    else if NewAfter(x.ends, n, last, p) then p !in now
    else if !TouchedBy(x.ends, n, p) then SameAt(now, x.store.live, p)
    else if p !in was then p !in now
    else if |was[p].content| > MAX_SNAPSHOT_BYTES then AsVersion(x, w, now, p)
    else AsThen(e, x, was, now, p) || (NoRoom(e, x.ends[n], was[p]) && AsVersion(x, w, now, p))
  }

  ghost predicate AllOwed(e: Env, x: Session, n: nat, last: nat, w: Rewinding, now: Tree)
    requires n in x.past && n in x.ends
  {
    forall p: Path :: Owed(e, x, n, last, w, now, p)
  }

  function LastTurn(x: Session): nat {
    NextTurn(x.store.anchors) - 1
  }

  lemma CameLaterIsNew(e: Env, x: Session, k: nat, p: Path)
    requires Increasing(x.store.anchors) && Truthful(e, x) && k < |x.store.anchors|
    ensures CameLater(x.store.anchors, k, p) <==>
              NewAfter(x.ends, x.store.anchors[k].turn, LastTurn(x), p)
  {
    var anchors := x.store.anchors;
    var last := |anchors| - 1;
    assert Tells(e, x.past, x.ends, anchors[k]);
    assert Tells(e, x.past, x.ends, anchors[last]);
    if CameLater(anchors, k, p) {
      var i :| k < i < |anchors| && p in anchors[i].created;
      assert Tells(e, x.past, x.ends, anchors[i]);
      var t :| 1 <= t <= anchors[i].turn && Reported(x.ends, t, p);
      assert t <= anchors[last].turn;
    }
  }

  lemma RewoundIsOwed(e: Env, x: Session, w: Rewinding, k: nat, now: Tree, p: Path)
    requires Inv(e, x.store, x.past) && Truthful(e, x) && k < |x.store.anchors|
    requires x.store.anchors[k].turn in x.past && x.store.anchors[k].turn in x.ends
    requires RewoundAt(e, x.store, w, k, x.past[x.store.anchors[k].turn], now, p)
    ensures Owed(e, x, x.store.anchors[k].turn, LastTurn(x), w, now, p)
  {
    CameLaterIsNew(e, x, k, p);
    assert Tells(e, x.past, x.ends, x.store.anchors[k]);
    if p in x.store.anchors[k].files {
      var tree := TreeOf(e, x.store, x.past, k, p);
    }
  }

  lemma RewoundIsAllOwed(e: Env, x: Session, w: Rewinding, k: nat, now: Tree)
    requires Inv(e, x.store, x.past) && Truthful(e, x) && k < |x.store.anchors|
    requires x.store.anchors[k].turn in x.past && x.store.anchors[k].turn in x.ends
    requires RewoundTo(e, x.store, w, k, x.past[x.store.anchors[k].turn], now)
    ensures AllOwed(e, x, x.store.anchors[k].turn, LastTurn(x), w, now)
  {
    forall p: Path ensures Owed(e, x, x.store.anchors[k].turn, LastTurn(x), w, now, p) {
      assert RewoundAt(e, x.store, w, k, x.past[x.store.anchors[k].turn], now, p);
      RewoundIsOwed(e, x, w, k, now, p);
    }
  }

  lemma RewindGivesOwed(e: Env, x: Session, k: nat, w: Rewinding)
    requires Inv(e, x.store, x.past) && Truthful(e, x) && Injective(e.digest)
    requires k < |x.store.anchors| && Clean(w)
    ensures var n := x.store.anchors[k].turn;
            var (s', report) := Rewind(e, x.store, n, w);
            && n in x.past && n in x.ends
            && report.ok && report.failed == {}
            && report.historyLength == Min(x.ends[n].historyLength, w.historyLength)
            && AllOwed(e, x, n, LastTurn(x), w, s'.live)
  {
    var n := x.store.anchors[k].turn;
    assert Tells(e, x.past, x.ends, x.store.anchors[k]);
    RewindBringsBack(e, x.store, x.past, w, k);
    RewoundIsAllOwed(e, x, w, k, Rewind(e, x.store, n, w).0.live);
  }

  /**
    The guarantee of the module: after any run of turns, edits and rewinds, with any failures and
    kills in it, a rewind to any anchor still listed gives every path what the turns owe it, and cuts
    the conversation back to the length it had.
   */
  lemma AnyRunThenRewind(e: Env, live: Tree, ops: seq<Op>, k: nat, w: Rewinding)
    requires Injective(e.digest) && TrustedRun(e, Fresh(live), ops)
    requires k < |Run(e, Fresh(live), ops).store.anchors| && Clean(w)
    ensures var x := Run(e, Fresh(live), ops);
            var n := x.store.anchors[k].turn;
            var (s', report) := Rewind(e, x.store, n, w);
            && n in x.past && n in x.ends
            && report.ok && report.failed == {}
            && report.historyLength == Min(x.ends[n].historyLength, w.historyLength)
            && AllOwed(e, x, n, LastTurn(x), w, s'.live)
  {
    RunKeepsInv(e, Fresh(live), ops);
    RunKeepsTruth(e, Fresh(live), ops);
    RewindGivesOwed(e, Run(e, Fresh(live), ops), k, w);
  }

  // Touched inside the workspace by turn n, there at its end with room for it, and not created later.
  ghost predicate Kept(e: Env, x: Session, n: nat, p: Path)
    requires n in x.past && n in x.ends
  {
    && TouchedBy(x.ends, n, p) && e.inside(x.ends[n].root, p) && !NewAfter(x.ends, n, LastTurn(x), p)
    && p in x.past[n] && !NoRoom(e, x.ends[n], x.past[n][p])
  }

  lemma KeptCanBeHad(e: Env, x: Session, k: nat, p: Path)
    requires Inv(e, x.store, x.past) && Truthful(e, x) && Addressed(e, x.store.snaps) && k < |x.store.anchors|
    ensures var n := x.store.anchors[k].turn;
            && n in x.past && n in x.ends
            && (Kept(e, x, n, p) ==> Obtainable(e, x.store, p, e.digest(x.past[n][p].content)))
  {
    var n := x.store.anchors[k].turn;
    assert Tells(e, x.past, x.ends, x.store.anchors[k]);
    if Kept(e, x, n, p) {
      var tree := TreeOf(e, x.store, x.past, k, p);
    }
  }

  /**
    If no turn was killed, every file so kept has the content it had: of all that the session had edited
    or created by then, nothing is lost but what had no snapshot, or is reported as created later.
   */
  lemma UnkilledRunThenRewind(e: Env, live: Tree, ops: seq<Op>, k: nat, w: Rewinding, p: Path)
    requires Injective(e.digest) && TrustedRun(e, Fresh(live), ops) && forall op :: op in ops ==> !op.KillTurn?
    requires k < |Run(e, Fresh(live), ops).store.anchors| && Clean(w)
    ensures var x := Run(e, Fresh(live), ops);
            var n := x.store.anchors[k].turn;
            var now := Rewind(e, x.store, n, w).0.live;
            && n in x.past && n in x.ends
            && (Kept(e, x, n, p) ==> p in now && now[p].content == x.past[n][p].content)
  {
    RunKeepsInv(e, Fresh(live), ops);
    RunKeepsTruth(e, Fresh(live), ops);
    RunKeepsAddressed(e, Fresh(live), ops);
    KeptIsBack(e, Run(e, Fresh(live), ops), k, w, p);
  }

  lemma KeptIsBack(e: Env, x: Session, k: nat, w: Rewinding, p: Path)
    requires Inv(e, x.store, x.past) && Truthful(e, x) && Addressed(e, x.store.snaps) && Injective(e.digest)
    requires k < |x.store.anchors| && Clean(w)
    ensures var n := x.store.anchors[k].turn;
            var now := Rewind(e, x.store, n, w).0.live;
            && n in x.past && n in x.ends
            && (Kept(e, x, n, p) ==> p in now && now[p].content == x.past[n][p].content)
  {
    var n := x.store.anchors[k].turn;
    RewindGivesOwed(e, x, k, w);
    KeptCanBeHad(e, x, k, p);
    assert Owed(e, x, n, LastTurn(x), w, Rewind(e, x.store, n, w).0.live, p);
  }

  // ---------------------------------------------------------------- runs that fall short

  // An environment with room for everything: one workspace, and an anchor file that stays small.
  ghost predicate Roomy(e: Env) {
    e.inside("", "f") && forall anchors :: e.fileBytes(anchors) == 0
  }

  // The end of a turn that edited or created f, with nothing failing.
  function TurnOf(edited: set<Path>, created: set<Path>): Turn {
    Turn(1, Some(FileHistory(edited, created)), "", {}, true, true, {})
  }

  // A first turn over f alone.
  lemma FirstTurn(e: Env, f: LiveFile, snaps: map<Digest, Content>)
    requires Roomy(e) && |f.content| <= MAX_SNAPSHOT_BYTES
    ensures var s := Store(map["f" := f], snaps, []);
            var s' := AppendCheckpoint(e, s, TurnOf({"f"}, {}));
            && s'.live == s.live && |s'.anchors| == 1 && s'.anchors[0].turn == 1 && s'.anchors[0].root == ""
            && s'.anchors[0].created == {}
            && s'.anchors[0].files == map["f" := Snap(e.digest(f.content), f.mtime, |f.content|, f.mode)]
            && forall h :: h in snaps ==> h in s'.snaps && s'.snaps[h] == snaps[h]
  {
    var s := Store(map["f" := f], snaps, []);
    var t := TurnOf({"f"}, {});
    GrownIsAddressed(e, s, t);
    assert Tracked(s, t) == {"f"};
    assert Append(e, s, t).anchors == [NewAnchor(e, s, t)];
  }

  // A rewind to the first anchor, of turn 1.
  lemma RewindToFirst(e: Env, s: Store, w: Rewinding)
    requires Clean(w) && s.anchors != [] && s.anchors[0].turn == 1
    ensures Rewind(e, s, 1, w).0.live == Commit(e, s, w, 0)
  {
    assert HasTurn(s.anchors, 1);
  }

  // A file is edited in turn 1, replaced and reported created in turn 2, and the rewind to turn 1
  // deletes it.
  lemma RecreatedFileIsLost(e: Env, x1: Session, x3: Session, w: Rewinding)
    requires Roomy(e) && Clean(w)
    requires x1 == Step(e, Fresh(map["f" := LiveFile("a", 0, 1)]), EndTurn(TurnOf({"f"}, {})))
    requires var x2 := Step(e, x1, Edits(map["f" := LiveFile("a", 0, 2)]));
             x3 == Step(e, x2, EndTurn(TurnOf({}, {"f"})))
    ensures 1 in x3.past && "f" in x3.past[1]
    ensures "f" !in Rewind(e, x3.store, 1, w).0.live
  {
    FirstTurn(e, LiveFile("a", 0, 1), map[]);
    RecreatesFirst(e, x1.store.(live := map["f" := LiveFile("a", 0, 2)]), x3.store);
    CommitElsewhere(e, x3.store, w, 0, "f");
    RewindToFirst(e, x3.store, w);
  }

  lemma RecreatesFirst(e: Env, s: Store, s': Store)
    requires Roomy(e) && s' == AppendCheckpoint(e, s, TurnOf({}, {"f"}))
    requires |s.anchors| == 1 && s.anchors[0].turn == 1 && s.anchors[0].root == "" && s.anchors[0].created == {}
    ensures s'.anchors != [] && s'.anchors[0] == s.anchors[0] && Doomed(e, s'.anchors, 0, "f")
  {
    var t := TurnOf({}, {"f"});
    assert s'.anchors == s.anchors + [NewAnchor(e, s, t)];
    assert "f" in s'.anchors[1].created;
  }

  // The mode of f is changed after turn 1 and its content is not: the rewind leaves the new mode.
  lemma ModeIsLost(e: Env, x1: Session, x2: Session, w: Rewinding)
    requires Roomy(e) && Clean(w)
    requires x1 == Step(e, Fresh(map["f" := LiveFile("a", 0, 1)]), EndTurn(TurnOf({"f"}, {})))
    requires x2 == Step(e, x1, Edits(map["f" := LiveFile("a", 1, 2)]))
    ensures 1 in x2.past && "f" in x2.past[1] && x2.past[1]["f"].mode == 0
    ensures var now := Rewind(e, x2.store, 1, w).0.live; "f" in now && now["f"] == LiveFile("a", 1, 2)
  {
    FirstTurn(e, LiveFile("a", 0, 1), map[]);
    CommitAt(e, x2.store, w, 0, "f");
    RewindToFirst(e, x2.store, w);
  }

  // Turn 1 is killed while it copies f; its next end finds the torn snapshot there and names it; after
  // another edit the rewind restores the torn content.
  lemma TornSnapshotIsRestored(e: Env, x1: Session, x2: Session, x3: Session, w: Rewinding)
    requires Roomy(e) && Clean(w) && e.digest("ab") != e.digest("c")
    requires x1 == Step(e, Fresh(map["f" := LiveFile("ab", 0, 1)]), KillTurn(TurnOf({"f"}, {}), e.digest("ab"), "a"))
    requires x2 == Step(e, x1, EndTurn(TurnOf({"f"}, {})))
    requires x3 == Step(e, x2, Edits(map["f" := LiveFile("c", 0, 2)]))
    ensures 1 in x3.past && "f" in x3.past[1] && x3.past[1]["f"].content == "ab"
    ensures var now := Rewind(e, x3.store, 1, w).0.live; "f" in now && now["f"].content == "a"
  {
    TearsFirst(e, x1.store);
    FirstTurn(e, LiveFile("ab", 0, 1), x1.store.snaps);
    RestoresTorn(e, x3.store, w);
    RewindToFirst(e, x3.store, w);
  }

  lemma TearsFirst(e: Env, s: Store)
    requires s == Killed(e, Fresh(map["f" := LiveFile("ab", 0, 1)]).store, TurnOf({"f"}, {}), e.digest("ab"), "a")
    ensures s.live == map["f" := LiveFile("ab", 0, 1)] && s.anchors == []
    ensures e.digest("ab") in s.snaps && s.snaps[e.digest("ab")] == "a"
  {
    var s0, t := Fresh(map["f" := LiveFile("ab", 0, 1)]).store, TurnOf({"f"}, {});
    assert Copies(e, s0, t, "f");
    assert "f" in Tracked(s0, t);
    assert e.digest("ab") in NewDigests(e, s0, t);
  }

  lemma RestoresTorn(e: Env, s: Store, w: Rewinding)
    requires Roomy(e) && Clean(w) && e.digest("ab") != e.digest("c") && s.live == map["f" := LiveFile("c", 0, 2)]
    requires e.digest("ab") in s.snaps && s.snaps[e.digest("ab")] == "a"
    requires |s.anchors| == 1 && s.anchors[0].root == ""
    requires s.anchors[0].files == map["f" := Snap(e.digest("ab"), 1, 2, 0)]
    ensures var now := Commit(e, s, w, 0); "f" in now && now["f"].content == "a"
  {
    CommitAt(e, s, w, 0, "f");
  }
}
