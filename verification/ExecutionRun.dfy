/** The run state machine and its registry (src/core/executionRun.ts), with the event log that a
    restart replays (src/core/executionRunEvents.ts). */
module ExecutionRuns {
  import opened Prelude

  datatype Status =
    | Queued | Preparing | Running | Waiting | Verifying | Blocked
    | Succeeded | Failed | Cancelled | TimedOut | VerificationFailed | Lost

  datatype Kind = Turn | Agent | ExternalWorker | ShellTask | Workflow | Loop

  type RunId = string

  datatype Run = Run(kind: Kind, status: Status, phase: string, error: Option<string>)

  function ValidTransitions(from: Status): set<Status> {
    match from
    case Queued => {Preparing, Cancelled, Failed, Lost}
    case Preparing => {Running, Cancelled, Failed, Blocked, Lost}
    case Running => {Waiting, Verifying, Succeeded, Failed, Cancelled, TimedOut, Blocked, Lost}
    case Waiting => {Running, Verifying, Cancelled, Failed, TimedOut, Lost}
    case Verifying => {Succeeded, VerificationFailed, Failed, Cancelled, Lost}
    case Blocked => {Running, Cancelled, Failed, Lost}
    case _ => {}
  }

  predicate Terminal(s: Status) {
    s in {Succeeded, Failed, Cancelled, TimedOut, VerificationFailed, Lost}
  }

  // The table read the other way: where each status can be entered from.
  lemma EnteredFrom(from: Status, to: Status)
    ensures to in ValidTransitions(from) <==>
            match to
            case Queued => false
            case Preparing => from == Queued
            case Running => from in {Preparing, Waiting, Blocked}
            case Waiting => from == Running
            case Verifying => from in {Running, Waiting}
            case Blocked => from in {Preparing, Running}
            case Succeeded => from in {Running, Verifying}
            case TimedOut => from in {Running, Waiting}
            case VerificationFailed => from == Verifying
            case _ => from in {Queued, Preparing, Running, Waiting, Verifying, Blocked}
  {
  }

  // A self-transition is always allowed.
  predicate CanTransition(from: Status, to: Status) {
    from == to || to in ValidTransitions(from)
  }

  // ---------------------------------------------------------------- the statuses one run goes through

  ghost predicate Legal(trail: seq<Status>) {
    && trail != []
    && forall i :: 0 <= i < |trail| - 1 ==> CanTransition(trail[i], trail[i + 1])
  }

  // The table's terminal states are the ones that nothing leaves, and everything else can be lost.
  lemma TerminalIsDeadEnd(s: Status)
    ensures Terminal(s) <==> forall to :: CanTransition(s, to) ==> to == s
    ensures !Terminal(s) ==> CanTransition(s, Lost) && CanTransition(s, Failed)
  {
    if !Terminal(s) {
      assert CanTransition(s, Lost);
    }
  }

  lemma {:induction false} TerminalForever(trail: seq<Status>, i: nat, j: nat)
    requires Legal(trail) && i <= j < |trail| && Terminal(trail[i])
    ensures trail[j] == trail[i]
    decreases j - i
  {
    if i < j {
      assert CanTransition(trail[i], trail[i + 1]);
      TerminalForever(trail, i + 1, j);
    }
  }

  // Progress: queued, then preparing, then the active states, then the terminal ones.
  function Stage(s: Status): nat {
    if s == Queued then 0 else if s == Preparing then 1 else if Terminal(s) then 3 else 2
  }

  lemma {:induction false} StageNeverFalls(trail: seq<Status>, i: nat, j: nat)
    requires Legal(trail) && i <= j < |trail|
    ensures Stage(trail[i]) <= Stage(trail[j])
    decreases j - i
  {
    if i < j {
      assert CanTransition(trail[i], trail[i + 1]);
      StageNeverFalls(trail, i + 1, j);
    }
  }

  // Once left for another status, queued and preparing are never entered again.
  lemma StartNeverReentered(trail: seq<Status>, i: nat, j: nat, k: nat)
    requires Legal(trail) && i < j <= k < |trail| && trail[i] in {Queued, Preparing} && trail[j] != trail[i]
    ensures trail[k] != trail[i]
  {
    StageNeverFalls(trail, i, j);
    StageNeverFalls(trail, j, k);
  }

  // Whatever is past preparing was preparing before, if the run was created as queued.
  lemma {:induction false} PassesPreparing(trail: seq<Status>, k: nat)
    requires Legal(trail) && k < |trail| && trail[0] == Queued && Stage(trail[k]) == 2
    ensures Preparing in trail[..k]
  {
    assert CanTransition(trail[k - 1], trail[k]);
    if trail[k - 1] != Preparing {
      assert Stage(trail[k - 1]) == 2;
      PassesPreparing(trail, k - 1);
      assert trail[..k - 1] <= trail[..k];
    } else {
      assert trail[..k][k - 1] == Preparing;
    }
  }

  lemma {:induction false} PassesRunning(trail: seq<Status>, k: nat)
    requires Legal(trail) && k < |trail| && trail[0] == Queued
    requires trail[k] in {Succeeded, Waiting, Verifying, VerificationFailed}
    ensures Running in trail[..k]
  {
    assert CanTransition(trail[k - 1], trail[k]);
    if trail[k - 1] != Running {
      PassesRunning(trail, k - 1);
      assert trail[..k - 1] <= trail[..k];
    } else {
      assert trail[..k][k - 1] == Running;
    }
  }

  // A run created as queued that succeeds was preparing and then running before.
  lemma SuccessTookEveryStep(trail: seq<Status>, k: nat)
    requires Legal(trail) && k < |trail| && trail[0] == Queued && trail[k] == Succeeded
    ensures exists i, j :: 0 <= i < j < k && trail[i] == Preparing && trail[j] == Running
  {
    PassesRunning(trail, k);
    var j :| 0 <= j < k && trail[..k][j] == Running;
    assert trail[j] == Running;
    PassesPreparing(trail, j);
    var i :| 0 <= i < j && trail[..j][i] == Preparing;
    assert trail[i] == Preparing;
  }

  // verification_failed is entered only from verifying.
  lemma {:induction false} VerificationFailsWhileVerifying(trail: seq<Status>, k: nat)
    requires Legal(trail) && k < |trail| && trail[0] != VerificationFailed && trail[k] == VerificationFailed
    ensures exists j :: 0 <= j < k && trail[j] == Verifying && trail[j + 1] == VerificationFailed
  {
    assert CanTransition(trail[k - 1], trail[k]);
    if trail[k - 1] == VerificationFailed {
      VerificationFailsWhileVerifying(trail, k - 1);
    }
  }

  // ---------------------------------------------------------------- registry operations

  // Fields a caller may change along with a transition, or on their own.
  datatype Patch = Patch(phase: Option<string>, error: Option<Option<string>>)

  function Patched(run: Run, p: Patch): Run {
    run.(phase := p.phase.GetOr(run.phase), error := p.error.GetOr(run.error))
  }

  // A logged event carries the run as it is after the operation.
  datatype Logged = Created(id: RunId, run: Run) | Changed(id: RunId, run: Run)

  datatype World = World(runs: map<RunId, Run>, log: seq<Logged>, trails: map<RunId, seq<Status>>)

  // heard: the event is logged. It is not when a critical subscriber fails inside its own event.
  datatype Op =
    | Create(id: RunId, run: Run, heard: bool)
    | Transition(id: RunId, to: Status, patch: Patch, heard: bool)
    | Update(id: RunId, patch: Patch, heard: bool)
    | Delete(id: RunId)

  predicate Accepts(w: World, op: Op) {
    match op
    case Create(id, _, _) => id !in w.runs
    case Transition(id, to, _, _) => id in w.runs && CanTransition(w.runs[id].status, to)
    case Update(id, _, _) => id in w.runs
    case Delete(id) => id in w.runs
  }

  function Noted(log: seq<Logged>, heard: bool, e: Logged): seq<Logged> {
    if heard then log + [e] else log
  }

  // An operation that is refused changes nothing.
  function Apply(w: World, op: Op): World {
    if !Accepts(w, op) then w else
    match op
    case Create(id, run, heard) =>
      World(w.runs[id := run], Noted(w.log, heard, Created(id, run)), w.trails[id := [run.status]])
    case Transition(id, to, patch, heard) =>
      var run := Patched(w.runs[id], patch).(status := to);
      World(w.runs[id := run], Noted(w.log, heard, Changed(id, run)), w.trails[id := TrailOf(w, id) + [to]])
    case Update(id, patch, heard) =>
      var run := Patched(w.runs[id], patch);
      World(w.runs[id := run], Noted(w.log, heard, Changed(id, run)), w.trails)
    case Delete(id) =>
      World(w.runs - {id}, w.log, w.trails - {id})
  }

  // An accepted transition or update changes its own run alone: the status as asked, phase and error
  // where the patch names them.
  lemma OperationIsLocal(w: World, op: Op)
    requires Accepts(w, op) && (op.Transition? || op.Update?)
    ensures var before, after := w.runs[op.id], Apply(w, op).runs;
            && after == w.runs[op.id := after[op.id]] && after[op.id].kind == before.kind
            && after[op.id].status == (if op.Transition? then op.to else before.status)
            && (op.patch.phase.Some? ==> after[op.id].phase == op.patch.phase.value)
            && (op.patch.phase.None? ==> after[op.id].phase == before.phase)
            && (op.patch.error.Some? ==> after[op.id].error == op.patch.error.value)
            && (op.patch.error.None? ==> after[op.id].error == before.error)
  {
  }

  function TrailOf(w: World, id: RunId): seq<Status> {
    if id in w.trails then w.trails[id] else []
  }

  function ApplyAll(w: World, ops: seq<Op>): World {
    if ops == [] then w else Apply(ApplyAll(w, ops[..|ops| - 1]), ops[|ops| - 1])
  }

  const EMPTY := World(map[], [], map[])

  // The run's past is a legal path through the table that ends in its status.
  ghost predicate Recorded(trail: seq<Status>, status: Status) {
    Legal(trail) && trail[|trail| - 1] == status
  }

  ghost predicate Inv(w: World) {
    && w.trails.Keys == w.runs.Keys
    && forall id :: id in w.runs ==> Recorded(w.trails[id], w.runs[id].status)
  }

  lemma LegalExtends(trail: seq<Status>, from: Status, to: Status)
    requires Recorded(trail, from) && CanTransition(from, to)
    ensures Recorded(trail + [to], to)
  {
    var longer := trail + [to];
    forall i | 0 <= i < |longer| - 1 ensures CanTransition(longer[i], longer[i + 1]) {
      if i < |trail| - 1 {
        assert CanTransition(trail[i], trail[i + 1]);
      }
    }
  }

  lemma ApplyKeepsInv(w: World, op: Op)
    requires Inv(w)
    ensures Inv(Apply(w, op))
  {
    if Accepts(w, op) {
      var v := Apply(w, op);
      match op
      case Create(id, run, _) => assert Recorded([run.status], run.status);
      case Transition(id, to, _, _) => LegalExtends(w.trails[id], w.runs[id].status, to);
      case _ =>
      forall id | id in v.runs ensures Recorded(v.trails[id], v.runs[id].status) {
        if id != op.id {
          assert v.runs[id] == w.runs[id] && v.trails[id] == w.trails[id];
        }
      }
    }
  }

  // In every history of registry operations all pasts are legal, so the trail lemmas apply to them.
  lemma {:induction false} EveryHistoryIsLegal(ops: seq<Op>)
    ensures Inv(ApplyAll(EMPTY, ops))
    decreases |ops|
  {
    if ops != [] {
      EveryHistoryIsLegal(ops[..|ops| - 1]);
      ApplyKeepsInv(ApplyAll(EMPTY, ops[..|ops| - 1]), ops[|ops| - 1]);
    }
  }

  // While a terminal run is not deleted, no operation changes its status.
  lemma {:induction false} TerminalRunStays(w: World, ops: seq<Op>, id: RunId)
    requires id in w.runs && Terminal(w.runs[id].status) && Delete(id) !in ops
    ensures id in ApplyAll(w, ops).runs && ApplyAll(w, ops).runs[id].status == w.runs[id].status
    decreases |ops|
  {
    if ops != [] {
      TerminalRunStays(w, ops[..|ops| - 1], id);
      assert ops[|ops| - 1] in ops;
    }
  }

  // ---------------------------------------------------------------- replay after a restart

  // A created run that exists is skipped, a change to an unknown run too, and so is an illegal one.
  // Without a change of status only the phase is taken over.
  function Replayed(runs: map<RunId, Run>, e: Logged): map<RunId, Run> {
    match e
    case Created(id, run) => if id in runs then runs else runs[id := run]
    case Changed(id, run) =>
      if id !in runs then runs
      else if run.status != runs[id].status then
        if CanTransition(runs[id].status, run.status)
        then runs[id := runs[id].(status := run.status, phase := run.phase, error := run.error)]
        else runs
      else if run.phase != "" then runs[id := runs[id].(phase := run.phase)]
      else runs
  }

  function Replay(log: seq<Logged>): map<RunId, Run> {
    if log == [] then map[] else Replayed(Replay(log[..|log| - 1]), log[|log| - 1])
  }

  predicate SameUpToError(a: Run, b: Run) {
    a.kind == b.kind && a.status == b.status && a.phase == b.phase
  }

  ghost predicate Agree(back: map<RunId, Run>, runs: map<RunId, Run>) {
    && back.Keys == runs.Keys
    && forall id :: id in runs ==> SameUpToError(back[id], runs[id])
  }

  ghost predicate LogAgrees(w: World) {
    Agree(Replay(w.log), w.runs)
  }

  // The operations a restart reproduces: every event logged, no empty phase label, no deletion.
  predicate Faithful(op: Op) {
    match op
    case Create(_, run, heard) => heard && run.phase != ""
    case Transition(_, _, patch, heard) => heard && patch.phase != Some("")
    case Update(_, patch, heard) => heard && patch.phase != Some("")
    case Delete(_) => false
  }

  ghost predicate PhasesNamed(w: World) {
    forall id :: id in w.runs ==> w.runs[id].phase != ""
  }

  lemma ReplayOfNext(log: seq<Logged>, e: Logged)
    ensures Replay(log + [e]) == Replayed(Replay(log), e)
  {
    assert (log + [e])[..|log|] == log;
  }

  // The replayed change leaves the two agreeing exactly when it names a phase or changes the status.
  lemma ChangeAgrees(back: map<RunId, Run>, runs: map<RunId, Run>, id: RunId, run: Run)
    requires Agree(back, runs) && id in runs
    requires run.kind == runs[id].kind && CanTransition(runs[id].status, run.status)
    ensures Agree(Replayed(back, Changed(id, run)), runs[id := run]) <==>
            run.status != runs[id].status || run.phase != "" || runs[id].phase == ""
  {
    var next := Replayed(back, Changed(id, run));
    assert SameUpToError(back[id], runs[id]);
    if !(run.status != runs[id].status || run.phase != "" || runs[id].phase == "") {
      assert !SameUpToError(next[id], runs[id := run][id]);
    }
  }

  // A change that is not logged leaves the two agreeing exactly when it leaves status and phase alone.
  lemma SilenceAgrees(back: map<RunId, Run>, runs: map<RunId, Run>, id: RunId, run: Run)
    requires Agree(back, runs) && id in runs && run.kind == runs[id].kind
    ensures Agree(back, runs[id := run]) <==> run.status == runs[id].status && run.phase == runs[id].phase
  {
    assert SameUpToError(back[id], runs[id]);
    if !(run.status == runs[id].status && run.phase == runs[id].phase) {
      assert !SameUpToError(back[id], runs[id := run][id]);
    }
  }

  // The run that an accepted transition or update leaves behind.
  function After(w: World, op: Op): Run
    requires Accepts(w, op) && (op.Transition? || op.Update?)
  {
    if op.Transition? then Patched(w.runs[op.id], op.patch).(status := op.to) else Patched(w.runs[op.id], op.patch)
  }

  lemma ApplyKeepsAgreement(w: World, op: Op)
    requires LogAgrees(w) && PhasesNamed(w) && Faithful(op)
    ensures LogAgrees(Apply(w, op)) && PhasesNamed(Apply(w, op))
  {
    if Accepts(w, op) {
      if op.Create? {
        CreateAgrees(w, op.id, op.run);
      } else {
        ReplayOfNext(w.log, Changed(op.id, After(w, op)));
        ChangeAgrees(Replay(w.log), w.runs, op.id, After(w, op));
        assert Apply(w, op).runs == w.runs[op.id := After(w, op)];
      }
    }
  }

  lemma CreateAgrees(w: World, id: RunId, run: Run)
    requires LogAgrees(w) && id !in w.runs
    ensures LogAgrees(Apply(w, Create(id, run, true)))
  {
    ReplayOfNext(w.log, Created(id, run));
  }

  /**
    A crash after any history: replaying the log gives back every run with the kind, the status and
    the phase it had. As the log only grows, so does replaying any prefix of it for that moment.
   */
  lemma {:induction false} ReplayRestores(ops: seq<Op>)
    requires forall op :: op in ops ==> Faithful(op)
    ensures LogAgrees(ApplyAll(EMPTY, ops)) && PhasesNamed(ApplyAll(EMPTY, ops))
    decreases |ops|
  {
    if ops != [] {
      ReplayRestores(ops[..|ops| - 1]);
      assert ops[|ops| - 1] in ops;
      ApplyKeepsAgreement(ApplyAll(EMPTY, ops[..|ops| - 1]), ops[|ops| - 1]);
    }
  }

  // From a log that agrees, an accepted transition or update leaves it agreeing exactly when its
  // event was logged under a named phase or it changed neither status nor phase.
  lemma AgreementExactly(w: World, op: Op)
    requires LogAgrees(w) && Accepts(w, op) && (op.Transition? || op.Update?)
    ensures var before, after := w.runs[op.id], Apply(w, op).runs[op.id];
            LogAgrees(Apply(w, op)) <==>
              || (after.status == before.status && after.phase == before.phase)
              || (op.heard && (after.status != before.status || after.phase != ""))
  {
    var after := After(w, op);
    var v := Apply(w, op);
    assert v.runs == w.runs[op.id := after];
    if op.heard {
      ReplayOfNext(w.log, Changed(op.id, after));
      ChangeAgrees(Replay(w.log), w.runs, op.id, after);
    } else {
      SilenceAgrees(Replay(w.log), w.runs, op.id, after);
    }
  }

  // The error text is replayed exactly by an event that changes the status; any other logged event
  // loses a new error text, with a new phase or without.
  lemma ErrorReplaysExactly(w: World, op: Op)
    requires LogAgrees(w) && Accepts(w, op) && (op.Transition? || op.Update?) && op.heard
    requires Replay(w.log)[op.id].error == w.runs[op.id].error
    ensures var v := Apply(w, op);
            && op.id in Replay(v.log)
            && (Replay(v.log)[op.id].error == v.runs[op.id].error <==>
                v.runs[op.id].status != w.runs[op.id].status || v.runs[op.id].error == w.runs[op.id].error)
  {
    ReplayOfNext(w.log, Changed(op.id, After(w, op)));
  }

  // An update with a phase and an error, as the recovery makes, comes back with the phase alone.
  lemma PhasedUpdateLosesError(w: World, id: RunId, phase: string, text: string)
    requires LogAgrees(w) && id in w.runs && phase != "" && w.runs[id].error == Replay(w.log)[id].error == None
    ensures var v := Apply(w, Update(id, Patch(Some(phase), Some(Some(text))), true));
            && v.runs[id].error == Some(text)
            && id in Replay(v.log) && Replay(v.log)[id].phase == phase && Replay(v.log)[id].error == None
  {
    ReplayOfNext(w.log, Changed(id, Patched(w.runs[id], Patch(Some(phase), Some(Some(text))))));
  }

  // So does a logged self-transition.
  lemma SelfTransitionLosesError(w: World, id: RunId, text: string)
    requires LogAgrees(w) && id in w.runs && w.runs[id].error == Replay(w.log)[id].error == None
    ensures var op := Transition(id, w.runs[id].status, Patch(None, Some(Some(text))), true);
            var v := Apply(w, op);
            v.runs[id].error == Some(text) && id in Replay(v.log) && Replay(v.log)[id].error == None
  {
    ReplayOfNext(w.log, Changed(id, Patched(w.runs[id], Patch(None, Some(Some(text))))));
  }

  // A deletion is not logged: from a log that agrees it always leaves the run to come back.
  lemma DeletedRunComesBack(w: World, id: RunId)
    requires LogAgrees(w)
    ensures LogAgrees(Apply(w, Delete(id))) <==> id !in w.runs
  {
    if id in w.runs {
      assert id in Replay(w.log) && id !in Apply(w, Delete(id)).runs;
    }
  }
}
