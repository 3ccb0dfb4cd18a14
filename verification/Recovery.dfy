/** Reconciling the runs of a process that crashed (the recovery methods of src/core/engine.ts). */
module Recoveries {
  import opened Prelude
  import opened ExecutionRuns
  import opened RunDispatches

  const PENDING := "recovery-pending-reattach"
  const MARKED_FAILED := "recovery-marked-failed"
  const REATTACHED := "reattached"
  const REATTACH_FAILED := "recovery-reattach-failed"

  // Under way when the process died. Queued and blocked runs are not.
  predicate MidFlight(s: Status) {
    s in {Preparing, Running, Verifying, Waiting}
  }

  // A worker that the second stage still has to look for.
  predicate Awaits(run: Run) {
    run.kind == ExternalWorker && run.phase == PENDING && !Terminal(run.status)
  }

  // ---------------------------------------------------------------- what each stage makes of a run

  function Reconciled(run: Run): Run {
    if !MidFlight(run.status) then run
    else if run.kind == ExternalWorker then run.(phase := PENDING, error := Some("process restarted mid-run"))
    else run.(status := Failed, phase := MARKED_FAILED, error := Some("process restarted mid-run"))
  }

  function Searched(run: Run, found: bool): Run {
    if !Awaits(run) then run
    else if found then run.(phase := REATTACHED, error := None)
    else run.(status := Lost, phase := REATTACH_FAILED, error := Some("worker pane not found after restart"))
  }

  // A critical subscriber that throws at the stage's event fails the run, unless it is terminal by then.
  function Shaken(run: Run, struck: bool): Run {
    if struck && !Terminal(run.status) then Patched(run, STRIKE).(status := Failed) else run
  }

  function ReconciledOne(run: Run, struck: bool): Run {
    if MidFlight(run.status) then Shaken(Reconciled(run), struck) else run
  }

  function SearchedOne(run: Run, found: bool, struck: bool): Run {
    if Awaits(run) then Shaken(Searched(run, found), struck) else run
  }

  function ReconciledAll(runs: map<RunId, Run>, struck: set<RunId>): map<RunId, Run> {
    map id | id in runs :: ReconciledOne(runs[id], id in struck)
  }

  function SearchedAll(runs: map<RunId, Run>, found: set<RunId>, struck: set<RunId>): map<RunId, Run> {
    map id | id in runs :: SearchedOne(runs[id], id in found, id in struck)
  }

  function AwaitedIn(runs: map<RunId, Run>): set<RunId> {
    set id | id in runs && Awaits(runs[id])
  }

  // Part-way through a stage: the runs in todo are as they were.
  ghost predicate ReconciledBut(was: map<RunId, Run>, now: map<RunId, Run>, todo: set<RunId>, struck: set<RunId>) {
    && now.Keys == was.Keys && struck !! todo
    && forall id :: id in was ==> now[id] == if id in todo then was[id] else ReconciledOne(was[id], id in struck)
  }

  function Plus(s: set<RunId>, id: RunId, add: bool): set<RunId> {
    if add then s + {id} else s
  }

  lemma ReconciledNext(was: map<RunId, Run>, now: map<RunId, Run>, todo: set<RunId>, struck: set<RunId>, id: RunId,
                       hit: bool)
    requires ReconciledBut(was, now, todo, struck) && id in todo && id in was
    ensures ReconciledBut(was, now[id := ReconciledOne(was[id], hit)], todo - {id}, Plus(struck, id, hit))
  {
  }

  ghost predicate SearchedBut(was: map<RunId, Run>, now: map<RunId, Run>, todo: set<RunId>, found: set<RunId>,
                              struck: set<RunId>) {
    && now.Keys == was.Keys && found !! todo && struck !! todo
    && forall id :: id in was ==>
      now[id] == if id in todo then was[id] else SearchedOne(was[id], id in found, id in struck)
  }

  lemma SearchedNext(was: map<RunId, Run>, now: map<RunId, Run>, todo: set<RunId>, found: set<RunId>,
                     struck: set<RunId>, id: RunId, here: bool, hit: bool)
    requires SearchedBut(was, now, todo, found, struck) && id in todo && id in was
    ensures SearchedBut(was, now[id := SearchedOne(was[id], here, hit)], todo - {id}, Plus(found, id, here),
                        Plus(struck, id, hit))
  {
  }

  lemma AllSearched(was: map<RunId, Run>, now: map<RunId, Run>, found: set<RunId>, struck: set<RunId>)
    requires SearchedBut(was, now, {}, found, struck)
    ensures now == SearchedAll(was, found, struck)
  {
  }

  // The counts of the search so far.
  ghost predicate Tally(all: set<RunId>, todo: set<RunId>, found: set<RunId>, reattached: nat, lost: nat) {
    todo <= all && found <= all && reattached == |found| && reattached + lost + |todo| == |all|
  }

  lemma TallyNext(all: set<RunId>, todo: set<RunId>, found: set<RunId>, reattached: nat, lost: nat, id: RunId)
    requires Tally(all, todo, found, reattached, lost) && id in todo && found !! todo
    ensures Tally(all, todo - {id}, found + {id}, reattached + 1, lost)
    ensures Tally(all, todo - {id}, found, reattached, lost + 1)
  {
    assert todo == todo - {id} + {id};
  }

  // ---------------------------------------------------------------- what is left after both

  // Both stages change a status only along the table.
  lemma RecoveryIsLegal(run: Run, found: bool)
    ensures CanTransition(run.status, Reconciled(run).status)
    ensures CanTransition(run.status, Searched(run, found).status)
  {
  }

  /**
    What a run is after both stages. Only workers can still be under way, reattached; each that was
    is reattached, lost, or failed by a critical subscriber; any other run under way is failed; the
    rest is untouched; and what is not terminal is queued, blocked or reattached.
   */
  lemma AfterRecovery(run: Run, struck: bool, found: bool, again: bool)
    ensures var end := SearchedOne(ReconciledOne(run, struck), found, again);
            && end.kind == run.kind
            && (MidFlight(end.status) ==>
                  end.kind == ExternalWorker && end.phase == REATTACHED && end.status == run.status)
            && (MidFlight(run.status) && run.kind == ExternalWorker ==>
                  end.status == if struck then Failed else if !found then Lost
                                else if again then Failed else run.status)
            && (MidFlight(run.status) && run.kind != ExternalWorker ==> end.status == Failed)
            && (!MidFlight(run.status) && !Awaits(run) ==> end == run)
            && (!Terminal(end.status) && end.status != Queued && end.status != Blocked ==> end.phase == REATTACHED)
            && !Awaits(end)
    ensures var end := SearchedOne(ReconciledOne(run, struck), found, again);
            MidFlight(run.status) && !struck && !again ==>
              if run.kind != ExternalWorker
              then end.phase == MARKED_FAILED && end.error == Some("process restarted mid-run")
              else if found then end.phase == REATTACHED && end.error == None
              else end.phase == REATTACH_FAILED && end.error == Some("worker pane not found after restart")
  {
  }

  // A second pass of the search finds nothing left to do.
  lemma SearchIsFinal(runs: map<RunId, Run>, found: set<RunId>, struck: set<RunId>, more: set<RunId>, again: set<RunId>)
    ensures SearchedAll(SearchedAll(runs, found, struck), more, again) == SearchedAll(runs, found, struck)
  {
  }

  // Where the log agrees with the runs (RestartAgreesExactly), replay and recovery keep terminal
  // statuses and settle every run under way.
  lemma RestartThenRecovery(w: World, struck: set<RunId>, found: set<RunId>, again: set<RunId>, id: RunId)
    requires LogAgrees(w) && id in w.runs
    ensures var end := SearchedAll(ReconciledAll(Replay(w.log), struck), found, again);
            var was := w.runs[id];
            && end.Keys == w.runs.Keys
            && (Terminal(was.status) ==> end[id].status == was.status)
            && (MidFlight(was.status) ==>
                  end[id].status == if was.kind != ExternalWorker || id in struck then Failed
                                    else if id !in found then Lost
                                    else if id in again then Failed else was.status)
  {
    assert SameUpToError(Replay(w.log)[id], w.runs[id]);
    AfterRecovery(Replay(w.log)[id], id in struck, id in found, id in again);
  }

  // ---------------------------------------------------------------- the methods

  // Nothing but a failed append of the event goes wrong with a registry call.
  predicate AtMostUnlogged(r: Result<Run, RunError>) {
    r.Ok? || r.error == NotPersisted
  }

  // What a dispatched update or transition leaves of the runs.
  lemma UpdateLeaves(w: World, id: RunId, patch: Patch, heard: bool, struck: bool)
    requires id in w.runs && (struck ==> heard)
    ensures Dispatched(w, Call(Update(id, patch, heard), struck)).runs ==
            w.runs[id := Shaken(Patched(w.runs[id], patch), struck)]
  {
    TerminalIsDeadEnd(w.runs[id].status);
  }

  lemma TransitionLeaves(w: World, id: RunId, to: Status, patch: Patch, heard: bool, struck: bool)
    requires id in w.runs && CanTransition(w.runs[id].status, to) && (struck ==> heard)
    ensures Dispatched(w, Call(Transition(id, to, patch, heard), struck)).runs ==
            w.runs[id := Shaken(Patched(w.runs[id], patch).(status := to), struck)]
  {
    TerminalIsDeadEnd(to);
  }

  class Engine {
    const registry: ExecutionRunRegistry
    var pendingRecovery: bool

    constructor (registry: ExecutionRunRegistry, recovered: bool)
      ensures this.registry == registry && pendingRecovery == recovered
    {
      this.registry, pendingRecovery := registry, recovered;
    }

    /**
      The first stage. Whichever appends to the event log fail, and their exceptions are swallowed,
      every run ends up reconciled; the table refuses none of the calls; without critical subscribers
      nothing is struck.
     */
    method RecoverNonTerminalRuns() returns (lawful: bool, ghost struck: set<RunId>)
      requires Inv(registry.State()) && registry.emitting == {}
      modifies this, registry
      ensures Inv(registry.State()) && registry.emitting == {} && !pendingRecovery && lawful
      ensures registry.runs ==
              if old(pendingRecovery) then ReconciledAll(old(registry.runs), struck) else old(registry.runs)
      ensures true !in registry.subscribers ==> struck == {}
    {
      lawful, struck := true, {};
      if !pendingRecovery { return; }
      pendingRecovery := false;
      ghost var was := registry.runs;
      var nonTerminal := set id | id in registry.runs && MidFlight(registry.runs[id].status);
      ghost var all := nonTerminal;
      while nonTerminal != {}
        modifies registry
        invariant Inv(registry.State()) && registry.emitting == {} && lawful && nonTerminal <= all
        invariant ReconciledBut(was, registry.runs, nonTerminal, struck)
        invariant true !in registry.subscribers ==> struck == {}
        decreases nonTerminal
      {
        var id :| id in nonTerminal;
        ghost var now := registry.runs;
        var ok, hit := Reconcile(id);
        ReconciledNext(was, now, nonTerminal, struck, id, hit);
        lawful := lawful && ok;
        struck := Plus(struck, id, hit);
        nonTerminal := nonTerminal - {id};
      }
      assert registry.runs == ReconciledAll(was, struck);
    }

    method Reconcile(id: RunId) returns (ok: bool, ghost hit: bool)
      requires Inv(registry.State()) && registry.emitting == {}
      requires id in registry.runs && MidFlight(registry.runs[id].status)
      modifies registry
      ensures Inv(registry.State()) && registry.emitting == {} && ok
      ensures registry.runs == old(registry.runs)[id := ReconciledOne(old(registry.runs)[id], hit)]
      ensures true !in registry.subscribers ==> !hit
    {
      ghost var w := registry.State();
      if registry.runs[id].kind == ExternalWorker {
        var patch := Patch(Some(PENDING), Some(Some("process restarted mid-run")));
        var r, h, s := registry.Update(id, patch);
        UpdateLeaves(w, id, patch, h, s);
        ok, hit := AtMostUnlogged(r), s;
      } else {
        var patch := Patch(Some(MARKED_FAILED), Some(Some("process restarted mid-run")));
        var r, h, s := registry.Transition(id, Failed, patch);
        TransitionLeaves(w, id, Failed, patch, h, s);
        ok, hit := AtMostUnlogged(r), s;
      }
    }

    /**
      The second stage. Again whichever appends fail: each awaited worker is reattached or lost, and
      the two counts add up to the workers that were awaited.
     */
    method RunWorkerRecovery(adapters: nat)
      returns (reattached: nat, lost: nat, lawful: bool, ghost found: set<RunId>, ghost struck: set<RunId>)
      requires Inv(registry.State()) && registry.emitting == {}
      modifies registry
      ensures Inv(registry.State()) && registry.emitting == {} && lawful
      ensures registry.runs == SearchedAll(old(registry.runs), found, struck)
      ensures found <= AwaitedIn(old(registry.runs)) && reattached == |found|
      ensures reattached + lost == |AwaitedIn(old(registry.runs))|
      ensures adapters == 0 ==> reattached == 0
      ensures true !in registry.subscribers ==> struck == {}
    {
      ghost var was := registry.runs;
      var pending := AwaitedIn(registry.runs);
      ghost var all := pending;
      reattached, lost, lawful, found, struck := 0, 0, true, {}, {};
      while pending != {}
        modifies registry
        invariant Inv(registry.State()) && registry.emitting == {} && lawful
        invariant Tally(all, pending, found, reattached, lost)
        invariant adapters == 0 ==> reattached == 0
        invariant SearchedBut(was, registry.runs, pending, found, struck)
        invariant true !in registry.subscribers ==> struck == {}
        decreases pending
      {
        var id :| id in pending;
        TallyNext(all, pending, found, reattached, lost, id);
        ghost var now := registry.runs;
        var didReattach, ok, hit := Search(id, adapters);
        SearchedNext(was, now, pending, found, struck, id, didReattach, hit);
        lawful := lawful && ok;
        pending := pending - {id};
        found, struck := Plus(found, id, didReattach), Plus(struck, id, hit);
        if didReattach { reattached := reattached + 1; } else { lost := lost + 1; }
      }
      AllSearched(was, registry.runs, found, struck);
    }

    method Search(id: RunId, adapters: nat) returns (didReattach: bool, ok: bool, ghost hit: bool)
      requires Inv(registry.State()) && registry.emitting == {}
      requires id in registry.runs && Awaits(registry.runs[id])
      modifies registry
      ensures Inv(registry.State()) && registry.emitting == {} && ok && (adapters == 0 ==> !didReattach)
      ensures registry.runs == old(registry.runs)[id := SearchedOne(old(registry.runs)[id], didReattach, hit)]
      ensures true !in registry.subscribers ==> !hit
    {
      didReattach := Reattach(adapters);
      ghost var w := registry.State();
      if didReattach {
        var patch := Patch(Some(REATTACHED), Some(None));
        var r, h, s := registry.Update(id, patch);
        UpdateLeaves(w, id, patch, h, s);
        ok, hit := AtMostUnlogged(r), s;
      } else {
        TerminalIsDeadEnd(registry.runs[id].status);
        var patch := Patch(Some(REATTACH_FAILED), Some(Some("worker pane not found after restart")));
        var r, h, s := registry.Transition(id, Lost, patch);
        TransitionLeaves(w, id, Lost, patch, h, s);
        ok, hit := AtMostUnlogged(r), s;
      }
    }

    // Asks the adapters in turn: each answers with a handle, answers with none, or throws.
    method Reattach(adapters: nat) returns (found: bool)
      ensures adapters == 0 ==> !found
    {
      found := false;
      var i := 0;
      while i < adapters && !found
        invariant i <= adapters && (found ==> adapters > 0)
      {
        found := *;
        i := i + 1;
      }
    }
  }
}
