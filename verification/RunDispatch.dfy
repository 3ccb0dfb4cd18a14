/** How the registry's operations reach the event log and the subscribers (the dispatch of
    src/core/executionRunEvents.ts), and what a restart makes of the log they leave. */
module RunDispatches {
  import opened Prelude
  import opened ExecutionRuns

  // ---------------------------------------------------------------- one dispatch, as a function

  // What a failing critical subscriber makes of the run; the text of its exception is left out.
  const STRIKE := Patch(Some("critical-subscriber-error"), Some(Some("critical subscriber threw")))

  // canTransitionToFailed, asked of the run that the event carries. It lets a lost run through, whose
  // transition the table then refuses.
  predicate Strikes(s: Status) {
    s !in {Succeeded, Failed, Cancelled, TimedOut, VerificationFailed}
  }

  // The nested transition comes while the run's own events are dropped.
  function Struck(w: World, id: RunId, s: Status): World {
    if Strikes(s) then Apply(w, Transition(id, Failed, STRIKE, false)) else w
  }

  // One call of the registry. heard: its event was appended to the log; struck: a critical subscriber
  // threw at it.
  datatype Call = Call(op: Op, struck: bool)

  // The run that the event of an accepted call carries.
  function Carried(w: World, op: Op): Run
    requires Accepts(w, op) && !op.Delete?
  {
    if op.Create? then op.run else After(w, op)
  }

  // Only an event that is logged reaches a subscriber.
  predicate Reaches(w: World, c: Call) {
    c.struck && Accepts(w, c.op) && !c.op.Delete? && c.op.heard
  }

  function Dispatched(w: World, c: Call): World {
    var v := Apply(w, c.op);
    if Reaches(w, c) then Struck(v, c.op.id, Carried(w, c.op).status) else v
  }

  // The same as registry operations one after another, so their laws hold of every history of calls.
  function Flattened(w: World, c: Call): seq<Op> {
    if Reaches(w, c) && Strikes(Carried(w, c.op).status)
    then [c.op, Transition(c.op.id, Failed, STRIKE, false)]
    else [c.op]
  }

  lemma DispatchIsOperations(w: World, c: Call)
    ensures Dispatched(w, c) == ApplyAll(w, Flattened(w, c))
  {
    var ops := Flattened(w, c);
    assert [c.op][..0] == [];
    assert ApplyAll(w, [c.op]) == Apply(w, c.op);
    if |ops| == 2 {
      assert ops[..1] == [c.op];
    }
  }

  lemma DispatchKeepsInv(w: World, c: Call)
    requires Inv(w)
    ensures Inv(Dispatched(w, c))
  {
    ApplyKeepsInv(w, c.op);
    if Reaches(w, c) {
      ApplyKeepsInv(Apply(w, c.op), Transition(c.op.id, Failed, STRIKE, false));
    }
  }

  function CallAll(w: World, calls: seq<Call>): World {
    if calls == [] then w else Dispatched(CallAll(w, calls[..|calls| - 1]), calls[|calls| - 1])
  }

  lemma {:induction false} EveryCallHistoryIsLegal(calls: seq<Call>)
    ensures Inv(CallAll(EMPTY, calls))
    decreases |calls|
  {
    if calls != [] {
      EveryCallHistoryIsLegal(calls[..|calls| - 1]);
      DispatchKeepsInv(CallAll(EMPTY, calls[..|calls| - 1]), calls[|calls| - 1]);
    }
  }

  // ---------------------------------------------------------------- what a restart makes of it

  // The log's last word on the run is an event at which a critical subscriber failed it: the failure
  // itself was dropped.
  ghost predicate Dangling(calls: seq<Call>, id: RunId) {
    if calls == [] then false
    else
      var front, c := calls[..|calls| - 1], calls[|calls| - 1];
      var w := CallAll(EMPTY, front);
      if c.op.id != id || !Accepts(w, c.op) || c.op.Delete? then Dangling(front, id)
      else Reaches(w, c) && !Terminal(Carried(w, c.op).status)
  }

  // Where the replayed run and the run itself stand.
  predicate Linked(back: Run, run: Run, dangling: bool) {
    && run.phase != ""
    && if dangling then back.kind == run.kind && run.status == Failed && !Terminal(back.status)
       else SameUpToError(back, run)
  }

  ghost predicate AllLinked(w: World, calls: seq<Call>) {
    var back := Replay(w.log);
    && back.Keys == w.runs.Keys
    && forall id :: id in w.runs ==> Linked(back[id], w.runs[id], Dangling(calls, id))
  }

  // The call's event is logged, and no phase label is empty.
  predicate Plain(c: Call) {
    Faithful(c.op)
  }

  // A logged event of a linked run makes the replayed run agree with it, even if it dangled before.
  lemma EventRelinks(back: map<RunId, Run>, id: RunId, run: Run, next: Run, dangling: bool)
    requires id in back && Linked(back[id], run, dangling)
    requires next.kind == run.kind && next.phase != "" && CanTransition(run.status, next.status)
    ensures var now := Replayed(back, Changed(id, next));
            now.Keys == back.Keys && SameUpToError(now[id], next)
            && forall x :: x in back && x != id ==> now[x] == back[x]
  {
    if dangling {
      TerminalIsDeadEnd(back[id].status);
      TerminalIsDeadEnd(run.status);
    }
  }

  lemma CallRelinks(w: World, c: Call, calls: seq<Call>)
    requires AllLinked(w, calls) && Plain(c) && Accepts(w, c.op)
    ensures var back := Replay(Apply(w, c.op).log);
            && back.Keys == Apply(w, c.op).runs.Keys
            && SameUpToError(back[c.op.id], Carried(w, c.op)) && Carried(w, c.op).phase != ""
            && forall id :: id in w.runs && id != c.op.id ==> back[id] == Replay(w.log)[id]
  {
    var id := c.op.id;
    if c.op.Create? {
      ReplayOfNext(w.log, Created(id, c.op.run));
    } else {
      ReplayOfNext(w.log, Changed(id, After(w, c.op)));
      EventRelinks(Replay(w.log), id, w.runs[id], After(w, c.op), Dangling(calls, id));
    }
  }

  /**
    For every history of calls whose events are all appended, and any failures of critical
    subscribers: the replayed run agrees with the run in kind, status and phase, except where it
    dangles, and there the run is failed and the replayed one is not.
   */
  lemma {:induction false} ReplayFollowsDispatch(calls: seq<Call>)
    requires forall c :: c in calls ==> Plain(c)
    ensures AllLinked(CallAll(EMPTY, calls), calls)
    decreases |calls|
  {
    if calls != [] {
      var front, c := calls[..|calls| - 1], calls[|calls| - 1];
      assert c in calls;
      ReplayFollowsDispatch(front);
      LinksAfter(CallAll(EMPTY, front), front, c, calls);
    }
  }

  lemma LinksAfter(w: World, front: seq<Call>, c: Call, calls: seq<Call>)
    requires calls == front + [c] && w == CallAll(EMPTY, front) && AllLinked(w, front) && Plain(c)
    ensures AllLinked(Dispatched(w, c), calls)
  {
    KeysAfter(w, front, c);
    forall id | id in Dispatched(w, c).runs
      ensures Linked(Replay(Dispatched(w, c).log)[id], Dispatched(w, c).runs[id], Dangling(calls, id))
    {
      DanglingStep(w, front, c, calls, id);
      LinkAfter(w, front, c, id);
    }
  }

  lemma KeysAfter(w: World, front: seq<Call>, c: Call)
    requires AllLinked(w, front) && Plain(c)
    ensures Replay(Dispatched(w, c).log).Keys == Dispatched(w, c).runs.Keys
  {
    if Accepts(w, c.op) {
      CallRelinks(w, c, front);
      DispatchedRun(w, c);
    }
  }

  lemma LinkAfter(w: World, front: seq<Call>, c: Call, id: RunId)
    requires AllLinked(w, front) && Plain(c) && id in Dispatched(w, c).runs
    ensures id in Replay(Dispatched(w, c).log)
    ensures Linked(Replay(Dispatched(w, c).log)[id], Dispatched(w, c).runs[id],
                   if c.op.id == id && Accepts(w, c.op) then Dangles(w, c) else Dangling(front, id))
  {
    if Accepts(w, c.op) {
      CallRelinks(w, c, front);
      DispatchedRun(w, c);
      if id == c.op.id {
        OwnLink(w, c, Replay(Dispatched(w, c).log)[id]);
      }
    }
  }

  lemma DanglingStep(w: World, front: seq<Call>, c: Call, calls: seq<Call>, id: RunId)
    requires calls == front + [c] && w == CallAll(EMPTY, front) && Plain(c)
    ensures Dangling(calls, id) <==>
            if c.op.id == id && Accepts(w, c.op) then Dangles(w, c) else Dangling(front, id)
  {
    assert calls[..|calls| - 1] == front;
  }

  predicate Dangles(w: World, c: Call)
    requires Plain(c) && Accepts(w, c.op)
  {
    c.struck && !Terminal(Carried(w, c.op).status)
  }

  lemma OwnLink(w: World, c: Call, back: Run)
    requires Plain(c) && Accepts(w, c.op)
    requires SameUpToError(back, Carried(w, c.op)) && Carried(w, c.op).phase != ""
    requires c.op.id in Dispatched(w, c).runs
    ensures Linked(back, Dispatched(w, c).runs[c.op.id], Dangles(w, c))
  {
    DispatchedRun(w, c);
  }

  // What an accepted call leaves: its own run as the event carries it or failed, and no other changed.
  lemma DispatchedRun(w: World, c: Call)
    requires Plain(c) && Accepts(w, c.op)
    ensures var v, run := Dispatched(w, c), Carried(w, c.op);
            && v.log == Apply(w, c.op).log && v.runs.Keys == w.runs.Keys + {c.op.id}
            && v.runs[c.op.id] ==
               (if c.struck && !Terminal(run.status) then Patched(run, STRIKE).(status := Failed) else run)
            && forall id :: id in w.runs && id != c.op.id ==> v.runs[id] == w.runs[id]
  {
    TerminalIsDeadEnd(Carried(w, c.op).status);
  }

  /**
    So a restart gives back every run's kind, status and phase exactly when no run's last event is
    one at which a critical subscriber failed it.
   */
  lemma RestartAgreesExactly(calls: seq<Call>)
    requires forall c :: c in calls ==> Plain(c)
    ensures var w := CallAll(EMPTY, calls); LogAgrees(w) <==> forall id :: id in w.runs ==> !Dangling(calls, id)
  {
    ReplayFollowsDispatch(calls);
    var w := CallAll(EMPTY, calls);
    if id :| id in w.runs && Dangling(calls, id) {
      assert !SameUpToError(Replay(w.log)[id], w.runs[id]);
    }
  }

  // A run that a critical subscriber fails at a transition comes back in the state it was failed in.
  lemma StruckDiffers(w: World, id: RunId, to: Status, patch: Patch)
    requires LogAgrees(w) && id in w.runs && to in ValidTransitions(w.runs[id].status) && !Terminal(to)
    requires to != w.runs[id].status
    ensures var v := Dispatched(w, Call(Transition(id, to, patch, true), true));
            v.runs[id].status == Failed && id in Replay(v.log) && Replay(v.log)[id].status == to
  {
    ReplayOfNext(w.log, Changed(id, Patched(w.runs[id], patch).(status := to)));
    TerminalIsDeadEnd(to);
  }

  // Created, preparing, failed as it starts to run: after a restart it is running.
  lemma StruckRunComesBack(id: RunId, kind: Kind)
    ensures var w := Apply(EMPTY, Create(id, Run(kind, Preparing, "spawning", None), true));
            var v := Dispatched(w, Call(Transition(id, Running, Patch(Some("spawned"), None), true), true));
            v.runs[id].status == Failed && id in Replay(v.log) && Replay(v.log)[id].status == Running
  {
    var create := Create(id, Run(kind, Preparing, "spawning", None), true);
    ApplyKeepsAgreement(EMPTY, create);
    StruckDiffers(Apply(EMPTY, create), id, Running, Patch(Some("spawned"), None));
  }

  // ---------------------------------------------------------------- the object

  datatype RunError = AlreadyExists | NotFound | InvalidTransition(from: Status, to: Status) | NotPersisted

  class ExecutionRunRegistry {
    var runs: map<RunId, Run>
    var log: seq<Logged>
    var emitting: set<RunId>      // runs whose subscribers are being called: their events are dropped
    const subscribers: seq<bool>  // true for a critical one
    ghost var trails: map<RunId, seq<Status>>

    ghost function State(): World
      reads this
    {
      World(runs, log, trails)
    }

    constructor (subscribers: seq<bool>)
      ensures State() == EMPTY && Inv(State()) && emitting == {} && this.subscribers == subscribers
    {
      this.subscribers := subscribers;
      runs, log, emitting, trails := map[], [], {}, map[];
    }

    // What may happen to an event: dropped while its run's subscribers are called, not appended, or
    // appended and then, with a critical subscriber, struck.
    ghost predicate Fate(id: RunId, heard: bool, struck: bool)
      reads this
    {
      && (id in emitting ==> !heard)
      && (struck ==> heard && true in subscribers)
    }

    // Appends the event and calls the subscribers. If the append throws, the caller sees it although
    // the run is stored; if a critical subscriber throws, the run is failed behind the caller's back.
    method Dispatch(e: Logged) returns (ok: bool, ghost heard: bool, ghost struck: bool)
      requires Inv(State())
      modifies `runs, `log, `trails, `emitting
      ensures Inv(State()) && emitting == old(emitting) && old(Fate(e.id, heard, struck))
      ensures ok <==> heard || e.id in old(emitting)
      ensures var w := old(State()).(log := Noted(old(log), heard, e));
              State() == if struck then Struck(w, e.id, e.run.status) else w
      decreases if e.id in emitting then 0 else 2
    {
      if e.id in emitting { return true, false, false; }
      var appends := *;
      if !appends { return false, false, false; }
      log := log + [e];
      ok, heard := true, true;

      emitting := emitting + {e.id};
      var critical := CallSubscribers();
      struck := critical;
      if critical && Strikes(e.run.status) {
        var _, _, _ := Transition(e.id, Failed, STRIKE);
      }
      emitting := emitting - {e.id};
    }

    // Stops at the first critical subscriber that throws; other exceptions are swallowed.
    method CallSubscribers() returns (critical: bool)
      ensures critical ==> true in subscribers
    {
      critical := false;
      var i := 0;
      while i < |subscribers| && !critical
        invariant i <= |subscribers| && (critical ==> true in subscribers)
      {
        var throws := *;
        critical := throws && subscribers[i];
        i := i + 1;
      }
    }

    method Create(id: RunId, run: Run) returns (r: Result<Run, RunError>, ghost heard: bool, ghost struck: bool)
      requires Inv(State())
      modifies `runs, `log, `trails, `emitting
      ensures Inv(State()) && emitting == old(emitting) && old(Fate(id, heard, struck))
      ensures State() == Dispatched(old(State()), Call(Op.Create(id, run, heard), struck))
      ensures r == if id in old(runs) then Err(AlreadyExists)
                   else if heard || id in old(emitting) then Ok(run) else Err(NotPersisted)
    {
      ghost var w := State();
      heard, struck := false, false;
      if id in runs {
        return Err(AlreadyExists), false, false;
      }
      ApplyKeepsInv(w, Op.Create(id, run, false));
      runs := runs[id := run];
      trails := trails[id := [run.status]];
      assert State() == Apply(w, Op.Create(id, run, false));
      var ok, h, s := Dispatch(Created(id, run));
      heard, struck := h, s;
      r := if ok then Ok(run) else Err(NotPersisted);
    }

    method Transition(id: RunId, to: Status, patch: Patch)
      returns (r: Result<Run, RunError>, ghost heard: bool, ghost struck: bool)
      requires Inv(State())
      modifies `runs, `log, `trails, `emitting
      ensures Inv(State()) && emitting == old(emitting) && old(Fate(id, heard, struck))
      ensures State() == Dispatched(old(State()), Call(Op.Transition(id, to, patch, heard), struck))
      ensures r == if id !in old(runs) then Err(NotFound)
                   else if !CanTransition(old(runs)[id].status, to)
                   then Err(InvalidTransition(old(runs)[id].status, to))
                   else if heard || id in old(emitting) then Ok(Patched(old(runs)[id], patch).(status := to))
                   else Err(NotPersisted)
      decreases if id in emitting then 1 else 3
    {
      ghost var w := State();
      heard, struck := false, false;
      if id !in runs {
        return Err(NotFound), false, false;
      }
      if !CanTransition(runs[id].status, to) {
        return Err(InvalidTransition(runs[id].status, to)), false, false;
      }
      ApplyKeepsInv(w, Op.Transition(id, to, patch, false));
      var updated := Patched(runs[id], patch).(status := to);
      runs := runs[id := updated];
      trails := trails[id := TrailOf(State(), id) + [to]];
      assert State() == Apply(w, Op.Transition(id, to, patch, false));
      var ok, h, s := Dispatch(Changed(id, updated));
      heard, struck := h, s;
      r := if ok then Ok(updated) else Err(NotPersisted);
    }

    method Update(id: RunId, patch: Patch) returns (r: Result<Run, RunError>, ghost heard: bool, ghost struck: bool)
      requires Inv(State())
      modifies `runs, `log, `trails, `emitting
      ensures Inv(State()) && emitting == old(emitting) && old(Fate(id, heard, struck))
      ensures State() == Dispatched(old(State()), Call(Op.Update(id, patch, heard), struck))
      ensures r == if id !in old(runs) then Err(NotFound)
                   else if heard || id in old(emitting) then Ok(Patched(old(runs)[id], patch)) else Err(NotPersisted)
    {
      ghost var w := State();
      heard, struck := false, false;
      if id !in runs {
        return Err(NotFound), false, false;
      }
      ApplyKeepsInv(w, Op.Update(id, patch, false));
      var updated := Patched(runs[id], patch);
      runs := runs[id := updated];
      assert State() == Apply(w, Op.Update(id, patch, false));
      var ok, h, s := Dispatch(Changed(id, updated));
      heard, struck := h, s;
      r := if ok then Ok(updated) else Err(NotPersisted);
    }

    method Remove(id: RunId) returns (existed: bool)
      requires Inv(State())
      modifies `runs, `trails
      ensures Inv(State()) && State() == Apply(old(State()), Delete(id))
      ensures existed <==> id in old(runs)
    {
      existed := id in runs;
      ApplyKeepsInv(State(), Delete(id));
      if existed {
        runs, trails := runs - {id}, trails - {id};
      }
    }
  }
}
