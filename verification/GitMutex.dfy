/** The process-wide git mutex (src/core/gitMutex.ts): a promise chain, modelled as a step system over
    promise reactions and the job queue (section 27.2 of ECMA-262). */
module GitMutexes {
  import opened Prelude

  datatype Value = Undefined | Of(v: int)
  type Fault = string
  type Outcome = Result<Value, Fault>

  // Chain(0) is resolved from the start; call i makes Run(i) and then Chain(i + 1).
  datatype Ref = Chain(i: nat) | Run(i: nat)

  // fn of a call, given as both handlers; or the pair of handlers that forget the outcome.
  datatype Handler = Start(call: nat) | Forget

  datatype Reaction = Reaction(handler: Handler, derived: Ref)

  datatype Settlement = Pending | Settled(outcome: Outcome)

  datatype Promise = Promise(state: Settlement, reactions: seq<Reaction>)

  // The work of one call: not begun, in its critical section, past it, and known to its caller.
  datatype Task = Waiting | Running | Finished(outcome: Outcome) | Delivered(outcome: Outcome)

  datatype Loop = Loop(
    promises: map<Ref, Promise>,
    jobs: seq<Reaction>,
    chain: Ref,
    tasks: seq<Task>,
    started: seq<nat>,   // calls whose fn was called, in order
    finished: seq<nat>   // calls whose fn was done, in order
  )

  datatype Action =
    | Call
    | RunJob(thrown: Option<Fault>)            // the job at the head of the queue; fn may throw at once
    | Return(call: nat, outcome: Outcome)      // the promise that fn returned settles
    | Deliver(call: nat)                       // and Run(call), which follows it, does too

  // ---------------------------------------------------------------- promises

  // promise.then: a reaction of a pending promise waits, one of a settled promise becomes a job.
  function Then(l: Loop, p: Ref, handler: Handler, derived: Ref): Loop
    requires p in l.promises
  {
    var made := l.promises[derived := Promise(Pending, [])];
    var reaction := Reaction(handler, derived);
    if l.promises[p].state.Pending?
    then l.(promises := made[p := Promise(Pending, l.promises[p].reactions + [reaction])])
    else l.(promises := made, jobs := l.jobs + [reaction])
  }

  function Settle(l: Loop, p: Ref, outcome: Outcome): Loop
    requires p in l.promises
  {
    l.(promises := l.promises[p := Promise(Settled(outcome), [])], jobs := l.jobs + l.promises[p].reactions)
  }

  // ---------------------------------------------------------------- steps

  // withGitMutex: run = chain.then(fn, fn); chain = run.then(forget, forget).
  function Called(l: Loop): Loop
    requires l.chain in l.promises
  {
    var n := |l.tasks|;
    Then(Then(l, l.chain, Start(n), Run(n)), Run(n), Forget, Chain(n + 1))
    .(chain := Chain(n + 1), tasks := l.tasks + [Waiting])
  }

  predicate Enabled(l: Loop, a: Action) {
    match a
    case Call => l.chain in l.promises
    case RunJob(_) =>
      && l.jobs != []
      && l.jobs[0].derived in l.promises
      && (l.jobs[0].handler.Start? ==> l.jobs[0].handler.call < |l.tasks|)
    case Return(call, _) => call < |l.tasks| && l.tasks[call].Running?
    case Deliver(call) => call < |l.tasks| && l.tasks[call].Finished? && Run(call) in l.promises
  }

  function Worked(l: Loop, thrown: Option<Fault>): Loop
    requires Enabled(l, RunJob(thrown))
  {
    var job, rest := l.jobs[0], l.(jobs := l.jobs[1..]);
    match job.handler
    case Forget => Settle(rest, job.derived, Ok(Undefined))
    case Start(call) =>
      var begun := rest.(started := l.started + [call]);
      if thrown.None? then begun.(tasks := l.tasks[call := Running])
      else
        var outcome: Outcome := Err(thrown.value);
        Settle(begun, job.derived, outcome)
        .(tasks := l.tasks[call := Delivered(outcome)], finished := l.finished + [call])
  }

  function Step(l: Loop, a: Action): Loop
    requires Enabled(l, a)
  {
    match a
    case Call => Called(l)
    case RunJob(thrown) => Worked(l, thrown)
    case Return(call, outcome) => l.(tasks := l.tasks[call := Finished(outcome)], finished := l.finished + [call])
    case Deliver(call) =>
      var outcome := l.tasks[call].outcome;
      Settle(l, Run(call), outcome).(tasks := l.tasks[call := Delivered(outcome)])
  }

  const INITIAL := Loop(map[Chain(0) := Promise(Settled(Ok(Undefined)), [])], [], Chain(0), [], [], [])

  // A behaviour: every state but the first comes from the one before by some step.
  ghost predicate Behaviour(states: seq<Loop>) {
    && states != [] && states[0] == INITIAL
    && forall i :: 0 <= i < |states| - 1 ==> Follows(states[i], states[i + 1])
  }

  ghost predicate Follows(l: Loop, m: Loop) {
    exists a: Action :: Enabled(l, a) && m == Step(l, a)
  }

  // ---------------------------------------------------------------- the invariant

  function Upto(n: nat): (r: seq<nat>)
    ensures |r| == n && forall i :: 0 <= i < n ==> r[i] == i
  {
    if n == 0 then [] else Upto(n - 1) + [n - 1]
  }

  function Done(outcome: Outcome): Promise {
    Promise(Settled(outcome), [])
  }

  function Begins(i: nat): Reaction {
    Reaction(Start(i), Run(i))
  }

  function Passes(i: nat): Reaction {
    Reaction(Forget, Chain(i + 1))
  }

  // Link i while call k has the turn of n calls: resolved, never rejected, up to the turn; after it
  // holding back the next call.
  function Link(i: nat, k: nat, n: nat): Promise {
    if i <= k then Done(Ok(Undefined)) else Promise(Pending, if i < n then [Begins(i)] else [])
  }

  // The promise of call i while its work is at task.
  function Answer(i: nat, task: Task): Promise {
    if task.Delivered? then Done(task.outcome) else Promise(Pending, [Passes(i)])
  }

  ghost predicate Links(promises: map<Ref, Promise>, k: nat, n: nat) {
    forall i: nat :: i <= n ==> Chain(i) in promises && promises[Chain(i)] == Link(i, k, n)
  }

  ghost predicate Answers(promises: map<Ref, Promise>, tasks: seq<Task>) {
    forall i: nat :: i < |tasks| ==> Run(i) in promises && promises[Run(i)] == Answer(i, tasks[i])
  }

  // The first k calls are over and those after the one with the turn have not begun.
  ghost predicate InOrder(tasks: seq<Task>, k: nat) {
    && k <= |tasks|
    && (forall i: nat :: i < k ==> tasks[i].Delivered?)
    && (forall i: nat :: k < i < |tasks| ==> tasks[i] == Waiting)
  }

  function TurnTask(tasks: seq<Task>, k: nat): Option<Task> {
    if k < |tasks| then Some(tasks[k]) else None
  }

  function JobsFor(task: Option<Task>, k: nat): seq<Reaction> {
    match task
    case None => []
    case Some(t) => if t.Waiting? then [Begins(k)] else if t.Delivered? then [Passes(k)] else []
  }

  function StartedBy(task: Option<Task>, k: nat): nat {
    if task.None? || task.value.Waiting? then k else k + 1
  }

  function FinishedBy(task: Option<Task>, k: nat): nat {
    if task.None? || task.value.Waiting? || task.value.Running? then k else k + 1
  }

  ghost predicate Turn(l: Loop, k: nat) {
    && l.chain == Chain(|l.tasks|)
    && InOrder(l.tasks, k)
    && Links(l.promises, k, |l.tasks|)
    && Answers(l.promises, l.tasks)
    && l.jobs == JobsFor(TurnTask(l.tasks, k), k)
    && l.started == Upto(StartedBy(TurnTask(l.tasks, k), k))
    && l.finished == Upto(FinishedBy(TurnTask(l.tasks, k), k))
  }

  function Stage(task: Task): nat {
    match task
    case Waiting => 0
    case Running => 1
    case Finished(_) => 2
    case Delivered(_) => 3
  }

  // How far the calls are: four stages each.
  function Rank(l: Loop, k: nat): nat
    requires k <= |l.tasks|
  {
    4 * k + (if k == |l.tasks| then 0 else Stage(l.tasks[k]))
  }

  // The promises with the one of call n and the link behind it.
  function WithCall(promises: map<Ref, Promise>, k: nat, n: nat): map<Ref, Promise> {
    promises[Run(n) := Answer(n, Waiting)][Chain(n) := Link(n, k, n + 1)][Chain(n + 1) := Link(n + 1, k, n + 1)]
  }

  // A call adds its promise and a link, and goes on the job queue at once only if nobody has the turn.
  lemma CalledIs(l: Loop, k: nat)
    requires Turn(l, k)
    ensures var n := |l.tasks|;
            Called(l) == l.(
              promises := WithCall(l.promises, k, n),
              jobs := if k == n then [Begins(n)] else l.jobs,
              chain := Chain(n + 1),
              tasks := l.tasks + [Waiting])
  {
    var n := |l.tasks|;
    assert l.promises[Chain(n)] == Link(n, k, n);
    assert [] + [Begins(n)] == [Begins(n)] && [] + [Passes(n)] == [Passes(n)];
    var made := l.promises[Run(n) := Promise(Pending, [])];
    var m := Then(l, l.chain, Start(n), Run(n));
    assert made[Chain(n)] == Link(n, k, n);
    assert made[Chain(n) := Link(n, k, n + 1)] == m.promises;
    assert m.promises[Run(n)] == Promise(Pending, []);
    assert Called(l).promises == m.promises[Chain(n + 1) := Promise(Pending, [])][Run(n) := Answer(n, Waiting)];
    assert Called(l).promises == WithCall(l.promises, k, n);
  }

  lemma CallKeepsTurn(l: Loop, k: nat)
    requires Turn(l, k)
    ensures Turn(Called(l), k)
  {
    CalledIs(l, k);
    var m := Called(l);
    LinksAfterCall(l.promises, m.promises, k, |l.tasks|);
    AnswersAfterCall(l.promises, m.promises, l.tasks, k);
    assert TurnTask(m.tasks, k) == if k < |l.tasks| then TurnTask(l.tasks, k) else Some(Waiting);
  }

  lemma LinksAfterCall(before: map<Ref, Promise>, after: map<Ref, Promise>, k: nat, n: nat)
    requires k <= n && Links(before, k, n)
    requires after == WithCall(before, k, n)
    ensures Links(after, k, n + 1)
  {
  }

  lemma AnswersAfterCall(before: map<Ref, Promise>, after: map<Ref, Promise>, tasks: seq<Task>, k: nat)
    requires Answers(before, tasks)
    requires var n := |tasks|;
             after == WithCall(before, k, n)
    ensures Answers(after, tasks + [Waiting])
  {
  }

  // A link that is passed lets the next call begin.
  lemma PassKeepsTurn(l: Loop, k: nat)
    requires Turn(l, k) && k < |l.tasks| && l.tasks[k].Delivered?
    ensures var m := Settle(l.(jobs := []), Chain(k + 1), Ok(Undefined));
            Turn(m, k + 1) && Rank(m, k + 1) > Rank(l, k)
  {
    var m := Settle(l.(jobs := []), Chain(k + 1), Ok(Undefined));
    assert Links(m.promises, k + 1, |l.tasks|);
    assert l.promises[Chain(k + 1)] == Link(k + 1, k, |l.tasks|);
  }

  lemma BeginKeepsTurn(l: Loop, k: nat, thrown: Option<Fault>)
    requires Turn(l, k) && k < |l.tasks| && l.tasks[k].Waiting?
    ensures Enabled(l, RunJob(thrown))
    ensures var m := Worked(l, thrown); Turn(m, k) && Rank(m, k) > Rank(l, k)
  {
    var m := Worked(l, thrown);
    assert l.promises[Run(k)] == Answer(k, Waiting);
    assert m.tasks == l.tasks[k := if thrown.None? then Running else Delivered(Err(thrown.value))];
    assert m.promises == if thrown.None? then l.promises else l.promises[Run(k) := Answer(k, m.tasks[k])];
    assert Answers(m.promises, m.tasks);
    assert Links(m.promises, k, |m.tasks|);
  }

  lemma JobKeepsTurn(l: Loop, k: nat, thrown: Option<Fault>) returns (next: nat)
    requires Turn(l, k) && Enabled(l, RunJob(thrown))
    ensures Turn(Worked(l, thrown), next) && Rank(Worked(l, thrown), next) > Rank(l, k)
  {
    if l.tasks[k].Waiting? {
      BeginKeepsTurn(l, k, thrown);
      next := k;
    } else {
      PassKeepsTurn(l, k);
      next := k + 1;
    }
  }

  lemma ReturnKeepsTurn(l: Loop, k: nat, call: nat, outcome: Outcome)
    requires Turn(l, k) && Enabled(l, Return(call, outcome))
    ensures call == k
    ensures Turn(Step(l, Return(call, outcome)), k) && Rank(Step(l, Return(call, outcome)), k) > Rank(l, k)
  {
  }

  lemma DeliverKeepsTurn(l: Loop, k: nat, call: nat)
    requires Turn(l, k) && Enabled(l, Deliver(call))
    ensures call == k
    ensures Turn(Step(l, Deliver(call)), k) && Rank(Step(l, Deliver(call)), k) > Rank(l, k)
  {
  }

  // Every step keeps the turn order, and every step but a new call gets the calls further.
  lemma StepKeepsTurn(l: Loop, k: nat, a: Action) returns (next: nat)
    requires Turn(l, k) && Enabled(l, a)
    ensures Turn(Step(l, a), next)
    ensures !a.Call? ==> Rank(Step(l, a), next) > Rank(l, k) && |Step(l, a).tasks| == |l.tasks|
  {
    next := k;
    match a
    case Call => CallKeepsTurn(l, k);
    case RunJob(thrown) => next := JobKeepsTurn(l, k, thrown);
    case Return(call, outcome) => ReturnKeepsTurn(l, k, call, outcome);
    case Deliver(call) => DeliverKeepsTurn(l, k, call);
  }

  lemma {:induction false} ReachableHasTurn(states: seq<Loop>) returns (k: nat)
    requires Behaviour(states)
    ensures Turn(states[|states| - 1], k)
    decreases |states|
  {
    if |states| == 1 {
      k := 0;
      StartsWithTurn();
    } else {
      PrefixBehaves(states);
      var j := ReachableHasTurn(states[..|states| - 1]);
      assert Follows(states[|states| - 2], states[|states| - 1]);
      k := FollowsKeepsTurn(states[|states| - 2], states[|states| - 1], j);
    }
  }

  lemma StartsWithTurn()
    ensures Turn(INITIAL, 0)
  {
  }

  lemma PrefixBehaves(states: seq<Loop>)
    requires Behaviour(states) && |states| > 1
    ensures Behaviour(states[..|states| - 1])
  {
    var front := states[..|states| - 1];
    forall i | 0 <= i < |front| - 1 ensures Follows(front[i], front[i + 1]) {
      assert Follows(states[i], states[i + 1]);
    }
  }

  lemma FollowsKeepsTurn(l: Loop, m: Loop, k: nat) returns (next: nat)
    requires Turn(l, k) && Follows(l, m)
    ensures Turn(m, next)
  {
    var a: Action :| Enabled(l, a) && m == Step(l, a);
    next := StepKeepsTurn(l, k, a);
  }

  // ---------------------------------------------------------------- what callers rely on

  /**
    In every reachable state at most one fn is in its critical section, fns were called and were done
    in call order, and none was called before the one in front of it was done.
   */
  lemma MutualExclusionInCallOrder(states: seq<Loop>)
    requires Behaviour(states)
    ensures var l := states[|states| - 1];
            && (forall i, j :: 0 <= i < j < |l.tasks| ==> !(l.tasks[i].Running? && l.tasks[j].Running?))
            && l.started == Upto(|l.started|) && l.finished == Upto(|l.finished|)
            && |l.finished| <= |l.started| <= |l.finished| + 1
  {
    var k := ReachableHasTurn(states);
  }

  /**
    A caller sees the outcome of its own fn and no other; a rejection stays there: no link of the
    chain is ever rejected.
   */
  lemma RejectionStaysWithItsCaller(states: seq<Loop>)
    requires Behaviour(states)
    ensures var l := states[|states| - 1];
            && (forall i: nat :: i < |l.tasks| ==>
                  && Run(i) in l.promises
                  && (l.promises[Run(i)].state.Settled? <==> l.tasks[i].Delivered?)
                  && (l.tasks[i].Delivered? ==> l.promises[Run(i)].state == Settled(l.tasks[i].outcome)))
            && (forall i: nat :: i <= |l.tasks| ==>
                  && Chain(i) in l.promises
                  && l.promises[Chain(i)].state in {Pending, Settled(Ok(Undefined))})
  {
    var k := ReachableHasTurn(states);
    var l := states[|states| - 1];
    forall i: nat | i <= |l.tasks|
      ensures Chain(i) in l.promises && l.promises[Chain(i)].state in {Pending, Settled(Ok(Undefined))}
    {
      if i > k {
        assert l.promises[Chain(i)].state == Pending;
      }
    }
  }

  // ---------------------------------------------------------------- outcomes, by the actions taken

  // A behaviour with the actions that led from each state to the next.
  ghost predicate Trace(states: seq<Loop>, acts: seq<Action>) {
    && |states| == |acts| + 1 && states[0] == INITIAL
    && forall i :: 0 <= i < |acts| ==> Enabled(states[i], acts[i]) && states[i + 1] == Step(states[i], acts[i])
  }

  // The fn of a call comes to an outcome: the promise it returned settles so, or it throws as it is called.
  predicate Ends(l: Loop, a: Action, call: nat, outcome: Outcome) {
    match a
    case Return(c, o) => c == call && o == outcome
    case RunJob(thrown) =>
      thrown.Some? && l.jobs != [] && l.jobs[0].handler == Start(call) && outcome == Err(thrown.value)
    case _ => false
  }

  predicate CameTo(l: Loop, call: nat, outcome: Outcome) {
    call < |l.tasks| && (l.tasks[call] == Finished(outcome) || l.tasks[call] == Delivered(outcome))
  }

  // An outcome is come to by such an action and by no other, and is kept.
  lemma OutcomeIsKept(l: Loop, k: nat, a: Action, call: nat, outcome: Outcome)
    requires Turn(l, k) && Enabled(l, a)
    ensures CameTo(Step(l, a), call, outcome) <==> CameTo(l, call, outcome) || Ends(l, a, call, outcome)
  {
    if a.RunJob? && l.jobs[0].handler.Start? {
      assert l.jobs[0].handler.call == k;
    }
  }

  lemma TraceBehaves(states: seq<Loop>, acts: seq<Action>)
    requires Trace(states, acts)
    ensures Behaviour(states)
  {
    forall i | 0 <= i < |states| - 1 ensures Follows(states[i], states[i + 1]) {
      assert Enabled(states[i], acts[i]);
    }
  }

  ghost predicate Ended(states: seq<Loop>, acts: seq<Action>, call: nat, outcome: Outcome)
    requires |states| == |acts| + 1
  {
    exists i :: 0 <= i < |acts| && Ends(states[i], acts[i], call, outcome)
  }

  lemma {:induction false} OutcomesAreEnds(states: seq<Loop>, acts: seq<Action>, call: nat, outcome: Outcome)
    requires Trace(states, acts)
    ensures CameTo(states[|acts|], call, outcome) <==> Ended(states, acts, call, outcome)
    decreases |acts|
  {
    if acts != [] {
      var n := |acts| - 1;
      var before, done := states[..n + 1], acts[..n];
      TraceBehaves(before, done);
      var k := ReachableHasTurn(before);
      OutcomesAreEnds(before, done, call, outcome);
      OutcomeIsKept(states[n], k, acts[n], call, outcome);
      EndedNext(states, acts, call, outcome);
    }
  }

  lemma EndedNext(states: seq<Loop>, acts: seq<Action>, call: nat, outcome: Outcome)
    requires |states| == |acts| + 1 && acts != []
    ensures var n := |acts| - 1;
            Ended(states, acts, call, outcome) <==>
              Ended(states[..n + 1], acts[..n], call, outcome) || Ends(states[n], acts[n], call, outcome)
  {
    var n := |acts| - 1;
    var before, done := states[..n + 1], acts[..n];
    if Ended(before, done, call, outcome) {
      var i :| 0 <= i < |done| && Ends(before[i], done[i], call, outcome);
      assert Ends(states[i], acts[i], call, outcome);
    }
    if i :| 0 <= i < n && Ends(states[i], acts[i], call, outcome) {
      assert Ends(before[i], done[i], call, outcome);
    }
  }

  /**
    Each caller gets what its own fn came to. Whenever the fn of a call has returned a promise that
    settled, or thrown, with some outcome, the promise of the call is settled with it or still to be;
    and it is settled with nothing else.
   */
  lemma CallersGetTheirOwn(states: seq<Loop>, acts: seq<Action>, call: nat, outcome: Outcome)
    requires Trace(states, acts) && call < |states[|acts|].tasks|
    ensures var l := states[|acts|];
            && Run(call) in l.promises
            && (l.promises[Run(call)].state == Settled(outcome) ==> Ended(states, acts, call, outcome))
            && (Ended(states, acts, call, outcome) ==>
                  l.promises[Run(call)].state == Settled(outcome) || l.tasks[call] == Finished(outcome))
  {
    TraceBehaves(states, acts);
    RejectionStaysWithItsCaller(states);
    OutcomesAreEnds(states, acts, call, outcome);
  }

  // While it is still to be, the settlement can be made, and then it is made.
  lemma FinishedIsDelivered(states: seq<Loop>, acts: seq<Action>, call: nat, outcome: Outcome)
    requires Trace(states, acts) && call < |states[|acts|].tasks| && states[|acts|].tasks[call] == Finished(outcome)
    ensures var l := states[|acts|];
            && Enabled(l, Deliver(call)) && Run(call) in Step(l, Deliver(call)).promises
            && Step(l, Deliver(call)).promises[Run(call)].state == Settled(outcome)
  {
    TraceBehaves(states, acts);
    RejectionStaysWithItsCaller(states);
  }

  // While a call is not over, some step other than a new call can be taken: a job, the end of the
  // running fn, or its delivery, whether the calls before succeeded or failed.
  lemma NeverStuck(l: Loop, k: nat) returns (a: Action)
    requires Turn(l, k) && k < |l.tasks|
    ensures !a.Call? && Enabled(l, a)
  {
    a := match l.tasks[k]
      case Waiting => RunJob(None)
      case Running => Return(k, Ok(Undefined))
      case Finished(_) => Deliver(k)
      case Delivered(_) => RunJob(None);
  }

  ghost predicate Quiet(states: seq<Loop>) {
    && states != []
    && forall i :: 0 <= i < |states| - 1 ==> FollowsQuietly(states[i], states[i + 1])
  }

  ghost predicate FollowsQuietly(l: Loop, m: Loop) {
    exists a: Action :: !a.Call? && Enabled(l, a) && m == Step(l, a)
  }

  /**
    Without new calls every run of steps comes to an end, after at most four steps for each call, and
    one that cannot be continued has served every call.
   */
  lemma {:induction false} EveryCallIsServed(states: seq<Loop>, k: nat)
    requires Quiet(states) && Turn(states[0], k)
    ensures Rank(states[0], k) + |states| - 1 <= 4 * |states[0].tasks|
    ensures var last := states[|states| - 1];
            (forall a: Action :: Enabled(last, a) ==> a.Call?) ==>
              forall i :: 0 <= i < |last.tasks| ==> last.tasks[i].Delivered?
    decreases |states|
  {
    var l := states[0];
    if |states| == 1 {
      if k < |l.tasks| {
        var a := NeverStuck(l, k);
      }
    } else {
      assert FollowsQuietly(l, states[1]);
      var a: Action :| !a.Call? && Enabled(l, a) && states[1] == Step(l, a);
      var next := StepKeepsTurn(l, k, a);
      var rest := states[1..];
      forall i | 0 <= i < |rest| - 1 ensures FollowsQuietly(rest[i], rest[i + 1]) {
        assert FollowsQuietly(states[i + 1], states[i + 2]);
      }
      EveryCallIsServed(rest, next);
    }
  }

  // ---------------------------------------------------------------- the module-level variable

  class GitMutex {
    var promises: map<Ref, Promise>
    var jobs: seq<Reaction>
    var chain: Ref
    ghost var tasks: seq<Task>
    ghost var started: seq<nat>
    ghost var finished: seq<nat>
    var calls: nat

    ghost function State(): Loop
      reads this
    {
      Loop(promises, jobs, chain, tasks, started, finished)
    }

    ghost predicate Valid()
      reads this
    {
      calls == |tasks| && exists k :: Turn(State(), k)
    }

    constructor ()
      ensures Valid() && State() == INITIAL
    {
      promises, jobs, chain := map[Chain(0) := Promise(Settled(Ok(Undefined)), [])], [], Chain(0);
      tasks, started, finished, calls := [], [], [], 0;
      new;
      assert Turn(State(), 0);
    }

    method ThenOn(p: Ref, handler: Handler, derived: Ref)
      requires p in promises
      modifies `promises, `jobs
      ensures State() == Then(old(State()), p, handler, derived)
    {
      var reaction := Reaction(handler, derived);
      var target := promises[p];
      promises := promises[derived := Promise(Pending, [])];
      if target.state.Pending? {
        promises := promises[p := Promise(Pending, target.reactions + [reaction])];
      } else {
        jobs := jobs + [reaction];
      }
    }

    // run = chain.then(fn, fn); chain = run.then(forget, forget)
    method Enqueue() returns (run: Ref)
      requires calls == |tasks| && chain in promises
      modifies this
      ensures State() == Called(old(State())) && run == Run(old(calls)) && calls == old(calls) + 1
    {
      run := Run(calls);
      ThenOn(chain, Start(calls), run);
      ThenOn(run, Forget, Chain(calls + 1));
      chain := Chain(calls + 1);
      tasks := tasks + [Waiting];
      calls := calls + 1;
    }

    // Queues fn behind every earlier call and hands its own promise back.
    method WithGitMutex() returns (run: Ref)
      requires Valid()
      modifies this
      ensures Valid() && State() == Step(old(State()), Call) && run == Run(old(calls))
      ensures calls == old(calls) + 1
    {
      ghost var before := State();
      ghost var k :| Turn(before, k);
      CallKeepsTurn(before, k);
      CalledIs(before, k);
      run := Enqueue();
      assert Turn(State(), k);
    }
  }
}
