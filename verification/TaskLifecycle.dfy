/** The stop protocol of a background task (src/core/backgroundTaskManager.ts), as an event machine. */
module TaskLifecycles {
  import opened Prelude

  datatype Status = Running | Completed | Failed | Stopped

  datatype Signal = Term | Kill

  // Whom a signal reached: the process group, else the process alone, else nobody.
  datatype Reach = Group | Single | Nobody

  datatype Sending = Sending(signal: Signal, reach: Reach)

  datatype TaskState = TaskState(
    spawned: bool,           // there is a child process whose events are listened to
    pid: Option<nat>,        // a child that failed to spawn has none
    held: bool,              // the process handle is kept
    ended: bool,             // the process is gone, whether or not that has been noticed
    exitCode: Option<int>,   // the handle's exit code: unset while it lives, and when a signal ended it
    stopped: bool,
    slot: bool,              // the kill-timer slot is filled
    pending: nat,            // escalation timers that may still fire
    listener: bool,          // an abort of the outer signal is listened to
    microtask: bool,         // a built-in evaluation is queued instead of a process
    status: Status,
    code: Option<int>,       // the exit code reported
    sent: seq<Sending>
  )

  // How an error event ends: EPERM on a node one-liner is evaluated in-process instead.
  datatype Outcome = Plain | Evaluated(ok: bool)

  datatype Event =
    | Stop(reach: Reach)
    | Abort(reach: Reach)
    | Timer(reach: Reach)
    | Exit(exit: Option<int>)
    | Close(closeCode: Option<int>)
    | Error(outcome: Outcome)
    | Microtask(ok: bool)

  // ---------------------------------------------------------------- one event

  function Signalled(t: TaskState, signal: Signal, reach: Reach): TaskState {
    if t.pid.None? then t else t.(sent := t.sent + [Sending(signal, reach)])
  }

  function Stopping(t: TaskState, reach: Reach): TaskState {
    if !t.held || t.stopped then t
    else Signalled(t, Term, reach).(stopped := true, slot := true, pending := t.pending + 1, status := Stopped)
  }

  function Firing(t: TaskState, reach: Reach): TaskState {
    if t.pending == 0 then t
    else
      var u := t.(slot := false, pending := t.pending - 1);
      if !u.held || u.exitCode.Some? then u else Signalled(u, Kill, reach)
  }

  // The abort listener is dropped and the timer in the slot is cleared.
  function Released(t: TaskState): TaskState {
    t.(listener := false, slot := false, pending := if t.slot && t.pending > 0 then t.pending - 1 else t.pending)
  }

  function Settled(t: TaskState, status: Status, code: Option<int>): TaskState {
    if t.stopped || t.status != Running then t else t.(status := status, code := code)
  }

  function Closing(t: TaskState, code: Option<int>): TaskState {
    Settled(Released(t).(held := false), if code == Some(0) then Completed else Failed, code)
  }

  function Evaluating(t: TaskState, ok: bool): TaskState {
    t.(status := if ok then Completed else Failed, code := Some(if ok then 0 else -1), held := false)
  }

  function Erring(t: TaskState, outcome: Outcome): TaskState {
    if outcome.Evaluated? then Evaluating(Released(t), outcome.ok)
    else Settled(Released(t).(held := false), Failed, Some(-1))
  }

  // Events that cannot occur in a state leave it as it is.
  function Step(t: TaskState, e: Event): TaskState {
    match e
    case Stop(reach) => Stopping(t, reach)
    case Abort(reach) => if t.listener then Stopping(t.(listener := false), reach) else t
    case Timer(reach) => Firing(t, reach)
    case Exit(exit) => if t.spawned && !t.ended then t.(ended := true, exitCode := exit) else t
    case Close(code) => if t.spawned then Closing(t, code) else t
    case Error(outcome) => if t.spawned then Erring(t, outcome) else t
    case Microtask(ok) => if t.microtask then Evaluating(t.(microtask := false), ok) else t
  }

  function Run(t: TaskState, es: seq<Event>): TaskState
    decreases |es|
  {
    if es == [] then t else Run(Step(t, es[0]), es[1..])
  }

  // The three ways a task comes into being.
  function Spawned(pid: Option<nat>, listener: bool): TaskState {
    TaskState(true, pid, true, false, None, false, false, 0, listener, false, Running, None, [])
  }

  function PreAborted(): TaskState {
    TaskState(false, None, false, false, None, true, false, 0, false, false, Stopped, Some(-1), [])
  }

  function Queued(): TaskState {
    TaskState(false, None, false, false, None, false, false, 0, false, true, Running, None, [])
  }

  predicate Initial(t: TaskState) {
    t == PreAborted() || t == Queued() || t == Spawned(t.pid, t.listener)
  }

  // ---------------------------------------------------------------- what every event keeps

  // Nothing, one SIGTERM, or one SIGTERM and then one SIGKILL.
  predicate AtMostOneOfEach(sent: seq<Sending>) {
    || sent == []
    || (|sent| == 1 && sent[0].signal == Term)
    || (|sent| == 2 && sent[0].signal == Term && sent[1].signal == Kill)
  }

  predicate Inv(t: TaskState) {
    && t.pending == (if t.slot then 1 else 0)
    && (t.slot ==> t.stopped && t.held)
    && (t.held ==> t.spawned)
    && (t.held && !t.stopped ==> t.status == Running)
    && (t.stopped ==> t.status != Running)
    && (t.microtask ==> !t.spawned && !t.stopped && t.status == Running)
    && AtMostOneOfEach(t.sent)
    && (!t.stopped || t.pid.None? ==> t.sent == [])
    && (t.stopped && t.pid.Some? ==> t.sent != [])
    && (t.slot ==> |t.sent| <= 1)
    && (t.exitCode.Some? ==> t.ended)
  }

  lemma StoppingKeepsInv(t: TaskState, reach: Reach)
    requires Inv(t)
    ensures Inv(Stopping(t, reach))
  {
  }

  lemma FiringKeepsInv(t: TaskState, reach: Reach)
    requires Inv(t)
    ensures Inv(Firing(t, reach))
  {
  }

  lemma StepKeepsInv(t: TaskState, e: Event)
    requires Inv(t)
    ensures Inv(Step(t, e))
  {
    match e
    case Stop(reach) => StoppingKeepsInv(t, reach);
    case Abort(reach) => StoppingKeepsInv(t.(listener := false), reach);
    case Timer(reach) => FiringKeepsInv(t, reach);
    case _ =>
  }

  /**
    Over every interleaving of stops, aborts, timer firings, exits, closes and errors, at most one
    SIGTERM and at most one SIGKILL are sent, the SIGKILL second, and at most one timer is armed.
   */
  lemma {:induction false} RunKeepsInv(t: TaskState, es: seq<Event>)
    requires Inv(t)
    ensures Inv(Run(t, es))
    decreases |es|
  {
    if es != [] {
      StepKeepsInv(t, es[0]);
      RunKeepsInv(Step(t, es[0]), es[1..]);
    }
  }

  lemma EveryTaskSignalsAtMostOnce(t: TaskState, es: seq<Event>)
    requires Initial(t)
    ensures AtMostOneOfEach(Run(t, es).sent) && Run(t, es).pending <= 1
  {
    RunKeepsInv(t, es);
  }

  lemma {:induction false} RunSplits(t: TaskState, es: seq<Event>, fs: seq<Event>)
    ensures Run(t, es + fs) == Run(Run(t, es), fs)
    decreases |es|
  {
    if es == [] {
      assert es + fs == fs;
    } else {
      assert (es + fs)[1..] == es[1..] + fs;
      RunSplits(Step(t, es[0]), es[1..], fs);
    }
  }

  // ---------------------------------------------------------------- the handle guards every signal

  // Once the handle is released nothing is ever sent again, and it is never taken back.
  lemma {:induction false} ReleasedIsSilent(t: TaskState, es: seq<Event>)
    requires Inv(t) && !t.held
    ensures !Run(t, es).held && Run(t, es).sent == t.sent
    decreases |es|
  {
    if es != [] {
      StepKeepsInv(t, es[0]);
      ReleasedIsSilent(Step(t, es[0]), es[1..]);
    }
  }

  // No event retracts a signal or the stop, or swaps the process.
  predicate Grows(t: TaskState, u: TaskState) {
    && |t.sent| <= |u.sent| && (forall i :: 0 <= i < |t.sent| ==> u.sent[i] == t.sent[i])
    && (t.stopped ==> u.stopped)
    && u.spawned == t.spawned && u.pid == t.pid
  }

  lemma StepGrows(t: TaskState, e: Event)
    ensures Grows(t, Step(t, e))
  {
    match e
    case Stop(reach) => StoppingGrows(t, reach);
    case Abort(reach) => StoppingGrows(t.(listener := false), reach);
    case Timer(reach) => FiringGrows(t, reach);
    case _ =>
  }

  lemma StoppingGrows(t: TaskState, reach: Reach)
    ensures Grows(t, Stopping(t, reach))
  {
  }

  lemma FiringGrows(t: TaskState, reach: Reach)
    ensures Grows(t, Firing(t, reach))
  {
  }

  lemma {:induction false} RunGrows(t: TaskState, es: seq<Event>)
    ensures Grows(t, Run(t, es))
    decreases |es|
  {
    if es != [] {
      var u := Step(t, es[0]);
      StepGrows(t, es[0]);
      RunGrows(u, es[1..]);
    }
  }

  // After a close or an error of the child, whatever came before and whatever comes after, it is
  // never signalled again.
  lemma CloseSilences(t: TaskState, es: seq<Event>, e: Event, fs: seq<Event>)
    requires Initial(t) && t.spawned && (e.Close? || e.Error?)
    ensures Run(t, es + ([e] + fs)).sent == Run(t, es).sent
  {
    RunKeepsInv(t, es);
    RunGrows(t, es);
    RunSplits(t, es, [e] + fs);
    SilentFrom(Run(t, es), e, fs);
  }

  lemma SilentFrom(t: TaskState, e: Event, es: seq<Event>)
    requires Inv(t) && t.spawned && (e.Close? || e.Error?)
    ensures Run(t, [e] + es).sent == t.sent
  {
    StepKeepsInv(t, e);
    RunStep(t, e, es);
    ReleasedIsSilent(Step(t, e), es);
  }

  lemma RunStep(t: TaskState, e: Event, es: seq<Event>)
    ensures Run(t, [e] + es) == Run(Step(t, e), es)
  {
    assert ([e] + es)[1..] == es;
  }

  predicate Sends(t: TaskState, e: Event, signal: Signal) {
    var after := Step(t, e).sent;
    |after| == |t.sent| + 1 && after[|t.sent|].signal == signal
  }

  // A SIGKILL goes to a process that is already gone exactly when a signal had ended it and neither
  // close nor error has been seen: its exit code is then unset, which reads as still alive.
  lemma KillMissesOnlySignalDeaths(t: TaskState, e: Event)
    requires Inv(t) && t.ended
    ensures Sends(t, e, Kill) <==> e.Timer? && t.slot && t.exitCode.None? && t.pid.Some?
  {
  }

  // The same for SIGTERM: a first stop after the exit and before the close still signals.
  lemma TermMissesOnlyBeforeClose(t: TaskState, e: Event)
    requires Inv(t) && t.ended
    ensures Sends(t, e, Term) <==> (e.Stop? || (e.Abort? && t.listener)) && t.held && !t.stopped && t.pid.Some?
  {
  }

  // Both happen: a child ended by the SIGTERM itself, its pipes still open, is sent the SIGKILL too.
  lemma EscalationOutlivesProcess(pid: nat)
    ensures var es := [Stop(Group), Exit(None), Timer(Nobody)];
            Run(Spawned(Some(pid), false), es).sent == [Sending(Term, Group), Sending(Kill, Nobody)]
  {
    var t0 := Spawned(Some(pid), false);
    var t1 := Step(t0, Stop(Group));
    var t2 := Step(t1, Exit(None));
    var t3 := Step(t2, Timer(Nobody));
    assert Run(t3, []) == t3;
    assert Run(t2, [Timer(Nobody)]) == t3;
    assert Run(t1, [Exit(None), Timer(Nobody)]) == t3 by {
      assert [Exit(None), Timer(Nobody)][1..] == [Timer(Nobody)];
    }
    assert [Stop(Group), Exit(None), Timer(Nobody)][1..] == [Exit(None), Timer(Nobody)];
  }

  // A stop between the exit and the close, as a child with open pipes leaves room for, signals too.
  lemma StopAfterExitSignals(pid: nat)
    ensures var t := Run(Spawned(Some(pid), false), [Exit(Some(0)), Stop(Nobody)]);
            t.ended && t.exitCode == Some(0) && t.sent == [Sending(Term, Nobody)]
  {
    var t1 := Step(Spawned(Some(pid), false), Exit(Some(0)));
    assert [Exit(Some(0)), Stop(Nobody)][1..] == [Stop(Nobody)];
    assert Run(t1, [Stop(Nobody)]) == Run(Step(t1, Stop(Nobody)), []);
  }

  // A process seen to exit with a code is never sent the SIGKILL after that.
  lemma {:induction false} CodeSpares(t: TaskState, es: seq<Event>)
    requires Inv(t) && t.exitCode.Some?
    ensures |t.sent| <= |Run(t, es).sent|
    ensures forall k :: |t.sent| <= k < |Run(t, es).sent| ==> Run(t, es).sent[k].signal == Term
    decreases |es|
  {
    if es != [] {
      var u := Step(t, es[0]);
      StepKeepsInv(t, es[0]);
      StepSpares(t, es[0]);
      CodeSpares(u, es[1..]);
      RunGrows(u, es[1..]);
    }
  }

  lemma StepSpares(t: TaskState, e: Event)
    requires Inv(t) && t.exitCode.Some?
    ensures var u := Step(t, e);
            u.exitCode.Some? && |t.sent| <= |u.sent| <= |t.sent| + 1
            && forall k :: |t.sent| <= k < |u.sent| ==> u.sent[k].signal == Term
  {
  }

  lemma ExitSparesProcess(t: TaskState, code: int, es: seq<Event>)
    requires Inv(t) && t.spawned && !t.ended
    ensures var u := Run(Step(t, Exit(Some(code))), es);
            && |t.sent| <= |u.sent|
            && forall k :: |t.sent| <= k < |u.sent| ==> u.sent[k].signal == Term
  {
    StepKeepsInv(t, Exit(Some(code)));
    CodeSpares(Step(t, Exit(Some(code))), es);
  }

  // ---------------------------------------------------------------- the escalation is not lost

  // Neither a close, nor an error, nor an exit code has been seen.
  predicate Surviving(es: seq<Event>) {
    forall e :: e in es ==> !e.Close? && !e.Error? && (e.Exit? ==> e.exit.None?)
  }

  // A stopped process that does not go away is sent the SIGKILL, however often it is stopped again.
  lemma {:induction false} EscalationHappens(t: TaskState, es: seq<Event>)
    requires Inv(t) && t.slot && t.exitCode.None? && t.pid.Some?
    requires Surviving(es) && exists e :: e in es && e.Timer?
    ensures |Run(t, es).sent| == 2 && Run(t, es).sent[1].signal == Kill
    decreases |es|
  {
    var u := Step(t, es[0]);
    StepKeepsInv(t, es[0]);
    if es[0].Timer? {
      assert |u.sent| == 2;
      RunGrows(u, es[1..]);
      RunKeepsInv(u, es[1..]);
    } else {
      var e :| e in es && e.Timer?;
      assert e in es[1..];
      EscalationHappens(u, es[1..]);
    }
  }

  // ---------------------------------------------------------------- finality of the status

  predicate Terminal(s: Status) {
    s != Running
  }

  // Events that evaluate a node one-liner in-process after an EPERM.
  predicate Overwrites(t: TaskState, e: Event) {
    e.Error? && e.outcome.Evaluated? && t.spawned && t.status != (if e.outcome.ok then Completed else Failed)
  }

  // One event changes a terminal status exactly when it is that evaluation, with the other result.
  lemma TerminalChangesExactly(t: TaskState, e: Event)
    requires Inv(t) && Terminal(t.status)
    ensures Step(t, e).status != t.status <==> Overwrites(t, e)
  {
  }

  lemma {:induction false} TerminalIsFinal(t: TaskState, es: seq<Event>)
    requires Inv(t) && Terminal(t.status)
    requires forall e :: e in es ==> !Evaluates(e)
    ensures Run(t, es).status == t.status && Run(t, es).code == t.code
    decreases |es|
  {
    if es != [] {
      assert !Evaluates(es[0]);
      StepKeepsInv(t, es[0]);
      TerminalIsFinal(Step(t, es[0]), es[1..]);
    }
  }

  // A stop is undone by that evaluation.
  lemma EvaluationOverwritesStop(reach: Reach)
    ensures Run(Spawned(None, false), [Stop(reach), Error(Evaluated(true))]).status == Completed
  {
    var t1 := Step(Spawned(None, false), Stop(reach));
    assert [Stop(reach), Error(Evaluated(true))][1..] == [Error(Evaluated(true))];
    assert Run(t1, [Error(Evaluated(true))]) == Run(Step(t1, Error(Evaluated(true))), []);
  }

  // ---------------------------------------------------------------- what status a task ends with

  predicate Ends(e: Event) {
    e.Close? || e.Error?
  }

  predicate Evaluates(e: Event) {
    e.Error? && e.outcome.Evaluated?
  }

  // A stop, or an abort that is heard because a signal was given.
  predicate Halts(e: Event, signal: bool) {
    e.Stop? || (e.Abort? && signal)
  }

  ghost predicate Halted(es: seq<Event>, signal: bool) {
    exists e :: e in es && Halts(e, signal)
  }

  // Neither a close nor an error has come.
  predicate Open(t: TaskState, signal: bool) {
    && t.spawned && t.held && t.code == None && !t.microtask
    && t.status == (if t.stopped then Stopped else Running)
    && (!t.stopped ==> t.listener == signal)
  }

  lemma StaysOpen(t: TaskState, e: Event, signal: bool)
    requires Open(t, signal) && !Ends(e)
    ensures Open(Step(t, e), signal) && (Step(t, e).stopped <==> t.stopped || Halts(e, signal))
  {
  }

  lemma {:induction false} OpenRun(t: TaskState, es: seq<Event>, signal: bool)
    requires Open(t, signal) && forall e :: e in es ==> !Ends(e)
    ensures Open(Run(t, es), signal) && (Run(t, es).stopped <==> t.stopped || Halted(es, signal))
    decreases |es|
  {
    if es != [] {
      StaysOpen(t, es[0], signal);
      OpenRun(Step(t, es[0]), es[1..], signal);
      assert es == [es[0]] + es[1..];
    }
  }

  // Until then it is running, unless it was stopped.
  lemma StatusWhileOpen(pid: Option<nat>, signal: bool, es: seq<Event>)
    requires forall e :: e in es ==> !Ends(e)
    ensures var t := Run(Spawned(pid, signal), es);
            t.status == (if Halted(es, signal) then Stopped else Running) && t.code == None
  {
    OpenRun(Spawned(pid, signal), es, signal);
  }

  lemma EndDecides(t: TaskState, end: Event, signal: bool)
    requires Open(t, signal) && Ends(end) && !Evaluates(end)
    ensures var u := Step(t, end);
            if t.stopped then u.status == Stopped && u.code == None
            else if end.Error? then u.status == Failed && u.code == Some(-1)
            else u.status == (if end.closeCode == Some(0) then Completed else Failed) && u.code == end.closeCode
  {
  }

  lemma RunAround(t: TaskState, es: seq<Event>, i: nat)
    requires i < |es|
    ensures Run(t, es) == Run(Step(Run(t, es[..i]), es[i]), es[i + 1..])
  {
    assert es == es[..i] + ([es[i]] + es[i + 1..]);
    RunSplits(t, es[..i], [es[i]] + es[i + 1..]);
    RunStep(Run(t, es[..i]), es[i], es[i + 1..]);
  }

  /**
    The status and exit code a process ends with are decided by its first close or error, at i, and by
    whether a stop or a heard abort came before it: stopped; else failed with code -1 after an error,
    and after a close completed for exit code 0 alone, with the code it closed with.
   */
  lemma FinalStatus(pid: Option<nat>, signal: bool, es: seq<Event>, i: nat)
    requires i < |es| && Ends(es[i]) && (forall j :: 0 <= j < i ==> !Ends(es[j]))
    requires forall e :: e in es ==> !Evaluates(e)
    ensures var t := Run(Spawned(pid, signal), es);
            if Halted(es[..i], signal) then t.status == Stopped && t.code == None
            else if es[i].Error? then t.status == Failed && t.code == Some(-1)
            else t.status == (if es[i].closeCode == Some(0) then Completed else Failed) && t.code == es[i].closeCode
  {
    var t := Run(Spawned(pid, signal), es[..i]);
    OpenRun(Spawned(pid, signal), es[..i], signal);
    RunKeepsInv(Spawned(pid, signal), es[..i]);
    EndDecides(t, es[i], signal);
    StepKeepsInv(t, es[i]);
    RunAround(Spawned(pid, signal), es, i);
    TerminalIsFinal(Step(t, es[i]), es[i + 1..]);
  }

  // If a node one-liner is evaluated instead, after an EPERM, the last evaluation decides.
  lemma EvaluationDecides(t: TaskState, es: seq<Event>, i: nat)
    requires Initial(t) && t.spawned && i < |es| && Evaluates(es[i])
    requires forall j :: i < j < |es| ==> !Evaluates(es[j])
    ensures var ok := es[i].outcome.ok;
            && Run(t, es).status == (if ok then Completed else Failed)
            && Run(t, es).code == Some(if ok then 0 else -1)
  {
    var u := Run(t, es[..i]);
    RunKeepsInv(t, es[..i]);
    RunGrows(t, es[..i]);
    StepKeepsInv(u, es[i]);
    RunAround(t, es, i);
    TerminalIsFinal(Step(u, es[i]), es[i + 1..]);
  }

  // A one-liner evaluated without a process ends as it came out, and a task whose signal was aborted
  // before the start is stopped with code -1.
  lemma {:induction false} UnspawnedStays(t: TaskState, es: seq<Event>)
    requires !t.spawned && !t.held && !t.listener && t.pending == 0 && !t.microtask
    ensures Run(t, es) == t
    decreases |es|
  {
    if es != [] {
      UnspawnedStays(t, es[1..]);
    }
  }

  lemma {:induction false} QueuedWaits(es: seq<Event>)
    requires forall e :: e in es ==> !e.Microtask?
    ensures Run(Queued(), es) == Queued()
    decreases |es|
  {
    if es != [] {
      QueuedWaits(es[1..]);
    }
  }

  lemma UnspawnedStatus(es: seq<Event>, i: nat)
    requires i < |es| && es[i].Microtask? && forall j :: 0 <= j < i ==> !es[j].Microtask?
    ensures var t, ok := Run(Queued(), es), es[i].ok;
            t.status == (if ok then Completed else Failed) && t.code == Some(if ok then 0 else -1)
    ensures var t := Run(PreAborted(), es); t.status == Stopped && t.code == Some(-1)
    ensures Run(Queued(), es).sent == [] && Run(PreAborted(), es).sent == []
  {
    QueuedWaits(es[..i]);
    RunAround(Queued(), es, i);
    UnspawnedStays(Step(Queued(), es[i]), es[i + 1..]);
    UnspawnedStays(PreAborted(), es);
  }

  // ---------------------------------------------------------------- the objects

  class InternalTask {
    const spawned: bool
    const pid: Option<nat>
    var held: bool
    var ended: bool
    var exitCode: Option<int>
    var stopped: bool
    var slot: bool
    var pending: nat
    var listener: bool
    var microtask: bool
    var status: Status
    var code: Option<int>
    var sent: seq<Sending>

    ghost function State(): TaskState
      reads this
    {
      TaskState(spawned, pid, held, ended, exitCode, stopped, slot, pending, listener, microtask, status, code, sent)
    }

    // evaluable: a node one-liner that can be evaluated in-process; aborted: the outer signal already is.
    constructor (evaluable: bool, aborted: bool, pid: Option<nat>, signal: bool)
      ensures Initial(State()) && Inv(State())
      ensures evaluable ==> State() == Queued()
      ensures !evaluable && aborted ==> State() == PreAborted()
      ensures !evaluable && !aborted ==> State() == Spawned(pid, signal)
    {
      var bare := evaluable || aborted;
      spawned, this.pid, held, listener := !bare, if bare then None else pid, !bare, !bare && signal;
      ended, exitCode, slot, pending, sent := false, None, false, 0, [];
      microtask := evaluable;
      stopped := !evaluable && aborted;
      status := if !evaluable && aborted then Stopped else Running;
      code := if !evaluable && aborted then Some(-1) else None;
    }

    // Tries the group first and the process alone if that fails; never both successfully.
    method KillProcessTree(signal: Signal) returns (reach: Reach)
      modifies `sent
      ensures State() == Signalled(old(State()), signal, reach)
    {
      if pid.None? { return Nobody; }
      var group, single := *, *;
      reach := if group then Group else if single then Single else Nobody;
      sent := sent + [Sending(signal, reach)];
    }

    // True exactly for the call that does the stopping.
    method StopInternal() returns (signalled: bool, ghost reach: Reach)
      modifies this
      ensures State() == Step(old(State()), Stop(reach))
      ensures signalled <==> State() != old(State())
      ensures signalled <==> old(held) && !old(stopped)
    {
      reach := Nobody;
      if !held || stopped { return false, reach; }
      stopped := true;
      var r := KillProcessTree(Term);
      reach := r;
      slot, pending := true, pending + 1;
      status := Stopped;
      signalled := true;
    }

    method OnTimer() returns (ghost reach: Reach)
      requires pending > 0
      modifies this
      ensures State() == Step(old(State()), Timer(reach))
    {
      reach := Nobody;
      slot, pending := false, pending - 1;
      if !held { return; }
      if exitCode.Some? { return; }
      var r := KillProcessTree(Kill);
      reach := r;
    }

    method OnAbort() returns (ghost reach: Reach)
      requires listener
      modifies this
      ensures State() == Step(old(State()), Abort(reach))
    {
      listener := false;
      var _, r := StopInternal();
      reach := r;
    }

    method OnExit(exit: Option<int>)
      requires spawned && !ended
      modifies this
      ensures State() == Step(old(State()), Exit(exit))
    {
      ended, exitCode := true, exit;
    }

    method ReleaseTimer()
      modifies this
      ensures State() == Released(old(State()))
    {
      listener := false;
      if slot {
        if pending > 0 { pending := pending - 1; }
        slot := false;
      }
    }

    method OnClose(closeCode: Option<int>)
      requires spawned
      modifies this
      ensures State() == Step(old(State()), Close(closeCode))
    {
      ReleaseTimer();
      held := false;
      if stopped { return; }
      if status != Running { return; }
      code := closeCode;
      status := if closeCode == Some(0) then Completed else Failed;
    }

    method OnError(outcome: Outcome)
      requires spawned
      modifies this
      ensures State() == Step(old(State()), Error(outcome))
    {
      ReleaseTimer();
      if outcome.Evaluated? {
        RunNodeEvalFallback(outcome.ok);
        return;
      }
      held := false;
      if stopped { return; }
      if status != Running { return; }
      code := Some(-1);
      status := Failed;
    }

    method OnMicrotask(ok: bool)
      requires microtask
      modifies this
      ensures State() == Step(old(State()), Microtask(ok))
    {
      microtask := false;
      RunNodeEvalFallback(ok);
    }

    method RunNodeEvalFallback(ok: bool)
      modifies this
      ensures State() == Evaluating(old(State()), ok)
    {
      if ok {
        code, status := Some(0), Completed;
      } else {
        code, status := Some(-1), Failed;
      }
      held := false;
    }
  }

  predicate StoppedWith(before: TaskState, after: TaskState, reach: Reach) {
    after == Step(before, Stop(reach))
  }

  // One stop was made, however the signal fared, and is not left running with its handle.
  ghost predicate Disposed(before: TaskState, after: TaskState) {
    && (exists reach :: StoppedWith(before, after, reach))
    && Inv(after)
    && (after.held ==> after.stopped)
  }

  class BackgroundTaskManager {
    var tasks: seq<InternalTask>

    ghost predicate Valid()
      reads this, tasks
    {
      && (forall i, j :: 0 <= i < j < |tasks| ==> tasks[i] != tasks[j])
      && forall t :: t in tasks ==> Inv(t.State())
    }

    constructor ()
      ensures Valid() && tasks == []
    {
      tasks := [];
    }

    method StopRunning(t: InternalTask)
      requires Inv(t.State())
      modifies t
      ensures Disposed(old(t.State()), t.State())
    {
      ghost var before := t.State();
      ghost var reach := Nobody;
      if t.status == Running {
        var _, r := t.StopInternal();
        reach := r;
      }
      assert StoppedWith(before, t.State(), reach);
      StepKeepsInv(before, Stop(reach));
    }

    // Stops every task that reports itself as running and forgets them all. That is as good as a stop
    // of every task: no process is left with its handle held and no stop sent.
    method Dispose()
      requires Valid()
      modifies this, tasks
      ensures tasks == []
      ensures forall t :: t in old(tasks) ==> Disposed(old(t.State()), t.State())
    {
      for i := 0 to |tasks|
        modifies tasks
        invariant tasks == old(tasks)
        invariant forall k :: 0 <= k < i ==> Disposed(old(tasks[k].State()), tasks[k].State())
        invariant forall k :: i <= k < |tasks| ==> tasks[k].State() == old(tasks[k].State())
      {
        StopRunning(tasks[i]);
      }
      tasks := [];
    }
  }
}
