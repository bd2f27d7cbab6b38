/**
 Runs of the worker process manager: steps of the plugin thread interleaved with start
 and stop, and what they do to Windows handles.
 */
module LauncherRuns {
  import opened Common
  import opened Launcher

  // ----- Handles and calls -----------------------------------------------------------------

  /** The handles that are open after the first `n` calls. */
  function Open(calls: seq<Call>, n: nat): set<nat>
    requires n <= |calls|
  {
    if n == 0 then {}
    else
      match calls[n - 1]
      case CreateProcess(process, thread) => Open(calls, n - 1) + {process, thread}
      case Terminate(_) => Open(calls, n - 1)
      case CloseHandle(h) => Open(calls, n - 1) - {h}
  }

  /** Handle `h` was given by call `j` as a process handle and has not been closed before call `n`. */
  predicate GivenAt(calls: seq<Call>, n: nat, h: nat, j: nat)
    requires n <= |calls|
  {
    j < n && calls[j].CreateProcess? && calls[j].process == h && forall k :: j < k < n ==> calls[k] != CloseHandle(h)
  }

  /** The process behind the handle is one this manager has spawned. */
  ghost predicate OwnProcess(calls: seq<Call>, n: nat, h: nat)
    requires n <= |calls|
  {
    exists j :: GivenAt(calls, n, h, j)
  }

  /** Call `i` makes sense where it stands. */
  ghost predicate Proper(calls: seq<Call>, i: nat)
    requires i < |calls|
  {
    match calls[i]
    case CreateProcess(process, thread) => process != thread && process !in Open(calls, i) && thread !in Open(calls, i)
    case Terminate(h) => h in Open(calls, i) && OwnProcess(calls, i, h)
    case CloseHandle(h) => h in Open(calls, i)
  }

  ghost predicate AllProper(calls: seq<Call>) {
    forall i :: 0 <= i < |calls| ==> Proper(calls, i)
  }

  lemma {:induction false} OpenOfPrefix(a: seq<Call>, b: seq<Call>, n: nat)
    requires n <= |a| && n <= |b| && a[..n] == b[..n]
    ensures Open(a, n) == Open(b, n)
  {
    if n > 0 {
      assert a[..n - 1] == a[..n][..n - 1] && b[..n - 1] == b[..n][..n - 1];
      assert a[n - 1] == a[..n][n - 1] && b[n - 1] == b[..n][n - 1];
      OpenOfPrefix(a, b, n - 1);
    }
  }

  /** One more proper call, and what is open after it. */
  lemma OneMoreCall(calls: seq<Call>, call: Call)
    requires AllProper(calls)
    requires match call
             case CreateProcess(p, t) => p != t && p !in Open(calls, |calls|) && t !in Open(calls, |calls|)
             case Terminate(h) => h in Open(calls, |calls|) && OwnProcess(calls, |calls|, h)
             case CloseHandle(h) => h in Open(calls, |calls|)
    ensures AllProper(calls + [call])
    ensures Open(calls + [call], |calls| + 1) ==
            match call
            case CreateProcess(p, t) => Open(calls, |calls|) + {p, t}
            case Terminate(_) => Open(calls, |calls|)
            case CloseHandle(h) => Open(calls, |calls|) - {h}
  {
    var more := calls + [call];
    OpenOfPrefix(calls, more, |calls|);
    forall i | 0 <= i < |more|
      ensures Proper(more, i)
    {
      if i < |calls| {
        assert more[..i] == calls[..i];
        OpenOfPrefix(calls, more, i);
        assert Proper(calls, i);
        OwnOfPrefix(calls, more, i);
      } else {
        OwnOfPrefix(calls, more, |calls|);
      }
    }
  }

  lemma OwnOfPrefix(a: seq<Call>, b: seq<Call>, n: nat)
    requires n <= |a| && n <= |b| && a[..n] == b[..n]
    ensures forall h :: OwnProcess(a, n, h) ==> OwnProcess(b, n, h)
  {
    assert forall k :: 0 <= k < n ==> a[k] == a[..n][k] && b[k] == b[..n][k];
    forall h | OwnProcess(a, n, h)
      ensures OwnProcess(b, n, h)
    {
      var j :| GivenAt(a, n, h, j);
      assert GivenAt(b, n, h, j);
    }
  }

  /** Every handle that was opened is closed or still open. */
  function Opened(calls: seq<Call>, n: nat): nat
    requires n <= |calls|
  {
    if n == 0 then 0 else Opened(calls, n - 1) + if calls[n - 1].CreateProcess? then 2 else 0
  }

  function Closed(calls: seq<Call>, n: nat): nat
    requires n <= |calls|
  {
    if n == 0 then 0 else Closed(calls, n - 1) + if calls[n - 1].CloseHandle? then 1 else 0
  }

  lemma {:induction false} HandlesBalance(calls: seq<Call>, n: nat)
    requires n <= |calls| && AllProper(calls)
    ensures Opened(calls, n) == Closed(calls, n) + |Open(calls, n)|
  {
    if n > 0 {
      HandlesBalance(calls, n - 1);
      assert Proper(calls, n - 1);
    }
  }

  // ----- Runs ---------------------------------------------------------------------------------

  datatype Event = StartAsync | ThreadStep(answer: Answer) | RequestStop | FinishStop(active: bool)

  /** The caller waits inside `stop` until the thread has ended, and does nothing else meanwhile. */
  function Step(m: Manager, threshold: nat, e: Event): Manager {
    match e
    case StartAsync => if m.stopping then m else StartedAsync(m)
    case ThreadStep(answer) => Launcher.ThreadStep(m, threshold, answer)
    case RequestStop => m.(stopRequested := true, stopping := true)
    case FinishStop(active) =>
      if m.stopping && (m.thread == Absent || m.thread == Done) then FinishedStop(m, active) else m
  }

  /** New handles are two different ones that are not open; the stop flag reads as it is. */
  predicate Honest(m: Manager, e: Event) {
    e.ThreadStep? ==>
      match e.answer
      case Created(Some(h)) =>
        h.process != 0 && h.thread != 0 && h.process != h.thread
        && h.process !in Open(m.calls, |m.calls|) && h.thread !in Open(m.calls, |m.calls|)
      case Waited(stop, _, _, _) => stop == m.stopRequested
      case Ticked(stop, _, _) => stop == m.stopRequested
      case _ => true
  }

  function Run(threshold: nat, events: seq<Event>, n: nat): Manager
    requires n <= |events|
  {
    if n == 0 then IDLE else Step(Run(threshold, events, n - 1), threshold, events[n - 1])
  }

  ghost predicate AllHonest(threshold: nat, events: seq<Event>) {
    forall i :: 0 <= i < |events| ==> Honest(Run(threshold, events, i), events[i])
  }

  function Held(h: Handles): set<nat> {
    {h.process, h.thread} - {0}
  }

  /** Handles are held exactly for a spawned worker, and they are what is open. */
  ghost predicate HandlesOk(m: Manager) {
    && (m.ownership == Spawned <==> m.handles.process != 0)
    && (m.ownership == Spawned <==> m.handles.thread != 0)
    && (m.ownership == Spawned ==> m.handles.process != m.handles.thread)
    && AllProper(m.calls)
    && Open(m.calls, |m.calls|) == Held(m.handles)
    && (m.ownership == Spawned ==> OwnProcess(m.calls, |m.calls|, m.handles.process))
  }

  /** Where the thread is tells what is owned, and a manager that reports a running worker owns one. */
  predicate ThreadOk(m: Manager) {
    && (match m.thread
        case Absent => m.ownership == Unowned
        case Probing => m.ownership == Unowned
        case Spawning => m.ownership == Unowned
        case Waiting => m.ownership == Spawned
        case CleaningUp => m.ownership == Spawned && m.status != Running
        case Monitoring(_, _, _, _) => m.ownership != Unowned
        case Done => true)
    && (m.status == Running ==> m.ownership != Unowned)
  }

  lemma CallsOfSpawn(m: Manager, h: Handles)
    requires HandlesOk(m) && m.ownership == Unowned && Honest(m, ThreadStep(Created(Some(h))))
    ensures HandlesOk(SpawnedWorker(m, Some(h)))
  {
    var call := CreateProcess(h.process, h.thread);
    OneMoreCall(m.calls, call);
    assert GivenAt(m.calls + [call], |m.calls| + 1, h.process, |m.calls|);
  }

  /** Terminating if asked, then closing both handles. */
  lemma CallsOfClose(calls: seq<Call>, h: Handles, terminate: bool)
    requires AllProper(calls) && h.process != 0 && h.thread != 0 && h.process != h.thread
    requires Open(calls, |calls|) == Held(h) && OwnProcess(calls, |calls|, h.process)
    ensures var after := calls + ((if terminate then [Terminate(h.process)] else []) + CloseCalls(h));
            AllProper(after) && Open(after, |after|) == {}
  {
    var first := if terminate then calls + [Terminate(h.process)] else calls;
    if terminate {
      OneMoreCall(calls, Terminate(h.process));
    }
    OneMoreCall(first, CloseHandle(h.thread));
    OneMoreCall(first + [CloseHandle(h.thread)], CloseHandle(h.process));
    assert calls + ((if terminate then [Terminate(h.process)] else []) + CloseCalls(h))
           == first + [CloseHandle(h.thread)] + [CloseHandle(h.process)];
  }

  lemma StepKeepsHandles(m: Manager, threshold: nat, e: Event)
    requires HandlesOk(m) && ThreadOk(m) && Honest(m, e)
    ensures HandlesOk(Step(m, threshold, e))
  {
    hide AllProper, Open, OwnProcess, CloseCalls;
    if e.ThreadStep? && m.thread == Spawning && e.answer.Created? && e.answer.handles.Some? {
      CallsOfSpawn(m, e.answer.handles.value);
    } else if e.ThreadStep? && m.thread == CleaningUp {
      CallsOfClose(m.calls, m.handles, true);
    } else if e.FinishStop? && m.ownership == Spawned {
      CallsOfClose(m.calls, m.handles, e.active);
    }
  }

  lemma StepKeepsThread(m: Manager, threshold: nat, e: Event)
    requires HandlesOk(m) && ThreadOk(m)
    ensures ThreadOk(Step(m, threshold, e))
  {
    hide AllProper, Open, OwnProcess, CloseCalls, IdentityChanged;
  }

  lemma IdleIsOk()
    ensures HandlesOk(IDLE) && ThreadOk(IDLE)
  {
    assert Held(NO_HANDLES) == {};
  }

  lemma {:induction false} RunKeepsInvariant(threshold: nat, events: seq<Event>, n: nat)
    requires n <= |events| && AllHonest(threshold, events)
    ensures HandlesOk(Run(threshold, events, n)) && ThreadOk(Run(threshold, events, n))
  {
    hide HandlesOk, ThreadOk, Step;
    if n == 0 {
      IdleIsOk();
    } else {
      RunKeepsInvariant(threshold, events, n - 1);
      StepKeepsHandles(Run(threshold, events, n - 1), threshold, events[n - 1]);
      StepKeepsThread(Run(threshold, events, n - 1), threshold, events[n - 1]);
    }
  }

  /**
   Process ownership over all runs: a process handle is held exactly while the worker
   counts as spawned, the open handles are exactly those held, every handle opened is
   closed or still held, nothing is closed twice, and only spawned processes are
   terminated.
   */
  lemma ProcessesAreOwned(threshold: nat, events: seq<Event>, n: nat)
    requires n <= |events| && AllHonest(threshold, events)
    ensures var m := Run(threshold, events, n);
            && (m.ownership == Spawned <==> m.handles.process != 0)
            && Open(m.calls, |m.calls|) == Held(m.handles)
            && Opened(m.calls, |m.calls|) == Closed(m.calls, |m.calls|) + (if m.ownership == Spawned then 2 else 0)
            && AllProper(m.calls)
  {
    RunKeepsInvariant(threshold, events, n);
    var m := Run(threshold, events, n);
    HandlesBalance(m.calls, |m.calls|);
    assert m.ownership != Spawned ==> Held(m.handles) == {};
  }

  lemma NothingHeld(m: Manager, active: bool)
    requires HandlesOk(m)
    ensures FinishedStop(m, active).handles == NO_HANDLES
  {
    hide AllProper, Open, OwnProcess, CloseCalls;
  }

  /** After `stop` nothing is held, nothing is open, and the manager can start again. */
  lemma NothingHeldAfterStop(threshold: nat, events: seq<Event>, n: nat)
    requires n < |events| && AllHonest(threshold, events) && events[n].FinishStop?
    requires var m := Run(threshold, events, n); m.stopping && (m.thread == Absent || m.thread == Done)
    ensures var m := Run(threshold, events, n + 1);
            && m.ownership == Unowned && m.handles == NO_HANDLES && m.status == NotStarted
            && Open(m.calls, |m.calls|) == {}
            && StartedAsync(m).thread == Probing
  {
    hide AllProper, Open, OwnProcess, Launcher.ThreadStep, CloseCalls, ThreadOk;
    RunKeepsInvariant(threshold, events, n);
    RunKeepsInvariant(threshold, events, n + 1);
    var before, m := Run(threshold, events, n), Run(threshold, events, n + 1);
    assert m == FinishedStop(before, events[n].active);
    NothingHeld(before, events[n].active);
    assert Held(NO_HANDLES) == {};
  }

  /** In every run a manager that reports a running worker owns one, spawned or reused. */
  lemma RunningMeansOwned(threshold: nat, events: seq<Event>, n: nat)
    requires n <= |events| && AllHonest(threshold, events) && Run(threshold, events, n).status == Running
    ensures Run(threshold, events, n).ownership != Unowned
  {
    RunKeepsInvariant(threshold, events, n);
  }

  /** How many more steps the thread takes once the stop flag is set. */
  function StepsLeft(t: Thread): nat {
    match t
    case Absent => 0
    case Probing => 4
    case Spawning => 3
    case Waiting => 2
    case CleaningUp => 1
    case Monitoring(_, _, _, _) => 1
    case Done => 0
  }

  /** How many of the events from `from` on are steps that the thread takes. */
  function StepsTaken(threshold: nat, events: seq<Event>, from: nat, n: nat): nat
    requires from <= n <= |events|
    decreases n
  {
    if from == n then 0
    else StepsTaken(threshold, events, from, n - 1) + if Takes(Run(threshold, events, n - 1), events[n - 1]) then 1 else 0
  }

  predicate Takes(m: Manager, e: Event) {
    e.ThreadStep? && Fits(m.thread, e.answer)
  }

  /** One event of a stopping manager, other than the end of `stop`. */
  lemma StoppingStep(m: Manager, threshold: nat, e: Event)
    requires m.stopping && m.stopRequested && Honest(m, e) && !e.FinishStop?
    ensures var next := Step(m, threshold, e);
            && next.stopping && next.stopRequested
            && StepsLeft(next.thread) + (if Takes(m, e) then 1 else 0) <= StepsLeft(m.thread) <= 4
            && (Takes(m, e) && StepsLeft(next.thread) == 0 ==> next.thread == Done)
            && (!Takes(m, e) ==> next.thread == m.thread)
  {
    hide IdentityChanged, Open;
  }

  /** Stopping means that the stop flag is set. */
  lemma {:induction false} StoppingIsRequested(threshold: nat, events: seq<Event>, n: nat)
    requires n <= |events|
    ensures Run(threshold, events, n).stopping ==> Run(threshold, events, n).stopRequested
  {
    if n > 0 {
      StoppingIsRequested(threshold, events, n - 1);
      StopFlagStays(Run(threshold, events, n - 1), threshold, events[n - 1]);
    }
  }

  lemma StopFlagStays(m: Manager, threshold: nat, e: Event)
    requires m.stopping ==> m.stopRequested
    ensures Step(m, threshold, e).stopping ==> Step(m, threshold, e).stopRequested
  {
    hide IdentityChanged, CloseCalls;
  }

  /**
   `stop` does not hang. From any reachable state in which `stop` waits, whatever happens
   in between, the thread takes at most four more steps; after four it is done, and as long
   as it is not done it has a step to take.
   */
  lemma {:induction false} StoppingThreadEnds(threshold: nat, events: seq<Event>, from: nat, n: nat)
    requires from <= n <= |events| && AllHonest(threshold, events) && Run(threshold, events, from).stopping
    requires forall i :: from <= i < n ==> !events[i].FinishStop?
    ensures var m, taken := Run(threshold, events, n), StepsTaken(threshold, events, from, n);
            && m.stopping && m.stopRequested
            && taken + StepsLeft(m.thread) <= StepsLeft(Run(threshold, events, from).thread) <= 4
            && (taken > 0 && StepsLeft(m.thread) == 0 ==> m.thread == Done)
            && (taken == 4 ==> m.thread == Done)
            && (m.thread != Absent && m.thread != Done ==>
                  exists a :: Takes(m, ThreadStep(a)) && Honest(m, ThreadStep(a)))
    decreases n
  {
    hide Step, Honest;
    if from == n {
      StoppingIsRequested(threshold, events, n);
    } else {
      StoppingThreadEnds(threshold, events, from, n - 1);
      StoppingStep(Run(threshold, events, n - 1), threshold, events[n - 1]);
    }
    var m := Run(threshold, events, n);
    if m.thread != Absent && m.thread != Done {
      ThreadCanStep(m);
    }
  }

  /** A thread that has not ended has a step to take, whatever the flag says. */
  lemma ThreadCanStep(m: Manager)
    requires m.thread != Absent && m.thread != Done
    ensures exists a :: Takes(m, ThreadStep(a)) && Honest(m, ThreadStep(a))
  {
    var probe := Probe(Unreachable, Identity("", "", ""));
    var a := match m.thread
      case Probing => Preflighted(None, probe)
      case Spawning => Created(None)
      case Waiting => Waited(m.stopRequested, false, false, probe)
      case CleaningUp => CleanedUp
      case _ => Ticked(m.stopRequested, false, probe);
    assert Takes(m, ThreadStep(a)) && Honest(m, ThreadStep(a));
  }
}
