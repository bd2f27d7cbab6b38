/**
 The worker process manager of app/plugin/src/worker-launcher.cpp: a plugin thread that
 probes for a worker, spawns one if there is none, waits until it is ready and watches
 it, and a caller that starts and stops this thread. What Windows and the network answer
 are inputs. Windows handles are numbers, with zero for none.
 */
module Launcher {
  import opened Common

  datatype Ownership = Unowned | Spawned | Reused

  datatype Diagnostic =
    NotStarted | Starting | Running | Unhealthy | ConfigError | RuntimeDirError | ApiMismatch | Crashed

  /** What the checks before the first probe can find wrong. */
  datatype BadConfig = NoUserDataDir | BadUserDataDir

  datatype ProbeStatus = Reachable | ApiIncompatible | RuntimeRootMismatch | InvalidResponse | Unreachable

  datatype Identity = Identity(instance: string, pid: string, startedAt: string)

  datatype Probe = Probe(status: ProbeStatus, identity: Identity)

  datatype Handles = Handles(process: nat, thread: nat)

  const NO_HANDLES: Handles := Handles(0, 0)

  /** A call to the operating system that concerns handles. */
  datatype Call = CreateProcess(process: nat, thread: nat) | Terminate(handle: nat) | CloseHandle(closed: nat)

  /** How far the plugin thread is; `Done` is a thread that has ended but is not joined yet. */
  datatype Thread =
    | Absent
    | Probing
    | Spawning
    | Waiting
    | CleaningUp
    | Monitoring(failures: nat, timeoutReported: bool, replacementReported: bool, baseline: Identity)
    | Done

  /**
   What a step of the thread meets: the checks of the configuration and the preflight
   probe, the outcome of CreateProcess, one round of waiting, the cleanup, one heartbeat.
   `stop` is the value of the stop flag that the step reads.
   */
  datatype Answer =
    | Preflighted(invalid: Option<BadConfig>, probe: Probe)
    | Created(handles: Option<Handles>)
    | Waited(stop: bool, deadline: bool, exited: bool, probe: Probe)
    | CleanedUp
    | Ticked(stop: bool, exited: bool, probe: Probe)

  datatype Manager = Manager(
    thread: Thread,
    stopRequested: bool,
    stopping: bool,
    ownership: Ownership,
    handles: Handles,
    status: Diagnostic,
    calls: seq<Call>)

  const IDLE: Manager := Manager(Absent, false, false, Unowned, NO_HANDLES, NotStarted, [])

  // ----- Single steps -------------------------------------------------------------------

  function Diagnose(status: ProbeStatus): Diagnostic {
    match status
    case Reachable => Running
    case ApiIncompatible => ApiMismatch
    case RuntimeRootMismatch => RuntimeDirError
    case InvalidResponse => Unhealthy
    case Unreachable => Starting
  }

  function Objection(invalid: BadConfig): Diagnostic {
    if invalid == NoUserDataDir then ConfigError else RuntimeDirError
  }

  predicate Differ(a: string, b: string) {
    a != "" && b != "" && a != b
  }

  /** `identity_changed`: a part that both sides know is different. */
  predicate IdentityChanged(a: Identity, b: Identity) {
    Differ(a.instance, b.instance) || Differ(a.pid, b.pid) || Differ(a.startedAt, b.startedAt)
  }

  /** `close_process_handles`. */
  function CloseCalls(h: Handles): seq<Call> {
    (if h.thread != 0 then [CloseHandle(h.thread)] else []) + (if h.process != 0 then [CloseHandle(h.process)] else [])
  }

  /** `start_async`. */
  function StartedAsync(m: Manager): Manager {
    if m.thread != Absent || m.ownership != Unowned then m else m.(stopRequested := false, thread := Probing)
  }

  function Preflight(m: Manager, invalid: Option<BadConfig>, probe: Probe): Manager {
    if invalid.Some? then m.(status := Objection(invalid.value), thread := Done)
    else if probe.status == Reachable then
      m.(ownership := Reused, status := Running, thread := Monitoring(0, false, false, probe.identity))
    else if probe.status != Unreachable then m.(status := Diagnose(probe.status), thread := Done)
    else m.(status := Starting, thread := Spawning)
  }

  /** `spawn_worker` and what `start` makes of its outcome. */
  function SpawnedWorker(m: Manager, handles: Option<Handles>): Manager {
    match handles
    case None => m.(status := ConfigError, thread := Done)
    case Some(h) =>
      m.(handles := h, ownership := Spawned, status := Starting, thread := Waiting,
         calls := m.calls + [CreateProcess(h.process, h.thread)])
  }

  /** One round of `wait_until_ready`. */
  function WaitedOnce(m: Manager, stop: bool, deadline: bool, exited: bool, probe: Probe): Manager {
    if stop || deadline then m.(status := Unhealthy, thread := CleaningUp)
    else if m.ownership == Spawned && m.handles.process != 0 && exited then m.(status := Crashed, thread := CleaningUp)
    else if probe.status == Reachable then m.(status := Running, thread := Monitoring(0, false, false, probe.identity))
    else m.(status := Diagnose(probe.status))
  }

  /** The end of `start` when the worker did not become ready. */
  function CleanedUpWorker(m: Manager): Manager {
    if m.ownership == Spawned && m.handles.process != 0 then
      m.(ownership := Unowned, handles := NO_HANDLES, thread := Done,
         calls := m.calls + ([Terminate(m.handles.process)] + CloseCalls(m.handles)))
    else m.(thread := Done)
  }

  /** One heartbeat of `monitor_heartbeat`. */
  function TickedOnce(m: Manager, threshold: nat, stop: bool, exited: bool, probe: Probe): Manager
    requires m.thread.Monitoring?
  {
    var t := m.thread;
    if stop then m.(thread := Done)
    else if m.ownership == Spawned && m.handles.process != 0 && exited then m.(status := Crashed, thread := Done)
    else if probe.status == Reachable then
      m.(status := Running,
         thread := Monitoring(0, false, t.replacementReported || IdentityChanged(t.baseline, probe.identity), t.baseline))
    else
      m.(status := Unhealthy,
         thread := Monitoring(t.failures + 1, t.timeoutReported || t.failures + 1 >= threshold, t.replacementReported, t.baseline))
  }

  /** The end of `stop`, once the thread is joined; `active` tells that the process still runs. */
  function FinishedStop(m: Manager, active: bool): Manager {
    var stopped := m.(thread := Absent, stopping := false, ownership := Unowned, status := NotStarted);
    if m.ownership == Spawned && m.handles.process != 0 then
      stopped.(handles := NO_HANDLES,
               calls := m.calls + ((if active then [Terminate(m.handles.process)] else []) + CloseCalls(m.handles)))
    else stopped
  }

  /** The answer fits the place where the thread is. */
  predicate Fits(t: Thread, a: Answer) {
    match t
    case Absent => false
    case Probing => a.Preflighted?
    case Spawning => a.Created?
    case Waiting => a.Waited?
    case CleaningUp => a.CleanedUp?
    case Monitoring(_, _, _, _) => a.Ticked?
    case Done => false
  }

  function ThreadStep(m: Manager, threshold: nat, a: Answer): Manager {
    if !Fits(m.thread, a) then m
    else
      match a
      case Preflighted(invalid, probe) => Preflight(m, invalid, probe)
      case Created(handles) => SpawnedWorker(m, handles)
      case Waited(stop, deadline, exited, probe) => WaitedOnce(m, stop, deadline, exited, probe)
      case CleanedUp => CleanedUpWorker(m)
      case Ticked(stop, exited, probe) => TickedOnce(m, threshold, stop, exited, probe)
  }

  /** The first `n` answers in a row. One that comes while the thread is elsewhere changes nothing. */
  function ThreadRun(m: Manager, threshold: nat, answers: seq<Answer>, n: nat): Manager
    requires n <= |answers|
  {
    if n == 0 then m else ThreadStep(ThreadRun(m, threshold, answers, n - 1), threshold, answers[n - 1])
  }

  lemma ThreadRunNone(m: Manager, threshold: nat, answers: seq<Answer>)
    ensures ThreadRun(m, threshold, answers, 0) == m
  {
  }

  lemma ThreadRunMore(m: Manager, threshold: nat, answers: seq<Answer>, n: nat)
    requires n < |answers|
    ensures ThreadRun(m, threshold, answers, n + 1) == ThreadStep(ThreadRun(m, threshold, answers, n), threshold, answers[n])
  {
  }

  lemma TickIsStep(m: Manager, threshold: nat, a: Answer)
    requires m.thread.Monitoring? && a.Ticked?
    ensures ThreadStep(m, threshold, a) == TickedOnce(m, threshold, a.stop, a.exited, a.probe)
  {
  }

  /** Once the thread has left the place that the answers are for, the rest of them changes nothing. */
  lemma {:induction false} RestIsPassed(m: Manager, threshold: nat, answers: seq<Answer>, k: nat, n: nat)
    requires k <= n <= |answers|
    requires forall i :: k <= i < n ==> !Fits(ThreadRun(m, threshold, answers, k).thread, answers[i])
    ensures ThreadRun(m, threshold, answers, n) == ThreadRun(m, threshold, answers, k)
  {
    hide Fits;
    if k < n {
      RestIsPassed(m, threshold, answers, k, n - 1);
    }
  }

  predicate Rounds(answers: seq<Answer>) {
    forall i :: 0 <= i < |answers| ==> answers[i].Waited?
  }

  predicate Ticks(answers: seq<Answer>) {
    forall i :: 0 <= i < |answers| ==> answers[i].Ticked?
  }

  /** What follows a spawned worker: rounds of waiting, then the cleanup or heartbeats. */
  function SpawnedCourse(m: Manager, threshold: nat, rounds: seq<Answer>, ticks: seq<Answer>): Manager {
    var waited := ThreadRun(m, threshold, rounds, |rounds|);
    ThreadRun(ThreadStep(waited, threshold, CleanedUp), threshold, ticks, |ticks|)
  }

  /** The whole course of the thread: preflight, spawn, rounds of waiting, cleanup or heartbeats. */
  function Course(m: Manager, threshold: nat, invalid: Option<BadConfig>, preflight: Probe, created: Option<Handles>,
                  rounds: seq<Answer>, ticks: seq<Answer>)
    : Manager
  {
    var probed := ThreadStep(m, threshold, Preflighted(invalid, preflight));
    SpawnedCourse(ThreadStep(probed, threshold, Created(created)), threshold, rounds, ticks)
  }

  lemma TicksArePassed(m: Manager, threshold: nat, ticks: seq<Answer>)
    requires Ticks(ticks) && !m.thread.Monitoring?
    ensures ThreadRun(m, threshold, ticks, |ticks|) == m
  {
    ThreadRunNone(m, threshold, ticks);
    RestIsPassed(m, threshold, ticks, 0, |ticks|);
  }

  lemma RoundsArePassed(m: Manager, threshold: nat, rounds: seq<Answer>)
    requires Rounds(rounds) && m.thread != Waiting
    ensures ThreadRun(m, threshold, rounds, |rounds|) == m
  {
    ThreadRunNone(m, threshold, rounds);
    RestIsPassed(m, threshold, rounds, 0, |rounds|);
  }

  /** A thread that needs no new worker goes straight to its heartbeats, or has ended. */
  lemma CourseWithoutSpawn(m: Manager, threshold: nat, invalid: Option<BadConfig>, preflight: Probe,
                           created: Option<Handles>, rounds: seq<Answer>, ticks: seq<Answer>)
    requires m.thread == Probing && Rounds(rounds) && (invalid.Some? || preflight.status != Unreachable)
    ensures Course(m, threshold, invalid, preflight, created, rounds, ticks) ==
            ThreadRun(Preflight(m, invalid, preflight), threshold, ticks, |ticks|)
  {
    hide ThreadRun, Diagnose;
    RoundsArePassed(Preflight(m, invalid, preflight), threshold, rounds);
  }

  /** A thread that finds no worker spawns one. */
  lemma CourseWithSpawn(m: Manager, threshold: nat, preflight: Probe, created: Option<Handles>, rounds: seq<Answer>,
                        ticks: seq<Answer>)
    requires m.thread == Probing && preflight.status == Unreachable
    ensures Course(m, threshold, None, preflight, created, rounds, ticks) ==
            SpawnedCourse(SpawnedWorker(m.(status := Starting, thread := Spawning), created), threshold, rounds, ticks)
  {
  }

  // ----- Heartbeats -----------------------------------------------------------------------

  predicate Failed(a: Answer) {
    a.Ticked? && a.probe.status != Reachable
  }

  /** How many of the last heartbeats before `n` failed in a row. */
  function Streak(ticks: seq<Answer>, n: nat): nat
    requires n <= |ticks|
  {
    if n == 0 || !Failed(ticks[n - 1]) then 0 else Streak(ticks, n - 1) + 1
  }

  /** The streak length at which a timeout is reported. */
  function Limit(threshold: nat): nat {
    if threshold == 0 then 1 else threshold
  }

  /** Heartbeat `i` brings its streak to the limit. */
  predicate Due(ticks: seq<Answer>, threshold: nat, i: nat)
    requires i < |ticks|
  {
    Streak(ticks, i + 1) == Limit(threshold)
  }

  /** The due heartbeats among the first `n`, in order. */
  function DueTicks(ticks: seq<Answer>, threshold: nat, n: nat): seq<nat>
    requires n <= |ticks|
  {
    if n == 0 then []
    else if Due(ticks, threshold, n - 1) then DueTicks(ticks, threshold, n - 1) + [n - 1]
    else DueTicks(ticks, threshold, n - 1)
  }

  lemma {:induction false} DueTickIsIn(ticks: seq<Answer>, threshold: nat, n: nat, i: nat)
    requires n <= |ticks|
    ensures i in DueTicks(ticks, threshold, n) <==> i < n && Due(ticks, threshold, i)
  {
    if n > 0 {
      DueTickIsIn(ticks, threshold, n - 1, i);
    }
  }

  lemma {:induction false} DueTicksAscend(ticks: seq<Answer>, threshold: nat, n: nat, j: nat, k: nat)
    requires n <= |ticks| && j < k <= |DueTicks(ticks, threshold, n)|
    ensures var due := DueTicks(ticks, threshold, n); due[j] < if k < |due| then due[k] else n
  {
    if n > 0 {
      var before := |DueTicks(ticks, threshold, n - 1)|;
      if j < before {
        DueTicksAscend(ticks, threshold, n - 1, j, if k <= before then k else before);
      }
    }
  }

  /** The list holds exactly the due heartbeats, each once and in order. */
  lemma DueTicksAreDue(ticks: seq<Answer>, threshold: nat, n: nat)
    requires n <= |ticks|
    ensures forall i: nat :: i in DueTicks(ticks, threshold, n) <==> i < n && Due(ticks, threshold, i)
    ensures var due := DueTicks(ticks, threshold, n); forall j, k :: 0 <= j < k < |due| ==> due[j] < due[k]
  {
    hide DueTicks, Due;
    var due := DueTicks(ticks, threshold, n);
    forall i: nat
      ensures i in due <==> i < n && Due(ticks, threshold, i)
    {
      DueTickIsIn(ticks, threshold, n, i);
    }
    forall j, k | 0 <= j < k < |due|
      ensures due[j] < due[k]
    {
      DueTicksAscend(ticks, threshold, n, j, k);
    }
  }

  predicate MaximalStreak(ticks: seq<Answer>, from: nat, to: nat)
    requires from < to <= |ticks|
  {
    && (forall i :: from <= i < to ==> Failed(ticks[i]))
    && (from == 0 || !Failed(ticks[from - 1]))
    && (to == |ticks| || !Failed(ticks[to]))
  }

  /** A heartbeat answered by another worker than the one that was there at first. */
  predicate Replaces(baseline: Identity, a: Answer) {
    a.Ticked? && a.probe.status == Reachable && IdentityChanged(baseline, a.probe.identity)
  }

  /** The first heartbeat among the first `n` that another worker answered. */
  function FirstReplaced(baseline: Identity, ticks: seq<Answer>, n: nat): (first: Option<nat>)
    requires n <= |ticks|
    ensures match first
            case Some(i) => i < n && Replaces(baseline, ticks[i]) && forall j :: 0 <= j < i ==> !Replaces(baseline, ticks[j])
            case None => forall j :: 0 <= j < n ==> !Replaces(baseline, ticks[j])
  {
    if n == 0 then None
    else
      var before := FirstReplaced(baseline, ticks, n - 1);
      if before.None? && Replaces(baseline, ticks[n - 1]) then Some(n - 1) else before
  }

  lemma {:induction false} StreakInside(ticks: seq<Answer>, from: nat, i: nat)
    requires from <= i < |ticks| && forall k :: from <= k <= i ==> Failed(ticks[k])
    requires from == 0 || !Failed(ticks[from - 1])
    ensures Streak(ticks, i + 1) == i + 1 - from
  {
    if from < i {
      StreakInside(ticks, from, i - 1);
    }
  }

  lemma TicksAtFirst(baseline: Identity, ticks: seq<Answer>, threshold: nat)
    ensures Streak(ticks, 0) == 0 && DueTicks(ticks, threshold, 0) == [] && FirstReplaced(baseline, ticks, 0) == None
  {
  }

  /** What the next heartbeat adds. */
  lemma NextTick(baseline: Identity, ticks: seq<Answer>, threshold: nat, n: nat)
    requires n < |ticks| && ticks[n].Ticked?
    ensures var up := ticks[n].probe.status == Reachable;
            && Streak(ticks, n + 1) == (if up then 0 else Streak(ticks, n) + 1)
            && DueTicks(ticks, threshold, n + 1) ==
               (if !up && Streak(ticks, n) + 1 == Limit(threshold) then DueTicks(ticks, threshold, n) + [n]
                else DueTicks(ticks, threshold, n))
            && FirstReplaced(baseline, ticks, n + 1) ==
               (if up && FirstReplaced(baseline, ticks, n).None? && IdentityChanged(baseline, ticks[n].probe.identity) then Some(n)
                else FirstReplaced(baseline, ticks, n))
  {
  }

  /** Each maximal failure streak holds exactly one due heartbeat if it reaches the limit, and none otherwise. */
  lemma OneDuePerStreak(ticks: seq<Answer>, threshold: nat, from: nat, to: nat)
    requires from < to <= |ticks| && MaximalStreak(ticks, from, to)
    ensures forall i :: from <= i < to ==> (Due(ticks, threshold, i) <==> i == from + Limit(threshold) - 1)
    ensures (exists i :: from <= i < to && Due(ticks, threshold, i)) <==> to - from >= Limit(threshold)
  {
    forall i | from <= i < to
      ensures Due(ticks, threshold, i) <==> i == from + Limit(threshold) - 1
    {
      StreakInside(ticks, from, i);
    }
    if to - from >= Limit(threshold) {
      assert Due(ticks, threshold, from + Limit(threshold) - 1);
    }
  }

  // ----- The manager ------------------------------------------------------------------------

  datatype Readiness = Ready | NotReady | StillWaiting

  class WorkerProcessManager {
    const threshold: nat
    var joinable: bool
    var stopRequested: bool
    var ownership: Ownership
    var handles: Handles
    var status: Diagnostic
    ghost var thread: Thread
    ghost var stopping: bool
    ghost var calls: seq<Call>

    ghost predicate Valid()
      reads this
    {
      joinable <==> thread != Absent
    }

    ghost function State(): Manager
      reads this
    {
      Manager(thread, stopRequested, stopping, ownership, handles, status, calls)
    }

    constructor (threshold: nat)
      ensures Valid() && State() == IDLE && this.threshold == threshold
    {
      this.threshold := threshold;
      joinable, stopRequested, ownership, handles, status := false, false, Unowned, NO_HANDLES, NotStarted;
      thread, stopping, calls := Absent, false, [];
    }

    method StartAsync()
      requires Valid()
      modifies this
      ensures Valid() && State() == StartedAsync(old(State()))
    {
      if joinable || ownership != Unowned {
        return;
      }
      stopRequested := false;
      joinable := true;
      thread := Probing;
    }

    /**
     `start`, the body of the thread, as far as the answers of the outside world reach: the
     thread goes through its whole course, and stops where it has ended or no answer is left.
     */
    method Start(invalid: Option<BadConfig>, preflight: Probe, created: Option<Handles>, rounds: seq<Answer>, ticks: seq<Answer>)
      requires Valid() && thread == Probing && Rounds(rounds) && Ticks(ticks)
      modifies this
      ensures Valid() && State() == Course(old(State()), threshold, invalid, preflight, created, rounds, ticks)
      ensures thread == Done || thread == Waiting || thread.Monitoring?
    {
      hide ThreadRun, Diagnose, Course;
      ghost var m := State();
      if invalid.Some? || preflight.status != Unreachable {
        CourseWithoutSpawn(m, threshold, invalid, preflight, created, rounds, ticks);
      }
      if invalid.Some? {
        status := Objection(invalid.value);
        thread := Done;
        TicksArePassed(State(), threshold, ticks);
        return;
      }
      status := Starting;
      if preflight.status == Reachable {
        ownership := Reused;
        status := Running;
        thread := Monitoring(0, false, false, preflight.identity);
        var _, _, _ := MonitorHeartbeat(preflight.identity, ticks);
        return;
      }
      if preflight.status != Unreachable {
        status := Diagnose(preflight.status);
        thread := Done;
        TicksArePassed(State(), threshold, ticks);
        return;
      }
      thread := Spawning;
      Launch(created, rounds, ticks);
      CourseWithSpawn(m, threshold, preflight, created, rounds, ticks);
    }

    /** `start`, from the point where a worker has to be spawned. */
    method Launch(created: Option<Handles>, rounds: seq<Answer>, ticks: seq<Answer>)
      requires Valid() && thread == Spawning && Rounds(rounds) && Ticks(ticks)
      modifies this
      ensures Valid()
      ensures State() == SpawnedCourse(SpawnedWorker(old(State()), created), threshold, rounds, ticks)
      ensures thread == Done || thread == Waiting || thread.Monitoring?
    {
      hide ThreadRun, SpawnedWorker;
      var spawned := SpawnWorker(created);
      if !spawned {
        RoundsArePassed(State(), threshold, rounds);
        TicksArePassed(State(), threshold, ticks);
        return;
      }
      var ready, baseline := WaitUntilReady(rounds);
      if ready == NotReady {
        CleanUp();
        TicksArePassed(State(), threshold, ticks);
      } else if ready == Ready {
        var _, _, _ := MonitorHeartbeat(baseline, ticks);
      } else {
        TicksArePassed(State(), threshold, ticks);
      }
    }

    /** `spawn_worker`. */
    method SpawnWorker(created: Option<Handles>) returns (ok: bool)
      requires Valid() && thread == Spawning
      modifies this
      ensures Valid() && State() == SpawnedWorker(old(State()), created) && ok == created.Some?
      ensures thread == if ok then Waiting else Done
    {
      if created.None? {
        status := ConfigError;
        thread := Done;
        return false;
      }
      handles := created.value;
      ownership := Spawned;
      status := Starting;
      thread := Waiting;
      calls := calls + [CreateProcess(handles.process, handles.thread)];
      return true;
    }

    /** `wait_until_ready`: the loop over the rounds of waiting. */
    method WaitUntilReady(rounds: seq<Answer>) returns (ready: Readiness, baseline: Identity)
      requires Valid() && thread == Waiting && Rounds(rounds)
      modifies this
      ensures Valid() && State() == ThreadRun(old(State()), threshold, rounds, |rounds|)
      ensures match ready
              case Ready => thread == Monitoring(0, false, false, baseline)
              case NotReady => thread == CleaningUp
              case StillWaiting => thread == Waiting
    {
      hide ThreadRun, Diagnose;
      ghost var m := State();
      baseline := Identity("", "", "");
      ThreadRunNone(m, threshold, rounds);
      var used := 0;
      while used < |rounds|
        invariant Valid() && thread == Waiting && 0 <= used <= |rounds|
        invariant State() == ThreadRun(m, threshold, rounds, used)
      {
        var round := rounds[used];
        ThreadRunMore(m, threshold, rounds, used);
        used := used + 1;
        if round.stop || round.deadline {
          status := Unhealthy;
          thread := CleaningUp;
          RestIsPassed(m, threshold, rounds, used, |rounds|);
          return NotReady, baseline;
        }
        if ownership == Spawned && handles.process != 0 && round.exited {
          status := Crashed;
          thread := CleaningUp;
          RestIsPassed(m, threshold, rounds, used, |rounds|);
          return NotReady, baseline;
        }
        if round.probe.status == Reachable {
          status := Running;
          thread := Monitoring(0, false, false, round.probe.identity);
          RestIsPassed(m, threshold, rounds, used, |rounds|);
          return Ready, round.probe.identity;
        }
        status := Diagnose(round.probe.status);
      }
      return StillWaiting, baseline;
    }

    method CloseProcessHandles()
      modifies this`handles, this`calls
      ensures handles == NO_HANDLES && calls == old(calls) + CloseCalls(old(handles))
    {
      if handles.thread != 0 {
        calls := calls + [CloseHandle(handles.thread)];
        handles := handles.(thread := 0);
      }
      if handles.process != 0 {
        calls := calls + [CloseHandle(handles.process)];
        handles := handles.(process := 0);
      }
    }

    /** The end of `start` for a worker that did not become ready. */
    method CleanUp()
      requires Valid() && thread == CleaningUp
      modifies this
      ensures Valid() && State() == CleanedUpWorker(old(State()))
    {
      if ownership == Spawned && handles.process != 0 {
        calls := calls + [Terminate(handles.process)];
        CloseProcessHandles();
        ownership := Unowned;
      }
      thread := Done;
    }

    /**
     `monitor_heartbeat`: the loop over the heartbeats. Of the `probed` ones that reach the
     probe, a timeout is reported for each that brings its failure streak to the limit, and
     a replaced worker for the first one that answers with another identity.
     */
    method MonitorHeartbeat(baseline: Identity, ticks: seq<Answer>)
      returns (probed: nat, timeouts: seq<nat>, replaced: Option<nat>)
      requires Valid() && thread == Monitoring(0, false, false, baseline)
      requires Ticks(ticks)
      modifies this
      ensures Valid() && (thread == Done || (thread.Monitoring? && probed == |ticks|))
      ensures probed <= |ticks| && (thread == Done ==> probed < |ticks|)
      ensures State() == ThreadRun(old(State()), threshold, ticks, |ticks|)
      ensures forall i: nat :: i in timeouts <==> i < probed && Due(ticks, threshold, i)
      ensures forall j, k :: 0 <= j < k < |timeouts| ==> timeouts[j] < timeouts[k]
      ensures replaced == FirstReplaced(baseline, ticks, probed)
    {
      hide ThreadRun, IdentityChanged, Streak, DueTicks, Due, FirstReplaced, Replaces;
      hide Preflight, SpawnedWorker, WaitedOnce, CleanedUpWorker, ThreadStep;
      ghost var m := State();
      ThreadRunNone(m, threshold, ticks);
      TicksAtFirst(baseline, ticks, threshold);
      var consecutiveFailures: nat, timeoutReported, replacementReported := 0, false, false;
      probed, timeouts, replaced := 0, [], None;
      while probed < |ticks|
        invariant Valid() && probed <= |ticks|
        invariant thread == Monitoring(consecutiveFailures, timeoutReported, replacementReported, baseline)
        invariant State() == ThreadRun(m, threshold, ticks, probed)
        invariant consecutiveFailures == Streak(ticks, probed)
        invariant timeoutReported <==> consecutiveFailures >= Limit(threshold)
        invariant timeouts == DueTicks(ticks, threshold, probed)
        invariant replacementReported <==> replaced.Some?
        invariant replaced == FirstReplaced(baseline, ticks, probed)
      {
        var tick := ticks[probed];
        NextTick(baseline, ticks, threshold, probed);
        ThreadRunMore(m, threshold, ticks, probed);
        TickIsStep(State(), threshold, tick);
        if tick.stop {
          thread := Done;
          DueTicksAreDue(ticks, threshold, probed);
          RestIsPassed(m, threshold, ticks, probed + 1, |ticks|);
          return;
        }
        if ownership == Spawned && handles.process != 0 && tick.exited {
          status := Crashed;
          thread := Done;
          DueTicksAreDue(ticks, threshold, probed);
          RestIsPassed(m, threshold, ticks, probed + 1, |ticks|);
          return;
        }
        if tick.probe.status == Reachable {
          consecutiveFailures := 0;
          timeoutReported := false;
          status := Running;
          if !replacementReported && IdentityChanged(baseline, tick.probe.identity) {
            replacementReported := true;
            replaced := Some(probed);
          }
        } else {
          consecutiveFailures := consecutiveFailures + 1;
          status := Unhealthy;
          if !timeoutReported && consecutiveFailures >= threshold {
            timeoutReported := true;
            timeouts := timeouts + [probed];
          }
        }
        thread := Monitoring(consecutiveFailures, timeoutReported, replacementReported, baseline);
        probed := probed + 1;
      }
      DueTicksAreDue(ticks, threshold, probed);
    }

    /** `stop`, first half: the flag is set, and the caller waits for the thread to end. */
    method RequestStop()
      modifies this
      ensures State() == old(State()).(stopRequested := true, stopping := true)
      ensures joinable == old(joinable)
    {
      stopRequested := true;
      stopping := true;
    }

    /** `stop`, second half: the thread has ended and is joined. */
    method FinishStop(active: bool)
      requires Valid() && stopping && (thread == Absent || thread == Done)
      modifies this
      ensures Valid() && State() == FinishedStop(old(State()), active)
    {
      joinable := false;
      thread := Absent;
      stopping := false;
      if ownership == Reused {
        ownership := Unowned;
        status := NotStarted;
        return;
      }
      if ownership == Spawned && handles.process != 0 {
        if active {
          calls := calls + [Terminate(handles.process)];
        }
        CloseProcessHandles();
      }
      ownership := Unowned;
      status := NotStarted;
    }
  }
}
