/**
 Runs of the worker application: recording commands, detection frames, new templates,
 match edits, queue work, and restarts at any point. A handler may break after any of its
 steps; a crash is a broken handler followed by a restart.
 */
module AppRuns {
  import opened Common
  import opened Detection
  import opened Recording
  import opened App
  import Metadata
  import Queue
  import Text
  import Upload
  import UploadRuns

  /** An upload that is under way when the worker goes down. */
  datatype InFlight = InFlight(id: nat, facts: Queue.QueueItem -> Upload.Facts, delivered: bool)

  datatype Event =
    | Post(command: Command, path: VideoPath, reach: Reach)
    | Frame(templates: seq<TemplateMatch>, reach: Reach)
    | LoadTemplates(config: Option<Config>)
    | Restart(readable: bool, newConfig: Option<Config>, gone: string -> bool, inFlight: Option<InFlight>)
    | CreateMatch(deckName: Option<string>)
    | UpdateMatch(id: nat, newName: Option<string>, otherFields: bool)
    | QueueWork(work: UploadRuns.Event)

  /** The queue events of a run other than those the application itself causes. */
  predicate Outside(e: UploadRuns.Event) {
    !e.Restart? && !e.CrashInUpload? && !e.LinkMatch?
  }

  function Started(q: QueueWorld, inFlight: Option<InFlight>): QueueWorld {
    match inFlight
    case None => q
    case Some(u) =>
      match Queue.Find(q.rows, u.id, 0)
      case None => q
      case Some(k) => UploadRuns.Interrupt(q, k, u.facts, u.delivered)
  }

  /** One event; `newId` is the session identifier it may draw. */
  function Step(fold: Text.Fold, w: World, e: Event, newId: nat): World {
    match e
    case Post(command, path, reach) => Commanded(w, command, path, newId, reach).0
    case Frame(templates, reach) => Framed(w, templates, newId, reach).0
    case LoadTemplates(config) => w.(detection := Loaded(config))
    case Restart(readable, config, gone, inFlight) =>
      Restarted(w.(queue := Started(w.queue, inFlight)), readable, config, gone)
    case CreateMatch(deckName) => w.(matches := Metadata.Created(fold, w.matches, deckName).0)
    case UpdateMatch(id, newName, otherFields) => w.(matches := Metadata.Updated(fold, w.matches, id, newName, otherFields).0)
    case QueueWork(work) => if Outside(work) then w.(queue := UploadRuns.Step(w.queue, work)) else w
  }

  /**
   The world after the first `n` events, from nothing saved. Event `i` draws the session
   identifier `i + 1`, so that identifiers never repeat.
   */
  function Run(fold: Text.Fold, events: seq<Event>, n: nat): World
    requires n <= |events|
  {
    if n == 0 then EMPTY else Step(fold, Run(fold, events, n - 1), events[n - 1], n)
  }

  // ----- What one event does to the recording state ------------------------------------------

  /** The recording command an event sends, if any. */
  function Sent(w: World, e: Event): Option<Command> {
    match e
    case Post(command, path, _) => if path.NotAString? then None else Some(command)
    case Frame(templates, _) =>
      (match w.detection
       case None => None
       case Some(d) =>
         match StepFrame(d.config, d.counters, FrameOf(templates)).1
         case None => None
         case Some(duel) => Some(AutomaticCommand(if duel == Duel.Started then Start else Stop)))
    case _ => None
  }

  /** The recording state an event moves to, if it sends a command that is accepted. */
  function Accepted(w: World, e: Event, newId: nat): Option<RecordingState> {
    match Sent(w, e)
    case None => None
    case Some(command) =>
      match ApplyCommand(w.memory, command, newId)
      case Err(_) => None
      case Ok(next) => Some(next)
  }

  /** The state the saved copy holds; none saved counts as idle. */
  function Kept(w: World): RecordingState {
    match w.saved case Saved(s) => s case _ => INITIAL
  }

  predicate Grows(a: Metadata.Matches, b: Metadata.Matches) {
    && |a| <= |b| <= |a| + 1
    && forall k :: 0 <= k < |a| ==> b[k].id == a[k].id && b[k].session == a[k].session
  }

  /** What an event does to the recording state and its saved copy. */
  predicate Moves(w: World, next: World, moved: Option<RecordingState>, restart: bool) {
    if restart then
      next.saved == Saved(next.memory) && (next.memory == Recover(Kept(w)) || next.memory == Load(Unreadable))
    else
      && next.memory == (match moved case None => w.memory case Some(s) => s)
      && (next.saved == w.saved || next.saved == Saved(next.memory))
  }

  lemma StepMoves(fold: Text.Fold, w: World, e: Event, newId: nat)
    ensures Moves(w, Step(fold, w, e, newId), Accepted(w, e, newId), e.Restart?)
  {
    hide Metadata.Created, Metadata.Updated, UploadRuns.Step, ApplyCommand, Recover, Framed, Commanded;
    RecoveryOfFresh();
    if e.Post? {
      PostMoves(w, e.command, e.path, newId, e.reach);
    } else if e.Frame? {
      FrameMoves(w, e.templates, newId, e.reach);
    }
  }

  lemma RecoveryOfFresh()
    ensures Recover(Load(Unreadable)) == Load(Unreadable) && Recover(INITIAL) == INITIAL
  {
  }

  lemma PostMoves(w: World, command: Command, path: VideoPath, newId: nat, reach: Reach)
    ensures Moves(w, Commanded(w, command, path, newId, reach).0, Accepted(w, Post(command, path, reach), newId), false)
  {
    hide Metadata.Recorded, UploadRuns.Step, Queue.FindMatch, Queue.Linked, ApplyCommand, Text.Strip;
  }

  lemma FrameMoves(w: World, templates: seq<TemplateMatch>, newId: nat, reach: Reach)
    ensures Moves(w, Framed(w, templates, newId, reach).0, Accepted(w, Event.Frame(templates, reach), newId), false)
  {
    hide FrameOf, StepFrame, ApplyCommand;
  }

  /** Match rows are only added, and a row with a session only for the completed session that has just been saved. */
  predicate Records(w: World, next: World) {
    && Grows(w.matches, next.matches)
    && (|next.matches| > |w.matches| && next.matches[|w.matches|].session != 0 ==>
          && next.matches[|w.matches|].session == next.memory.session
          && next.memory.phase == Completed && next.saved == Saved(next.memory)
          && forall k :: 0 <= k < |w.matches| ==> w.matches[k].session != next.memory.session)
  }

  lemma StepRecords(fold: Text.Fold, w: World, e: Event, newId: nat)
    ensures Records(w, Step(fold, w, e, newId))
  {
    hide UploadRuns.Step, Framed, Commanded, Restarted, Metadata.Created, Metadata.Updated, Records;
    match e
    case Post(command, path, reach) => PostRecords(w, command, path, newId, reach);
    case Frame(templates, reach) => FrameRecords(w, templates, newId, reach);
    case Restart(readable, config, gone, inFlight) =>
      RestartRecords(w.(queue := Started(w.queue, inFlight)), readable, config, gone);
      SameMatchesRecord(w, w.(queue := Started(w.queue, inFlight)), Step(fold, w, e, newId));
    case CreateMatch(deckName) => CreateRecords(fold, w, deckName);
    case UpdateMatch(id, newName, otherFields) => UpdateRecords(fold, w, id, newName, otherFields);
    case _ => SameMatchesRecord(w, w, Step(fold, w, e, newId));
  }

  lemma SameMatchesRecord(w: World, x: World, next: World)
    requires w.matches == x.matches == next.matches
    ensures Records(w, next)
  {
  }

  lemma PostRecords(w: World, command: Command, path: VideoPath, newId: nat, reach: Reach)
    ensures Records(w, Commanded(w, command, path, newId, reach).0)
  {
    hide UploadRuns.Step, Queue.FindMatch, Queue.Linked, ApplyCommand, Text.Strip;
  }

  lemma FrameRecords(w: World, templates: seq<TemplateMatch>, newId: nat, reach: Reach)
    ensures Records(w, Framed(w, templates, newId, reach).0)
  {
    hide FrameOf, StepFrame, Notify;
  }

  lemma RestartRecords(w: World, readable: bool, config: Option<Config>, gone: string -> bool)
    ensures Restarted(w, readable, config, gone).matches == w.matches
  {
  }

  lemma CreateRecords(fold: Text.Fold, w: World, deckName: Option<string>)
    ensures Records(w, w.(matches := Metadata.Created(fold, w.matches, deckName).0))
  {
    hide Metadata.StoredName, Metadata.NextDeckNumber;
  }

  lemma UpdateRecords(fold: Text.Fold, w: World, id: nat, newName: Option<string>, otherFields: bool)
    ensures Records(w, w.(matches := Metadata.Updated(fold, w.matches, id, newName, otherFields).0))
  {
    hide Metadata.StoredName, Metadata.EditedNumber;
  }

  /** An accepted command draws the new session, ends the session, moves it forward, or confirms it again. */
  predicate Advances(s: RecordingState, next: RecordingState, newId: nat) {
    || (next.session == newId && next.phase == Starting && next.last == Did(Start))
    || (next.session == 0 && next.phase == Idle)
    || (next.session == s.session
        && ((s.phase == Starting && next.phase == Running && next.last == Did(ConfirmStarted))
            || (s.phase == Running && next.phase == Stopping && next.last == Did(Stop))
            || (s.phase == Stopping && next.phase == Completed && next.last == Did(ConfirmStopped))
            || (Active(s.phase) && next.phase == Interrupted)
            || (s.phase == next.phase && next.phase in {Running, Completed})))
  }

  lemma AcceptedAdvances(w: World, e: Event, newId: nat)
    requires Accepted(w, e, newId).Some?
    ensures Advances(w.memory, Accepted(w, e, newId).value, newId)
  {
    hide FrameOf, StepFrame;
  }

  // ----- What every run keeps ------------------------------------------------------------------

  /** How far a session has come. */
  function Rank(phase: Phase): nat {
    match phase
    case Idle => 0
    case Error => 0
    case Starting => 1
    case Running => 2
    case Stopping => 3
    case Completed => 4
    case Interrupted => 4
  }

  /** A state names a session drawn so far, except when it is idle or in error. */
  predicate Sane(s: RecordingState, n: nat) {
    s.session <= n && (s.session == 0 <==> s.phase == Idle || s.phase == Error)
  }

  /** The saved copy of a session lags behind memory, but never takes another branch. */
  predicate Lags(w: World) {
    var kept := Kept(w);
    w.memory.session != 0 && kept.session == w.memory.session ==>
      kept.phase == w.memory.phase || Rank(kept.phase) < Rank(w.memory.phase)
  }

  /** A session with a match row is completed wherever it is still known. */
  predicate Finished(w: World, s: nat) {
    && (w.memory.session == s ==> w.memory.phase == Completed)
    && (Kept(w).session == s ==> Kept(w).phase == Completed)
  }

  ghost predicate RowsFinished(w: World, n: nat) {
    forall k {:trigger w.matches[k]} :: 0 <= k < |w.matches| && w.matches[k].session != 0 ==>
      w.matches[k].session <= n && Finished(w, w.matches[k].session)
  }

  ghost predicate OneRowPerSession(rows: Metadata.Matches) {
    forall j, k :: 0 <= j < k < |rows| && rows[j].session != 0 ==> rows[j].session != rows[k].session
  }

  ghost predicate Invariant(w: World, n: nat) {
    Sane(w.memory, n) && Sane(Kept(w), n) && Lags(w) && RowsFinished(w, n) && OneRowPerSession(w.matches)
  }

  lemma MovesKeepStates(w: World, next: World, moved: Option<RecordingState>, restart: bool, n: nat)
    requires Moves(w, next, moved, restart) && (moved.Some? ==> Advances(w.memory, moved.value, n + 1))
    requires Sane(w.memory, n) && Sane(Kept(w), n) && Lags(w)
    ensures Sane(next.memory, n + 1) && Sane(Kept(next), n + 1) && Lags(next)
    ensures forall s :: 1 <= s <= n && Finished(w, s) ==> Finished(next, s)
  {
    if restart {
      RestartKeepsStates(w, next, n);
    } else if moved.Some? {
      CommandKeepsStates(w, next, n);
    }
  }

  lemma RestartKeepsStates(w: World, next: World, n: nat)
    requires Moves(w, next, None, true) && Sane(Kept(w), n)
    ensures Sane(next.memory, n + 1) && Kept(next) == next.memory
    ensures forall s :: 1 <= s <= n && Finished(w, s) ==> Finished(next, s)
  {
  }

  lemma CommandKeepsStates(w: World, next: World, n: nat)
    requires Advances(w.memory, next.memory, n + 1) && (next.saved == w.saved || next.saved == Saved(next.memory))
    requires Sane(w.memory, n) && Sane(Kept(w), n) && Lags(w)
    ensures Sane(next.memory, n + 1) && Lags(next)
    ensures forall s :: 1 <= s <= n && Finished(w, s) ==> Finished(next, s)
  {
  }

  lemma RecordsKeepRows(w: World, next: World, n: nat)
    requires Records(w, next) && RowsFinished(w, n) && OneRowPerSession(w.matches) && Sane(next.memory, n + 1)
    requires forall s :: 1 <= s <= n && Finished(w, s) ==> Finished(next, s)
    ensures RowsFinished(next, n + 1) && OneRowPerSession(next.matches)
  {
  }

  lemma StepKeepsInvariant(fold: Text.Fold, w: World, e: Event, n: nat)
    requires Invariant(w, n)
    ensures Invariant(Step(fold, w, e, n + 1), n + 1)
  {
    hide Step, Accepted, Moves, Records, Advances, Sane, Lags, Finished, RowsFinished, OneRowPerSession;
    var next, moved := Step(fold, w, e, n + 1), Accepted(w, e, n + 1);
    StepMoves(fold, w, e, n + 1);
    if moved.Some? {
      AcceptedAdvances(w, e, n + 1);
    }
    MovesKeepStates(w, next, moved, e.Restart?, n);
    StepRecords(fold, w, e, n + 1);
    RecordsKeepRows(w, next, n);
  }

  lemma {:induction false} RunKeepsInvariant(fold: Text.Fold, events: seq<Event>, n: nat)
    requires n <= |events|
    ensures Invariant(Run(fold, events, n), n)
  {
    hide Step;
    if n > 0 {
      RunKeepsInvariant(fold, events, n - 1);
      StepKeepsInvariant(fold, Run(fold, events, n - 1), events[n - 1], n - 1);
    }
  }

  // ----- Completed sessions are uninterrupted ----------------------------------------------------

  /** Event `i` sends a command with the given action, and it is accepted for session `s`. */
  predicate Performs(fold: Text.Fold, events: seq<Event>, i: nat, action: Action, s: nat)
    requires i < |events|
  {
    var moved := Accepted(Run(fold, events, i), events[i], i + 1);
    moved.Some? && moved.value.last == Did(action) && moved.value.session == s
  }

  predicate NoRestart(events: seq<Event>, from: nat, to: nat)
    requires to <= |events|
  {
    forall i :: from <= i < to ==> !events[i].Restart?
  }

  /** The events before `n` took session `s`, drawn by event `s - 1`, into a phase without a restart on the way. */
  ghost predicate Reaches(fold: Text.Fold, events: seq<Event>, n: nat, s: nat, phase: Phase)
    requires n <= |events|
  {
    1 <= s <= n && Performs(fold, events, s - 1, Start, s) &&
    match phase
    case Starting => NoRestart(events, s, n)
    case Running => NoRestart(events, s, n)
                    && exists i :: s <= i < n && Performs(fold, events, i, ConfirmStarted, s)
    case Stopping => NoRestart(events, s, n)
                     && exists i, j :: s <= i < j < n && Performs(fold, events, i, ConfirmStarted, s)
                                       && Performs(fold, events, j, Stop, s)
    case Completed => exists i, j, k :: s <= i < j < k < n && NoRestart(events, s, k)
                                        && Performs(fold, events, i, ConfirmStarted, s)
                                        && Performs(fold, events, j, Stop, s)
                                        && Performs(fold, events, k, ConfirmStopped, s)
    case _ => false
  }

  ghost predicate Witnessed(fold: Text.Fold, events: seq<Event>, n: nat)
    requires n <= |events|
  {
    var w := Run(fold, events, n);
    && (Active(w.memory.phase) || w.memory.phase == Completed ==> Reaches(fold, events, n, w.memory.session, w.memory.phase))
    && (Kept(w).phase == Completed ==> Reaches(fold, events, n, Kept(w).session, Completed))
  }

  lemma ReachesOn(fold: Text.Fold, events: seq<Event>, n: nat, s: nat, phase: Phase)
    requires n < |events| && Reaches(fold, events, n, s, phase) && (!events[n].Restart? || phase == Completed)
    ensures Reaches(fold, events, n + 1, s, phase)
  {
    hide Performs;
  }

  /** One more command of the session, without a restart. */
  lemma ReachesNext(fold: Text.Fold, events: seq<Event>, n: nat, s: nat, phase: Phase, action: Action, next: Phase)
    requires n < |events| && Reaches(fold, events, n, s, phase) && !events[n].Restart?
    requires (phase, action, next) in {(Starting, ConfirmStarted, Running), (Running, Stop, Stopping), (Stopping, ConfirmStopped, Completed)}
    requires Performs(fold, events, n, action, s)
    ensures Reaches(fold, events, n + 1, s, next)
  {
    hide Performs;
  }

  lemma {:induction false} RunIsWitnessed(fold: Text.Fold, events: seq<Event>, n: nat)
    requires n <= |events|
    ensures Witnessed(fold, events, n)
  {
    hide Step, Reaches;
    if n > 0 {
      RunIsWitnessed(fold, events, n - 1);
      StepIsWitnessed(fold, events, n - 1);
    }
  }

  lemma StepIsWitnessed(fold: Text.Fold, events: seq<Event>, n: nat)
    requires n < |events| && Witnessed(fold, events, n)
    ensures Witnessed(fold, events, n + 1)
  {
    hide Step, Accepted, Reaches, Advances;
    var w, e := Run(fold, events, n), events[n];
    var moved := Accepted(w, e, n + 1);
    StepMoves(fold, w, e, n + 1);
    if Kept(w).phase == Completed {
      ReachesOn(fold, events, n, Kept(w).session, Completed);
    }
    if !e.Restart? {
      if Active(w.memory.phase) || w.memory.phase == Completed {
        ReachesOn(fold, events, n, w.memory.session, w.memory.phase);
      }
      if moved.Some? {
        AcceptedIsWitnessed(fold, events, n);
      }
    }
  }

  lemma AcceptedIsWitnessed(fold: Text.Fold, events: seq<Event>, n: nat)
    requires n < |events| && Witnessed(fold, events, n) && !events[n].Restart?
    requires Accepted(Run(fold, events, n), events[n], n + 1).Some?
    ensures var s := Accepted(Run(fold, events, n), events[n], n + 1).value;
            Active(s.phase) || s.phase == Completed ==> Reaches(fold, events, n + 1, s.session, s.phase)
  {
    hide Step, Accepted;
    var w := Run(fold, events, n);
    var s := Accepted(w, events[n], n + 1).value;
    AcceptedAdvances(w, events[n], n + 1);
    if s.phase == Starting {
      assert Performs(fold, events, n, Start, n + 1);
    } else if s.phase == w.memory.phase {
      if s.phase in {Running, Completed} {
        ReachesOn(fold, events, n, s.session, s.phase);
      }
    } else if s.phase == Running {
      ReachesNext(fold, events, n, s.session, Starting, ConfirmStarted, Running);
    } else if s.phase == Stopping {
      ReachesNext(fold, events, n, s.session, Running, Stop, Stopping);
    } else if s.phase == Completed {
      ReachesNext(fold, events, n, s.session, Stopping, ConfirmStopped, Completed);
    }
  }

  /**
   In every run, a completed session saw start, start confirmation, stop and stop
   confirmation in this order, with no restart in between.
   */
  lemma CompletedSessionsAreUninterrupted(fold: Text.Fold, events: seq<Event>, n: nat)
    requires n <= |events| && Run(fold, events, n).memory.phase == Completed
    ensures Reaches(fold, events, n, Run(fold, events, n).memory.session, Completed)
  {
    RunIsWitnessed(fold, events, n);
  }

  // ----- A session that was active at a restart is lost ---------------------------------------------

  /** The session can only be interrupted, and no match row names it. */
  ghost predicate Lost(w: World, s: nat) {
    && (w.memory.session == s ==> w.memory.phase == Interrupted)
    && (Kept(w).session == s ==> Active(Kept(w).phase) || Kept(w).phase == Interrupted)
    && forall k :: 0 <= k < |w.matches| ==> w.matches[k].session != s
  }

  lemma MovesKeepLost(w: World, next: World, moved: Option<RecordingState>, restart: bool, n: nat, s: nat)
    requires Moves(w, next, moved, restart) && (moved.Some? ==> Advances(w.memory, moved.value, n + 1))
    requires Records(w, next) && 1 <= s <= n && Lost(w, s)
    ensures Lost(next, s)
  {
  }

  lemma RestartLoses(w: World, next: World, n: nat, s: nat)
    requires Moves(w, next, None, true) && Records(w, next) && Invariant(w, n) && 1 <= s
    requires (w.memory.session == s && Active(w.memory.phase)) || (Kept(w).session == s && Active(Kept(w).phase))
    ensures Lost(next, s)
  {
    forall k | 0 <= k < |w.matches|
      ensures w.matches[k].session != s
    {
      assert w.matches[k].session == s ==> Finished(w, s);
    }
  }

  lemma {:induction false} LostForever(fold: Text.Fold, events: seq<Event>, i: nat, n: nat, s: nat)
    requires i <= n <= |events| && 1 <= s <= i && Lost(Run(fold, events, i), s)
    ensures Lost(Run(fold, events, n), s)
  {
    hide Step, Lost, Accepted, Advances, Moves, Records;
    if i < n {
      LostForever(fold, events, i, n - 1, s);
      var w, e := Run(fold, events, n - 1), events[n - 1];
      StepMoves(fold, w, e, n);
      StepRecords(fold, w, e, n);
      if Accepted(w, e, n).Some? {
        AcceptedAdvances(w, e, n);
      }
      MovesKeepLost(w, Step(fold, w, e, n), Accepted(w, e, n), e.Restart?, n - 1, s);
    }
  }

  /**
   A session that is active at a restart, in memory or in the saved copy, is at best
   interrupted ever after: it never completes, and no match row is ever made for it.
   */
  lemma ActiveAtRestartNeverCompletes(fold: Text.Fold, events: seq<Event>, i: nat, n: nat, s: nat)
    requires i < n <= |events| && events[i].Restart? && s != 0
    requires var w := Run(fold, events, i);
             (w.memory.session == s && Active(w.memory.phase)) || (Kept(w).session == s && Active(Kept(w).phase))
    ensures var w := Run(fold, events, n);
            && (w.memory.session == s ==> w.memory.phase == Interrupted)
            && forall k :: 0 <= k < |w.matches| ==> w.matches[k].session != s
  {
    hide Step, Accepted, Moves, Records;
    RunKeepsInvariant(fold, events, i);
    var w := Run(fold, events, i);
    StepMoves(fold, w, events[i], i + 1);
    StepRecords(fold, w, events[i], i + 1);
    assert Accepted(w, events[i], i + 1) == None by {
      RestartAcceptsNothing(w, events[i], i + 1);
    }
    RestartLoses(w, Run(fold, events, i + 1), i, s);
    LostForever(fold, events, i + 1, n, s);
  }

  lemma RestartAcceptsNothing(w: World, e: Event, newId: nat)
    requires e.Restart?
    ensures Accepted(w, e, newId) == None
  {
  }

  // ----- One match per session ------------------------------------------------------------------------

  /** The saved copy held the session as completed at some point of the run. */
  ghost predicate SavedCompleted(fold: Text.Fold, events: seq<Event>, n: nat, s: nat)
    requires n <= |events|
  {
    exists i :: 0 <= i <= n && Kept(Run(fold, events, i)).session == s && Kept(Run(fold, events, i)).phase == Completed
  }

  ghost predicate Earned(fold: Text.Fold, events: seq<Event>, n: nat, s: nat)
    requires n <= |events|
  {
    Reaches(fold, events, n, s, Completed) && SavedCompleted(fold, events, n, s)
  }

  lemma EarnedOn(fold: Text.Fold, events: seq<Event>, n: nat, s: nat)
    requires n < |events| && Earned(fold, events, n, s)
    ensures Earned(fold, events, n + 1, s)
  {
    ReachesOn(fold, events, n, s, Completed);
    hide Step, Reaches;
  }

  lemma {:induction false} RowsAreEarned(fold: Text.Fold, events: seq<Event>, n: nat)
    requires n <= |events|
    ensures forall k {:trigger Run(fold, events, n).matches[k]} :: 0 <= k < |Run(fold, events, n).matches| ==>
              var s := Run(fold, events, n).matches[k].session; s == 0 || Earned(fold, events, n, s)
  {
    hide Step, Earned;
    if n > 0 {
      RowsAreEarned(fold, events, n - 1);
      var w, next := Run(fold, events, n - 1), Run(fold, events, n);
      StepRecords(fold, w, events[n - 1], n);
      forall k | 0 <= k < |next.matches| && next.matches[k].session != 0
        ensures Earned(fold, events, n, next.matches[k].session)
      {
        if k < |w.matches| {
          EarnedOn(fold, events, n - 1, w.matches[k].session);
        } else {
          CompletedSaveIsEarned(fold, events, n);
        }
      }
    }
  }

  lemma CompletedSaveIsEarned(fold: Text.Fold, events: seq<Event>, n: nat)
    requires n <= |events| && Run(fold, events, n).memory.phase == Completed
    requires Run(fold, events, n).saved == Saved(Run(fold, events, n).memory)
    ensures Earned(fold, events, n, Run(fold, events, n).memory.session)
  {
    hide Step, Reaches;
    CompletedSessionsAreUninterrupted(fold, events, n);
  }

  /**
   In every run, two match rows never name the same session, and a row that names a
   session is one of a session that completed without a restart and was saved as completed.
   */
  lemma OneMatchPerSession(fold: Text.Fold, events: seq<Event>, n: nat, j: nat, k: nat)
    requires n <= |events| && j < |Run(fold, events, n).matches| && k < |Run(fold, events, n).matches|
    requires Run(fold, events, n).matches[j].session != 0
    ensures var rows := Run(fold, events, n).matches;
            && (rows[j].session == rows[k].session ==> j == k)
            && Reaches(fold, events, n, rows[j].session, Completed)
            && SavedCompleted(fold, events, n, rows[j].session)
  {
    hide Step, Reaches, SavedCompleted;
    RunKeepsInvariant(fold, events, n);
    RowsAreEarned(fold, events, n);
  }

  lemma LinkingFinds(w: World, session: nat, path: string)
    requires session != 0
    ensures var (next, link) := LinkRecording(w, session, path, ToEnd);
            && next.memory == w.memory && link.Some? && !link.value.Unlinked?
            && exists k :: 0 <= k < |next.matches| && next.matches[k].session == session
                           && next.matches[k].id == link.value.matchId
  {
    hide UploadRuns.Step;
    var next := LinkRecording(w, session, path, ToEnd).0;
    match Metadata.FindSession(w.matches, session, 0)
    case Some(k) => assert next.matches[k] == w.matches[k];
    case None => assert next.matches[|w.matches|].session == session;
  }

  /** Every manual confirmation that is accepted for a completed session and does not break links a match to it. */
  lemma CompletionIsLinked(fold: Text.Fold, events: seq<Event>, n: nat, command: Command, path: VideoPath)
    requires n <= |events| && path.Path?
    requires var r := ApplyCommand(Run(fold, events, n).memory, command, n + 1); r.Ok? && Links(r.value)
    ensures var (next, reply) := Commanded(Run(fold, events, n), command, path, n + 1, ToEnd);
            && reply.Answered? && !reply.link.Unlinked?
            && exists k :: 0 <= k < |next.matches| && next.matches[k].session == next.memory.session
                           && next.matches[k].id == reply.link.matchId
  {
    hide Run, Commanded, ApplyCommand, Sane, Lags, RowsFinished, OneRowPerSession;
    RunKeepsInvariant(fold, events, n);
    CompletingLinks(Run(fold, events, n), n, command, path);
  }

  lemma CompletingLinks(w: World, n: nat, command: Command, path: VideoPath)
    requires Sane(w.memory, n) && path.Path?
    requires var r := ApplyCommand(w.memory, command, n + 1); r.Ok? && Links(r.value)
    ensures var (next, reply) := Commanded(w, command, path, n + 1, ToEnd);
            && reply.Answered? && !reply.link.Unlinked?
            && exists k :: 0 <= k < |next.matches| && next.matches[k].session == next.memory.session
                           && next.matches[k].id == reply.link.matchId
  {
    hide LinkRecording, Text.Strip;
    var s := ApplyCommand(w.memory, command, n + 1).value;
    assert s.session == w.memory.session != 0;
    LinkingFinds(w.(memory := s, saved := Saved(s)), s.session, Text.Strip(path.text));
  }
}
