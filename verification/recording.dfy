/**
 The recording session state machine of app/worker/odr_worker/recording.py. A session
 identifier is a number that the caller draws fresh; zero stands for no session.
 Timestamps are not part of this model.
 */
module Recording {
  import opened Common

  datatype Phase = Idle | Starting | Running | Stopping | Completed | Interrupted | Error

  datatype Source = Manual | Automatic | Recovery

  datatype Action = Start | ConfirmStarted | Stop | ConfirmStopped | MarkInterrupted | DiscardInterrupted | Reset

  datatype LastAction = Init | LoadFailed | StartupRecovery | Did(action: Action)

  datatype RecordingState = RecordingState(phase: Phase, session: nat, source: Source, last: LastAction, reason: string)

  /** A command as it arrives: an unknown action or source is absent. */
  datatype Command = Command(action: Option<Action>, source: Option<Source>, reason: string)

  datatype RecordingError =
    | CommandInvalid(badAction: bool, badSource: bool, badReason: bool)
    | TransitionInvalid(phase: Phase, action: Action, why: string)

  const MAX_REASON_LENGTH: nat := 256

  const INITIAL: RecordingState := RecordingState(Idle, 0, Recovery, Init, "")

  predicate Active(phase: Phase) {
    phase == Starting || phase == Running || phase == Stopping
  }

  /** `recover_recording_state`: a session that was active when the worker went down is interrupted. */
  function Recover(s: RecordingState): RecordingState {
    if Active(s.phase) then
      RecordingState(Interrupted, s.session, Recovery, StartupRecovery, "interrupted_active_recording_discard_required")
    else s
  }

  /** The saved copy: there may be none, and it may be unreadable. */
  datatype Saved = Missing | Unreadable | Saved(state: RecordingState)

  function Load(saved: Saved): RecordingState {
    match saved
    case Missing => INITIAL
    case Unreadable => RecordingState(Error, 0, Recovery, LoadFailed, "recording_state_load_failed")
    case Saved(s) => s
  }

  function Note(reason: string, note: string): string {
    if reason != "" then reason else note
  }

  /** `_transition`; `newId` is the identifier a new session gets. */
  function Transition(current: RecordingState, action: Action, source: Source, reason: string, newId: nat)
    : Result<RecordingState, RecordingError>
  {
    var session, last := current.session, Did(action);
    match action
    case Start =>
      if current.phase == Idle || current.phase == Completed
      then Ok(RecordingState(Starting, newId, source, last, reason))
      else Err(TransitionInvalid(current.phase, action, "active_or_unrecoverable_session_exists"))
    case ConfirmStarted =>
      if current.phase == Starting then Ok(RecordingState(Running, session, source, last, reason))
      else if current.phase == Running
      then Ok(RecordingState(Running, session, source, last, Note(reason, "already_recording")))
      else Err(TransitionInvalid(current.phase, action, "start_not_pending"))
    case Stop =>
      if current.phase == Running then Ok(RecordingState(Stopping, session, source, last, reason))
      else Err(TransitionInvalid(current.phase, action, "recording_not_active"))
    case ConfirmStopped =>
      if current.phase == Stopping then Ok(RecordingState(Completed, session, source, last, reason))
      else if current.phase == Completed
      then Ok(RecordingState(Completed, session, source, last, Note(reason, "already_completed")))
      else Err(TransitionInvalid(current.phase, action, "stop_not_pending"))
    case MarkInterrupted =>
      if Active(current.phase)
      then Ok(RecordingState(Interrupted, session, source, last, Note(reason, "recording_interrupted")))
      else Err(TransitionInvalid(current.phase, action, "no_active_recording"))
    case DiscardInterrupted =>
      if current.phase == Interrupted
      then Ok(RecordingState(Idle, 0, source, last, Note(reason, "interrupted_recording_discarded")))
      else Err(TransitionInvalid(current.phase, action, "recording_not_interrupted"))
    case Reset => Ok(RecordingState(Idle, 0, source, last, Note(reason, "recording_state_reset")))
  }

  /** `apply_recording_command`. */
  function ApplyCommand(current: RecordingState, command: Command, newId: nat): Result<RecordingState, RecordingError> {
    var badReason := |command.reason| > MAX_REASON_LENGTH;
    if command.action.None? || command.source.None? || badReason then
      Err(CommandInvalid(command.action.None?, command.source.None?, badReason))
    else Transition(current, command.action.value, command.source.value, command.reason, newId)
  }

  /** The session order, as a relation between the phases before and after an accepted action. */
  predicate Edge(before: Phase, action: Action, after: Phase) {
    match action
    case Start => before in {Idle, Completed} && after == Starting
    case ConfirmStarted => before in {Starting, Running} && after == Running
    case Stop => before == Running && after == Stopping
    case ConfirmStopped => before in {Stopping, Completed} && after == Completed
    case MarkInterrupted => before in {Starting, Running, Stopping} && after == Interrupted
    case DiscardInterrupted => before == Interrupted && after == Idle
    case Reset => after == Idle
  }

  /**
   A well-formed command is accepted exactly when its action has an edge from the current
   phase; it then follows the edge, keeps the session unless it starts or ends one, and
   leaves a non-empty reason as given.
   */
  lemma CommandFollowsEdges(current: RecordingState, command: Command, newId: nat)
    requires command.action.Some? && command.source.Some? && |command.reason| <= MAX_REASON_LENGTH
    ensures var r, action := ApplyCommand(current, command, newId), command.action.value;
            && (r.Ok? <==> exists after :: Edge(current.phase, action, after))
            && (r.Ok? ==>
                  && Edge(current.phase, action, r.value.phase)
                  && r.value.session == (if action == Start then newId
                                         else if r.value.phase == Idle then 0
                                         else current.session)
                  && r.value.source == command.source.value && r.value.last == Did(action)
                  && (command.reason != "" ==> r.value.reason == command.reason))
  {
    var r, action := ApplyCommand(current, command, newId), command.action.value;
    if r.Ok? {
      assert Edge(current.phase, action, r.value.phase);
    }
  }

  /** Recovery is idempotent, and after it no session is active. */
  lemma RecoveryLeavesNothingActive(s: RecordingState)
    ensures !Active(Recover(s).phase) && Recover(Recover(s)) == Recover(s)
    ensures Recover(s).session == s.session
    ensures Recover(s).phase == Completed <==> s.phase == Completed
  {
  }
}
