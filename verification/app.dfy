/**
 The worker application of app/worker/odr_worker/api.py: startup, the handler of
 recording commands and the handler of detection frames. Together they own the recording
 state in memory, its saved copy, the debounce counters, the match rows and the queue
 rows.
 */
module App {
  import opened Common
  import opened Detection
  import opened Recording
  import opened Text
  import Metadata
  import Queue
  import UploadRuns

  /** A queue table together with the ledger of what really happened to its items. */
  type QueueWorld = w: UploadRuns.World | |w.rows| == |w.ledgers| witness UploadRuns.EMPTY

  /** The detection runtime: its configuration and its counters. */
  datatype Detector = Detector(config: Config, counters: Debounce)

  /** Without a readable template configuration there is no detection runtime. */
  datatype World = World(
    memory: RecordingState,
    saved: Saved,
    detection: Option<Detector>,
    matches: Metadata.Matches,
    queue: QueueWorld)

  /** Before the first startup there is no saved state and both tables are empty. */
  const EMPTY: World := World(INITIAL, Missing, None, [], UploadRuns.EMPTY)

  /** How far a handler gets before an I/O or database error, or a crash, ends it. */
  datatype Reach = ToMemory | ToSave | ToMatch | ToEnd

  /** The `video_path` of a payload; an absent or null one counts as empty. */
  datatype VideoPath = Path(text: string) | NotAString

  datatype Link =
    | Unlinked
    | OutputLinked(matchId: nat, item: Queue.QueueItem)
    | AlreadyLinked(matchId: nat, item: Queue.QueueItem)
    | PathMissing(matchId: nat)

  datatype Reply = BadVideoPath | Refused(error: RecordingError) | Broken | Answered(state: RecordingState, link: Link)

  // ----- What the handlers do, as functions --------------------------------------------

  /** After the save: the match row of the session, then its queue row. No link means that the handler broke. */
  function LinkRecording(w: World, session: nat, path: string, reach: Reach): (World, Option<Link>) {
    var (matches, found) := Metadata.Recorded(w.matches, session);
    if reach == ToSave || found.Err? then (w, None)
    else
      var m, w1 := found.value.id, w.(matches := matches);
      if reach == ToMatch then (w1, None)
      else if path != "" then
        (w1.(queue := UploadRuns.Step(w.queue, UploadRuns.LinkMatch(m, path))),
         Some(OutputLinked(m, Queue.Linked(w.queue.rows, m, path).1.value)))
      else
        match Queue.FindMatch(w.queue.rows, m, 0)
        case Some(k) => (w1, Some(AlreadyLinked(m, w.queue.rows[k])))
        case None => (w1, Some(PathMissing(m)))
  }

  predicate Links(s: RecordingState) {
    s.phase == Completed && s.source == Manual
  }

  /** `post_recording_command`: memory first, then the saved copy, then match and queue rows. */
  function Commanded(w: World, command: Command, path: VideoPath, newId: nat, reach: Reach): (World, Reply) {
    if path.NotAString? then (w, BadVideoPath)
    else
      match ApplyCommand(w.memory, command, newId)
      case Err(e) => (w, Refused(e))
      case Ok(next) =>
        if reach == ToMemory then (w.(memory := next), Broken)
        else
          var w1 := w.(memory := next, saved := Saved(next));
          if !Links(next) then (w1, Answered(next, Unlinked))
          else
            var (w2, link) := LinkRecording(w1, next.session, Strip(path.text), reach);
            (w2, match link case None => Broken case Some(l) => Answered(next, l))
  }

  /**
   `post_detection_frame`: the counters always move, the recording state only when an event
   fires. Without a detection runtime the frame is refused.
   */
  function Framed(w: World, matches: seq<TemplateMatch>, newId: nat, reach: Reach): (World, Option<seq<Event>>) {
    match w.detection
    case None => (w, None)
    case Some(d) =>
      var (counters, fired) := StepFrame(d.config, d.counters, FrameOf(matches));
      var (next, events) := Notify(fired, w.memory, newId);
      var w1 := w.(detection := Some(Detector(d.config, counters)), memory := next);
      (if next != w.memory && reach != ToMemory then w1.(saved := Saved(next)) else w1, Some(events))
  }

  /** `_load_detection_runtime`: a new runtime with quiet counters, or none when the configuration is refused. */
  function Loaded(config: Option<Config>): Option<Detector> {
    match config
    case None => None
    case Some(c) => Some(Detector(c, QUIET))
  }

  /** Startup: the saved copy is read, recovered and saved again, and interrupted uploads are settled. */
  function Restarted(w: World, readable: bool, config: Option<Config>, gone: string -> bool): World {
    var memory := Recover(Load(if readable then w.saved else Unreadable));
    World(memory, Saved(memory), Loaded(config), w.matches, UploadRuns.Step(w.queue, UploadRuns.Restart(gone)))
  }

  lemma LinkStep(q: QueueWorld, m: nat, path: string)
    ensures UploadRuns.Step(q, UploadRuns.LinkMatch(m, path)) == UploadRuns.AddRow(q, Queue.Linked(q.rows, m, path).0)
  {
  }

  lemma RefusalAddsNoMatch(rows: Metadata.Matches, session: nat)
    ensures Metadata.Recorded(rows, session).1.Err? ==> Metadata.Recorded(rows, session).0 == rows
  {
  }

  lemma LinkedWithPath(rows: Queue.Table, m: nat, path: string)
    requires path != ""
    ensures Queue.Linked(rows, m, path).1.Ok?
  {
  }

  lemma RestartStep(q: QueueWorld, gone: string -> bool)
    ensures UploadRuns.Step(q, UploadRuns.Restart(gone)) == q.(rows := Queue.Recovered(q.rows, gone))
  {
  }

  // ----- The application object ------------------------------------------------------------

  class Application {
    var memory: RecordingState
    var saved: Saved
    var detection: DetectionRuntime?
    const matches: Metadata.MatchMetadataStore
    const queue: Queue.QueueStore
    ghost var ledgers: seq<UploadRuns.Ledger>

    ghost predicate Valid()
      reads this, queue
    {
      |queue.rows| == |ledgers|
    }

    ghost function Runtime(): Option<Detector>
      reads this, detection
    {
      if detection == null then None else Some(Detector(detection.config, detection.state))
    }

    ghost function State(): World
      requires Valid()
      reads this, detection, matches, queue
    {
      World(memory, saved, Runtime(), matches.rows, UploadRuns.World(queue.rows, ledgers))
    }

    /** The application before its first startup. */
    constructor (fold: Fold)
      ensures Valid() && State() == EMPTY && fresh(matches) && fresh(queue) && matches.fold == fold
    {
      memory := INITIAL;
      saved := Missing;
      detection := null;
      matches := new Metadata.MatchMetadataStore(fold);
      queue := new Queue.QueueStore();
      ledgers := [];
    }

    /** Startup, and every registration or capture of a template, replace the detection runtime. */
    method LoadDetectionRuntime(config: Option<Config>)
      requires Valid()
      modifies this`detection
      ensures Valid() && State() == old(State()).(detection := Loaded(config))
      ensures detection == null || fresh(detection)
    {
      if config.None? {
        detection := null;
      } else {
        detection := new DetectionRuntime(config.value);
      }
    }

    method Startup(readable: bool, config: Option<Config>, gone: string -> bool)
      requires Valid()
      modifies this, queue
      ensures Valid() && State() == Restarted(old(State()), readable, config, gone)
    {
      hide UploadRuns.Step, Queue.Recovered, Recover, Load;
      RestartStep(State().queue, gone);
      memory := Recover(Load(if readable then saved else Unreadable));
      saved := Saved(memory);
      LoadDetectionRuntime(config);
      var _ := queue.RecoverStartup(gone);
    }

    method PostRecordingCommand(command: Command, path: VideoPath, newId: nat, reach: Reach) returns (reply: Reply)
      requires Valid()
      modifies this, matches, queue
      ensures Valid() && (State(), reply) == Commanded(old(State()), command, path, newId, reach)
    {
      hide UploadRuns.Step, Queue.Linked, Metadata.Recorded, ApplyCommand, Queue.FindMatch, Strip;
      if path.NotAString? {
        return BadVideoPath;
      }
      var applied := ApplyCommand(memory, command, newId);
      if applied.Err? {
        return Refused(applied.error);
      }
      memory := applied.value;
      if reach == ToMemory {
        return Broken;
      }
      saved := Saved(memory);
      var answer := memory;
      if memory.phase != Completed || memory.source != Manual {
        return Answered(answer, Unlinked);
      }
      if reach == ToSave {
        return Broken;
      }
      RefusalAddsNoMatch(matches.rows, memory.session);
      var found := matches.GetOrCreateRecordingMatch(memory.session);
      if found.Err? || reach == ToMatch {
        return Broken;
      }
      var output := Strip(path.text);
      if output != "" {
        LinkStep(State().queue, found.value.id, output);
        LinkedWithPath(State().queue.rows, found.value.id, output);
        var linked := queue.GetOrCreateReadyItemForMatch(found.value.id, output);
        ledgers := if |queue.rows| > |ledgers| then ledgers + [UploadRuns.Ledger(0, 0, 0, 0)] else ledgers;
        return Answered(answer, OutputLinked(found.value.id, linked.value));
      }
      var place := Queue.FindMatch(queue.rows, found.value.id, 0);
      return Answered(answer, match place
                              case Some(k) => AlreadyLinked(found.value.id, queue.rows[k])
                              case None => PathMissing(found.value.id));
    }

    method PostDetectionFrame(templateMatches: seq<TemplateMatch>, newId: nat, reach: Reach)
      returns (events: Option<seq<Event>>)
      requires Valid()
      modifies this, detection
      ensures Valid() && (State(), events) == Framed(old(State()), templateMatches, newId, reach)
    {
      if detection == null {
        return None;
      }
      var fired, next := detection.Evaluate(templateMatches, memory, newId);
      if next != memory {
        memory := next;
        if reach != ToMemory {
          saved := Saved(next);
        }
      }
      return Some(fired);
    }
  }
}
