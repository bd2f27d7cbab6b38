/**
 The duel detection runtime of app/worker/odr_worker/detection.py: counters that
 debounce the template matches of a stream of frames, and the recording commands they
 send.
 */
module Detection {
  import opened Common
  import opened Recording

  datatype Lifecycle = NoDuel | PotentialDuel | ActiveDuel | EndedDuel

  datatype Duel = Started | Ended

  datatype Event = DuelEvent(duel: Duel) | RecordingSkipped(action: Action, why: string)

  datatype TemplateKind = StartTemplate | EndTemplate

  /** The outcome of matching one template against a frame. */
  datatype TemplateMatch = TemplateMatch(kind: TemplateKind, matched: bool)

  /** Confirmation counts; the configuration loader refuses counts below one. */
  datatype Config = Config(startConfirmations: nat, endConfirmations: nat)

  predicate ValidConfig(c: Config) {
    c.startConfirmations >= 1 && c.endConfirmations >= 1
  }

  datatype Debounce = Debounce(lifecycle: Lifecycle, startCount: nat, endCount: nat)

  const QUIET: Debounce := Debounce(NoDuel, 0, 0)

  /** What a frame shows: a start template, an end template, both or neither. */
  datatype Frame = Frame(start: bool, end: bool)

  predicate Shows(matches: seq<TemplateMatch>, kind: TemplateKind) {
    exists i :: 0 <= i < |matches| && matches[i].matched && matches[i].kind == kind
  }

  function FrameOf(matches: seq<TemplateMatch>): Frame {
    Frame(Shows(matches, StartTemplate), Shows(matches, EndTemplate))
  }

  // ----- One frame ----------------------------------------------------------------

  /** The counters after a frame, and the duel event the frame completes. */
  function StepFrame(c: Config, s: Debounce, f: Frame): (Debounce, Option<Duel>) {
    if s.lifecycle == ActiveDuel then
      if !f.end then (s.(endCount := 0), None)
      else if s.endCount + 1 >= c.endConfirmations then (Debounce(EndedDuel, 0, 0), Some(Ended))
      else (s.(endCount := s.endCount + 1), None)
    else
      if !f.start then (Debounce(NoDuel, 0, s.endCount), None)
      else if s.startCount + 1 >= c.startConfirmations then (Debounce(ActiveDuel, 0, 0), Some(Started))
      else (Debounce(PotentialDuel, s.startCount + 1, s.endCount), None)
  }

  function AutomaticCommand(action: Action): Command {
    Command(Some(action), Some(Automatic), if action == Start then "detection_start" else "detection_stop")
  }

  /** `_try_recording_command`: a refused command leaves the state and adds an event. */
  function TryRecordingCommand(s: RecordingState, action: Action, newId: nat): (RecordingState, seq<Event>) {
    match ApplyCommand(s, AutomaticCommand(action), newId)
    case Ok(next) => (next, [])
    case Err(e) =>
      (s, [RecordingSkipped(action, if e.TransitionInvalid? then e.why else "recording_command_invalid")])
  }

  /** The recording state and the events after a frame. */
  function Notify(fired: Option<Duel>, s: RecordingState, newId: nat): (RecordingState, seq<Event>) {
    match fired
    case None => (s, [])
    case Some(duel) =>
      var (next, skipped) := TryRecordingCommand(s, if duel == Started then Start else Stop, newId);
      (next, [DuelEvent(duel)] + skipped)
  }

  /**
   Duel events drive the recording and nothing else does: a duel that starts begins a new
   session if none is active, one that ends stops a running recording, and where the
   session does not allow it, the state stays and an event says that the command was skipped.
   */
  lemma DuelDrivesRecording(duel: Duel, s: RecordingState, newId: nat)
    ensures var (next, events) := Notify(Some(duel), s, newId);
            var wanted := if duel == Started then s.phase == Idle || s.phase == Completed else s.phase == Running;
            && events != [] && events[0] == DuelEvent(duel)
            && (wanted ==> |events| == 1 && next.source == Automatic
                           && (duel == Started ==> next.phase == Starting && next.session == newId)
                           && (duel == Ended ==> next.phase == Stopping && next.session == s.session))
            && (!wanted ==> next == s && |events| == 2 && events[1].RecordingSkipped?)
    ensures Notify(None, s, newId) == (s, [])
  {
  }

  class DetectionRuntime {
    const config: Config
    var state: Debounce
    var lastEvent: Option<Event>

    constructor (config: Config)
      ensures this.config == config && state == QUIET && lastEvent == None
    {
      this.config := config;
      state := QUIET;
      lastEvent := None;
    }

    /** `evaluate`: counts the frame and sends `start` or `stop` when a duel event fires. */
    method Evaluate(matches: seq<TemplateMatch>, recording: RecordingState, newId: nat)
      returns (events: seq<Event>, nextRecording: RecordingState)
      modifies this
      ensures var (next, fired) := StepFrame(config, old(state), FrameOf(matches));
              && state == next
              && (nextRecording, events) == Notify(fired, recording, newId)
              && lastEvent == if events != [] then Some(events[|events| - 1]) else old(lastEvent)
    {
      var hasStart := Shows(matches, StartTemplate);
      var hasEnd := Shows(matches, EndTemplate);
      events := [];
      nextRecording := recording;
      var lifecycle, startCount, endCount := state.lifecycle, state.startCount, state.endCount;
      if lifecycle == EndedDuel {
        lifecycle := NoDuel;
      }
      if lifecycle == NoDuel || lifecycle == PotentialDuel {
        if hasStart {
          startCount := startCount + 1;
          lifecycle := PotentialDuel;
          if startCount >= config.startConfirmations {
            lifecycle := ActiveDuel;
            startCount, endCount := 0, 0;
            var (next, skipped) := TryRecordingCommand(nextRecording, Start, newId);
            events := [DuelEvent(Started)] + skipped;
            nextRecording := next;
          }
        } else {
          startCount := 0;
          lifecycle := NoDuel;
        }
      } else {
        if hasEnd {
          endCount := endCount + 1;
          if endCount >= config.endConfirmations {
            lifecycle := EndedDuel;
            startCount, endCount := 0, 0;
            var (next, skipped) := TryRecordingCommand(nextRecording, Stop, newId);
            events := [DuelEvent(Ended)] + skipped;
            nextRecording := next;
          }
        } else {
          endCount := 0;
        }
      }
      if events != [] {
        lastEvent := Some(events[|events| - 1]);
      }
      state := Debounce(lifecycle, startCount, endCount);
    }
  }

  // ----- Streams of frames ----------------------------------------------------------

  /** The counters after the first `n` frames. */
  function After(c: Config, frames: seq<Frame>, n: nat): Debounce
    requires n <= |frames|
  {
    if n == 0 then QUIET else StepFrame(c, After(c, frames, n - 1), frames[n - 1]).0
  }

  /** The duel event that frame `i` fires, if any. */
  function Fired(c: Config, frames: seq<Frame>, i: nat): Option<Duel>
    requires i < |frames|
  {
    StepFrame(c, After(c, frames, i), frames[i]).1
  }

  /** The last duel event among the first `n` frames. */
  function LastFired(c: Config, frames: seq<Frame>, n: nat): Option<Duel>
    requires n <= |frames|
  {
    if n == 0 then None
    else if Fired(c, frames, n - 1).Some? then Fired(c, frames, n - 1)
    else LastFired(c, frames, n - 1)
  }

  /** The first frame after the last duel event among the first `n` frames. */
  function PhaseStart(c: Config, frames: seq<Frame>, n: nat): (from: nat)
    requires n <= |frames|
    ensures from <= n
  {
    if n == 0 then 0
    else if Fired(c, frames, n - 1).Some? then n
    else PhaseStart(c, frames, n - 1)
  }

  predicate Hits(f: Frame, duel: Duel) {
    if duel == Started then f.start else f.end
  }

  /** The event that is due next: start and end take turns, and start comes first. */
  function Due(c: Config, frames: seq<Frame>, n: nat): Duel
    requires n <= |frames|
  {
    if LastFired(c, frames, n) == Some(Started) then Ended else Started
  }

  function Needed(c: Config, duel: Duel): nat {
    if duel == Started then c.startConfirmations else c.endConfirmations
  }

  /** Frame `i` completes a run of `count` consecutive hits that lies after frame `from`. */
  predicate RunEnds(frames: seq<Frame>, from: nat, count: nat, duel: Duel, i: nat)
    requires i < |frames|
  {
    from + count <= i + 1 && forall m :: i + 1 - count <= m <= i ==> Hits(frames[m], duel)
  }

  /** How many of the last frames before `n`, back to `from` at most, are hits. */
  function Trailing(frames: seq<Frame>, from: nat, n: nat, duel: Duel): (count: nat)
    requires n <= |frames|
    ensures count <= if from <= n then n - from else 0
  {
    if n <= from || !Hits(frames[n - 1], duel) then 0 else Trailing(frames, from, n - 1, duel) + 1
  }

  lemma {:induction false} TrailingIsRun(frames: seq<Frame>, from: nat, i: nat, duel: Duel, count: nat)
    requires from <= i < |frames| && count >= 1
    ensures Trailing(frames, from, i + 1, duel) >= count <==> RunEnds(frames, from, count, duel, i)
  {
    if Hits(frames[i], duel) && count > 1 {
      if from < i {
        TrailingIsRun(frames, from, i - 1, duel, count - 1);
      }
    }
  }

  /** The state after any number of frames, said in terms of the history alone. */
  ghost predicate ReflectsHistory(c: Config, frames: seq<Frame>, n: nat)
    requires n <= |frames|
  {
    var s, from, due := After(c, frames, n), PhaseStart(c, frames, n), Due(c, frames, n);
    && (s.lifecycle == ActiveDuel <==> due == Ended)
    && s.startCount == (if due == Started then Trailing(frames, from, n, Started) else 0)
    && s.endCount == (if due == Ended then Trailing(frames, from, n, Ended) else 0)
    && Trailing(frames, from, n, due) < Needed(c, due)
    && (s.lifecycle == PotentialDuel <==> due == Started && s.startCount > 0)
    && (s.lifecycle == EndedDuel <==> n > 0 && Fired(c, frames, n - 1) == Some(Ended))
  }

  /**
   Debouncing refines its history: the lifecycle says which event is due, the counters are
   the lengths of the trailing runs since the last event, and both stay below their limits.
   */
  lemma {:induction false} CountersReflectHistory(c: Config, frames: seq<Frame>, n: nat)
    requires ValidConfig(c) && n <= |frames|
    ensures ReflectsHistory(c, frames, n)
  {
    if n > 0 {
      CountersReflectHistory(c, frames, n - 1);
    }
  }

  /** A frame fires exactly when it completes a run of the due event since the last event. */
  lemma FiresOnRun(c: Config, frames: seq<Frame>, i: nat)
    requires ValidConfig(c) && i < |frames|
    ensures var due := Due(c, frames, i);
            Fired(c, frames, i) ==
            if RunEnds(frames, PhaseStart(c, frames, i), Needed(c, due), due, i) then Some(due) else None
  {
    var due := Due(c, frames, i);
    CountersReflectHistory(c, frames, i);
    TrailingIsRun(frames, PhaseStart(c, frames, i), i, due, Needed(c, due));
  }

  lemma {:induction false} SamePhase(c: Config, frames: seq<Frame>, m: nat, n: nat)
    requires n <= |frames| && PhaseStart(c, frames, n) <= m <= n
    ensures PhaseStart(c, frames, m) == PhaseStart(c, frames, n) && Due(c, frames, m) == Due(c, frames, n)
    ensures m < n ==> Fired(c, frames, m) == None
    decreases n
  {
    if m < n {
      SamePhase(c, frames, m, n - 1);
    }
  }

  /**
   Each duel event fires exactly at the frame that completes the first run of the needed
   number of consecutive hits since the previous event.
   */
  lemma FiresAtFirstRun(c: Config, frames: seq<Frame>, i: nat, duel: Duel)
    requires ValidConfig(c) && i < |frames|
    ensures var from := PhaseStart(c, frames, i);
            Fired(c, frames, i) == Some(duel) <==>
            && Due(c, frames, i) == duel
            && RunEnds(frames, from, Needed(c, duel), duel, i)
            && forall m :: from <= m < i ==> !RunEnds(frames, from, Needed(c, duel), duel, m)
  {
    FiresOnRun(c, frames, i);
    if Due(c, frames, i) == duel {
      forall m | PhaseStart(c, frames, i) <= m < i
        ensures !RunEnds(frames, PhaseStart(c, frames, i), Needed(c, duel), duel, m)
      {
        SamePhase(c, frames, m, i);
        FiresOnRun(c, frames, m);
      }
    }
  }

  /** Duel events alternate: the event before a start, if any, is an end, and the event before an end is a start. */
  lemma EventsAlternate(c: Config, frames: seq<Frame>, i: nat)
    requires ValidConfig(c) && i < |frames| && Fired(c, frames, i).Some?
    ensures var from := PhaseStart(c, frames, i);
            && (from == 0 ==> Fired(c, frames, i) == Some(Started))
            && (from > 0 ==> Fired(c, frames, from - 1).Some? && Fired(c, frames, from - 1) != Fired(c, frames, i))
  {
    FiresOnRun(c, frames, i);
    PhaseStartIsAfterAnEvent(c, frames, i);
  }

  lemma {:induction false} PhaseStartIsAfterAnEvent(c: Config, frames: seq<Frame>, n: nat)
    requires n <= |frames|
    ensures LastFired(c, frames, n).None? <==> PhaseStart(c, frames, n) == 0
    ensures PhaseStart(c, frames, n) > 0 ==>
              Fired(c, frames, PhaseStart(c, frames, n) - 1) == LastFired(c, frames, n)
  {
    if n > 0 && Fired(c, frames, n - 1).None? {
      PhaseStartIsAfterAnEvent(c, frames, n - 1);
    }
  }
}
