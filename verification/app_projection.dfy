/**
 The queue and the match table inside a run of the worker application run through the
 very histories that modules UploadRuns and Metadata speak of, so their results hold for
 the whole application.
 */
module AppProjection {
  import opened Common
  import opened Recording
  import opened App
  import opened AppRuns
  import Detection
  import Metadata
  import Text
  import UploadRuns

  // ----- The events an application event means for the stores ------------------------------

  /** The recording state a command links, if its handler gets as far as the match store. */
  function Linking(w: World, e: Event, newId: nat): Option<RecordingState> {
    if !e.Post? || e.path.NotAString? || e.reach == ToMemory || e.reach == ToSave then None
    else
      match ApplyCommand(w.memory, e.command, newId)
      case Err(_) => None
      case Ok(next) => if Links(next) && next.session != 0 then Some(next) else None
  }

  function MatchEvent(w: World, e: Event, newId: nat): Option<Metadata.Event> {
    match e
    case CreateMatch(deckName) => Some(Metadata.Create(deckName))
    case UpdateMatch(id, newName, otherFields) => Some(Metadata.Update(id, newName, otherFields))
    case Post(_, _, _) => (match Linking(w, e, newId) case None => None case Some(s) => Some(Metadata.Record(s.session)))
    case _ => None
  }

  function QueueEvent(w: World, e: Event, newId: nat): Option<UploadRuns.Event> {
    match e
    case QueueWork(work) => if Outside(work) then Some(work) else None
    case Restart(_, _, gone, inFlight) =>
      (match inFlight
       case None => Some(UploadRuns.Restart(gone))
       case Some(u) => Some(UploadRuns.CrashInUpload(u.id, u.facts, u.delivered, gone)))
    case Post(_, path, reach) =>
      (match Linking(w, e, newId)
       case None => None
       case Some(s) =>
         if reach == ToMatch || Text.Strip(path.text) == "" then None
         else Some(UploadRuns.LinkMatch(Metadata.Recorded(w.matches, s.session).1.value.id, Text.Strip(path.text))))
    case _ => None
  }

  lemma StepProjects(fold: Text.Fold, w: World, e: Event, newId: nat)
    ensures Step(fold, w, e, newId).matches ==
            (match MatchEvent(w, e, newId) case None => w.matches case Some(x) => Metadata.Step(fold, w.matches, x))
    ensures Step(fold, w, e, newId).queue ==
            (match QueueEvent(w, e, newId) case None => w.queue case Some(x) => UploadRuns.Step(w.queue, x))
  {
    hide Metadata.Created, Metadata.Updated, Commanded, Framed, Linking;
    match e
    case Post(command, path, reach) => PostProjects(fold, w, e, newId);
    case Frame(templates, reach) => FrameKeepsTables(w, templates, newId, reach);
    case Restart(_, _, gone, inFlight) => RestartProjects(w.queue, gone, inFlight);
    case _ => hide UploadRuns.Step;
  }

  lemma FrameKeepsTables(w: World, templates: seq<Detection.TemplateMatch>, newId: nat, reach: Reach)
    ensures var next := Framed(w, templates, newId, reach).0; next.matches == w.matches && next.queue == w.queue
  {
    hide Detection.StepFrame, Detection.FrameOf;
  }

  lemma RestartProjects(q: QueueWorld, gone: string -> bool, inFlight: Option<InFlight>)
    ensures UploadRuns.Step(Started(q, inFlight), UploadRuns.Restart(gone)) ==
            match inFlight
            case None => UploadRuns.Step(q, UploadRuns.Restart(gone))
            case Some(u) => UploadRuns.Step(q, UploadRuns.CrashInUpload(u.id, u.facts, u.delivered, gone))
  {
    hide UploadRuns.Interrupt;
  }

  lemma PostProjects(fold: Text.Fold, w: World, e: Event, newId: nat)
    requires e.Post?
    ensures var next := Commanded(w, e.command, e.path, newId, e.reach).0;
            && next.matches == (match MatchEvent(w, e, newId) case None => w.matches case Some(x) => Metadata.Step(fold, w.matches, x))
            && next.queue == (match QueueEvent(w, e, newId) case None => w.queue case Some(x) => UploadRuns.Step(w.queue, x))
  {
    hide UploadRuns.Step, Text.Strip, Transition;
  }

  // ----- Whole runs ---------------------------------------------------------------------------

  function MatchTrace(fold: Text.Fold, events: seq<Event>, n: nat): seq<Metadata.Event>
    requires n <= |events|
  {
    if n == 0 then []
    else
      match MatchEvent(Run(fold, events, n - 1), events[n - 1], n)
      case None => MatchTrace(fold, events, n - 1)
      case Some(x) => MatchTrace(fold, events, n - 1) + [x]
  }

  function QueueTrace(fold: Text.Fold, events: seq<Event>, n: nat): seq<UploadRuns.Event>
    requires n <= |events|
  {
    if n == 0 then []
    else
      match QueueEvent(Run(fold, events, n - 1), events[n - 1], n)
      case None => QueueTrace(fold, events, n - 1)
      case Some(x) => QueueTrace(fold, events, n - 1) + [x]
  }

  lemma {:induction false} MatchRunOfPrefix(fold: Text.Fold, a: seq<Metadata.Event>, x: Metadata.Event, n: nat)
    requires n <= |a|
    ensures Metadata.Run(fold, a + [x], n) == Metadata.Run(fold, a, n)
  {
    hide Metadata.Step;
    if n > 0 {
      MatchRunOfPrefix(fold, a, x, n - 1);
    }
  }

  lemma {:induction false} QueueRunOfPrefix(a: seq<UploadRuns.Event>, x: UploadRuns.Event, n: nat)
    requires n <= |a|
    ensures UploadRuns.Run(a + [x], n) == UploadRuns.Run(a, n)
  {
    hide UploadRuns.Step;
    if n > 0 {
      QueueRunOfPrefix(a, x, n - 1);
    }
  }

  /** The match table of a run is the one that its match events produce. */
  lemma {:induction false} MatchesProject(fold: Text.Fold, events: seq<Event>, n: nat)
    requires n <= |events|
    ensures var trace := MatchTrace(fold, events, n); Run(fold, events, n).matches == Metadata.Run(fold, trace, |trace|)
  {
    hide Step, MatchEvent, Metadata.Step;
    if n > 0 {
      MatchesProject(fold, events, n - 1);
      var w, trace := Run(fold, events, n - 1), MatchTrace(fold, events, n - 1);
      StepProjects(fold, w, events[n - 1], n);
      var x := MatchEvent(w, events[n - 1], n);
      if x.Some? {
        MatchRunOfPrefix(fold, trace, x.value, |trace|);
        assert Metadata.Run(fold, trace + [x.value], |trace| + 1) == Metadata.Step(fold, Metadata.Run(fold, trace, |trace|), x.value);
      }
    }
  }

  /** The queue of a run, with its ledger, is the one that its queue events produce. */
  lemma {:induction false} QueueProjects(fold: Text.Fold, events: seq<Event>, n: nat)
    requires n <= |events|
    ensures var trace := QueueTrace(fold, events, n); Run(fold, events, n).queue == UploadRuns.Run(trace, |trace|)
  {
    hide Step, QueueEvent, UploadRuns.Step;
    if n > 0 {
      QueueProjects(fold, events, n - 1);
      var w, trace := Run(fold, events, n - 1), QueueTrace(fold, events, n - 1);
      StepProjects(fold, w, events[n - 1], n);
      var x := QueueEvent(w, events[n - 1], n);
      if x.Some? {
        QueueRunOfPrefix(trace, x.value, |trace|);
        assert UploadRuns.Run(trace + [x.value], |trace| + 1) == UploadRuns.Step(UploadRuns.Run(trace, |trace|), x.value);
      }
    }
  }

  // ----- Results carried over ---------------------------------------------------------------

  /**
   No unaccounted duplicate upload, in any run of the whole application and whatever the
   uploader reports.
   */
  lemma NoUnaccountedDuplicate(fold: Text.Fold, events: seq<Event>, n: nat, k: nat)
    requires n <= |events| && k < |Run(fold, events, n).queue.rows|
    ensures var l := Run(fold, events, n).queue.ledgers[k];
            l.deliveries <= 1 + l.reviewedRetries + l.failureClaims + l.misreports
  {
    hide Step, UploadRuns.Step, QueueTrace;
    var trace := QueueTrace(fold, events, n);
    QueueProjects(fold, events, n);
    UploadRuns.NoUnaccountedDuplicate(trace, |trace|, k);
  }

  /** Outcomes mean what they say, and operators issue no harmful command. */
  predicate Orderly(e: Event) {
    e.QueueWork? ==> UploadRuns.Legal(e.work) && Harmless(e.work)
  }

  predicate Harmless(work: UploadRuns.Event) {
    work.OperatorCommand? ==> !UploadRuns.Harmful(work.command)
  }

  lemma {:induction false} TraceIsOrderly(fold: Text.Fold, events: seq<Event>, n: nat)
    requires n <= |events| && forall i :: 0 <= i < n ==> Orderly(events[i])
    ensures var trace := QueueTrace(fold, events, n);
            UploadRuns.AllLegal(trace) && forall i :: 0 <= i < |trace| ==> Harmless(trace[i])
  {
    hide Step, QueueEvent, Orderly, Harmless, UploadRuns.Legal;
    if n > 0 {
      TraceIsOrderly(fold, events, n - 1);
      QueueEventIsOrderly(Run(fold, events, n - 1), events[n - 1], n);
    }
  }

  lemma QueueEventIsOrderly(w: World, e: Event, newId: nat)
    requires Orderly(e)
    ensures var x := QueueEvent(w, e, newId); x.Some? ==> UploadRuns.Legal(x.value) && Harmless(x.value)
  {
    hide Text.Strip, UploadRuns.Harmful, Linking, Metadata.Recorded;
  }

  /**
   No unreviewed duplicate upload in any run of the whole application: an item's video
   arrives at most once more than an operator retried it out of manual review, whatever
   recordings, restarts and crashes happen around it and whatever harmless commands
   operators issue.
   */
  lemma NoUnreviewedDuplicate(fold: Text.Fold, events: seq<Event>, n: nat, k: nat)
    requires n <= |events| && (forall i :: 0 <= i < n ==> Orderly(events[i])) && k < |Run(fold, events, n).queue.rows|
    ensures var l := Run(fold, events, n).queue.ledgers[k]; l.deliveries <= 1 + l.reviewedRetries
  {
    hide Step, UploadRuns.Step, UploadRuns.Harmful, QueueTrace;
    var trace := QueueTrace(fold, events, n);
    TraceIsOrderly(fold, events, n);
    QueueProjects(fold, events, n);
    assert forall i :: 0 <= i < |trace| ==> Harmless(trace[i]);
    UploadRuns.HarmlessRunHasNoUnreviewed(trace, |trace|);
  }

  predicate KeysAgree(fold: Text.Fold, e: Event) {
    match e
    case CreateMatch(deckName) => Metadata.CanonicalName(fold, deckName)
    case UpdateMatch(_, newName, _) => Metadata.CanonicalName(fold, newName)
    case _ => true
  }

  lemma {:induction false} TraceIsCanonical(fold: Text.Fold, events: seq<Event>, n: nat)
    requires n <= |events| && forall i :: 0 <= i < n ==> KeysAgree(fold, events[i])
    ensures Metadata.AllCanonical(fold, MatchTrace(fold, events, n))
  {
    hide Step, Metadata.CanonicalName;
    if n > 0 {
      TraceIsCanonical(fold, events, n - 1);
    }
  }

  /** Deck numbers are unique in every run of the whole application, with rows made by recordings among the others. */
  lemma DeckNumbersAreUnique(fold: Text.Fold, events: seq<Event>, n: nat, j: nat, k: nat)
    requires n <= |events| && (forall i :: 0 <= i < n ==> KeysAgree(fold, events[i]))
    requires j < |Run(fold, events, n).matches| && k < |Run(fold, events, n).matches| && j != k
    ensures var rows := Run(fold, events, n).matches;
            rows[j].deckName != "" && Metadata.DeckKey(fold, rows[j].deckName) == Metadata.DeckKey(fold, rows[k].deckName) ==>
              rows[j].deckNumber != rows[k].deckNumber
  {
    hide Step, Metadata.Step, MatchTrace, Metadata.DeckKey;
    var trace := MatchTrace(fold, events, n);
    TraceIsCanonical(fold, events, n);
    MatchesProject(fold, events, n);
    Metadata.DeckNumbersAreUnique(fold, trace, |trace|, j, k);
  }
}
