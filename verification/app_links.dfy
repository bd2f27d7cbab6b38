/**
 What runs of the worker application keep about match and queue rows: one queue row per
 match, a stable answer when a completed session is confirmed again, and the results
 about queue and metadata runs carried over to the whole application.
 */
module AppLinks {
  import opened Common
  import Detection
  import opened Recording
  import opened App
  import opened AppRuns
  import Metadata
  import Queue
  import Text
  import Upload
  import UploadRuns

  // ----- Queue rows of a match -------------------------------------------------------------

  predicate AtMostOne(rows: Queue.Table, m: nat) {
    forall j, k :: 0 <= j < k < |rows| && rows[j].matchId == Some(m) ==> rows[k].matchId != Some(m)
  }

  /** Rows keep their place, their id and their match. */
  predicate Extends(a: Queue.Table, b: Queue.Table) {
    && |a| <= |b| <= |a| + 1
    && forall k :: 0 <= k < |a| ==> b[k].id == a[k].id && b[k].matchId == a[k].matchId
  }

  /** A row that is added names no match, or a match that an operator or the handler asked for. */
  predicate Adds(a: Queue.Table, b: Queue.Table, operator: Option<nat>) {
    Extends(a, b) &&
    (|b| > |a| && b[|a|].matchId.Some? ==>
       b[|a|].matchId == operator || forall k :: 0 <= k < |a| ==> a[k].matchId != b[|a|].matchId)
  }

  /** The match an operator names when creating a queue row by hand. */
  function NamedByHand(work: UploadRuns.Event): Option<nat> {
    if work.CreateItem? then work.matchId else None
  }

  function ByHand(e: Event): Option<nat> {
    if e.QueueWork? then NamedByHand(e.work) else None
  }

  predicate SameRow(a: Queue.QueueItem, b: Queue.QueueItem) {
    a.id == b.id && a.matchId == b.matchId
  }

  lemma CommandsKeepRow(item: Queue.QueueItem, command: Queue.Command)
    ensures Queue.ApplyItem(item, command).Ok? ==> SameRow(item, Queue.ApplyItem(item, command).value)
  {
  }

  lemma ProcessingKeepsRow(item: Queue.QueueItem, facts: Upload.Facts, outcome: Upload.Outcome)
    ensures SameRow(item, Upload.ProcessRow(item, facts, outcome).0)
  {
    hide Upload.Uploadable;
  }

  lemma PlaceAdds(q: QueueWorld, k: nat, facts: Queue.QueueItem -> Upload.Facts, outcome: Upload.Outcome, delivered: bool)
    requires k < |q.rows|
    ensures var rows := UploadRuns.ProcessPlace(q, k, facts, outcome, delivered).rows;
            Extends(q.rows, rows) && |rows| == |q.rows|
  {
    hide Upload.ProcessRow, Upload.Uploadable;
    ProcessingKeepsRow(q.rows[k], facts(q.rows[k]), outcome);
  }

  lemma InFlightAdds(q: QueueWorld, inFlight: Option<InFlight>)
    ensures Extends(q.rows, AppRuns.Started(q, inFlight).rows) && |AppRuns.Started(q, inFlight).rows| == |q.rows|
  {
  }

  lemma QueueStepAdds(q: QueueWorld, e: UploadRuns.Event)
    requires !e.ResetQueue?
    ensures Adds(q.rows, UploadRuns.Step(q, e).rows, NamedByHand(e))
  {
    hide Queue.ApplyItem, UploadRuns.ProcessPlace, UploadRuns.Interrupt, UploadRuns.OperatorLedger;
    match e
    case OperatorCommand(id, command) =>
      var place := Queue.Find(q.rows, id, 0);
      if place.Some? {
        CommandsKeepRow(q.rows[place.value], command);
      }
    case ProcessItem(id, facts, outcome, delivered) =>
      var place := Queue.Find(q.rows, id, 0);
      if place.Some? {
        PlaceAdds(q, place.value, facts, outcome, delivered);
      }
    case ProcessNext(facts, outcome, delivered) =>
      var place := Queue.FindReady(q.rows, 0);
      if place.Some? {
        PlaceAdds(q, place.value, facts, outcome, delivered);
      }
    case CrashInUpload(id, facts, delivered, _) =>
      InFlightAdds(q, Some(InFlight(id, facts, delivered)));
    case _ =>
  }

  predicate ResetsQueue(e: Event) {
    e.QueueWork? && e.work.ResetQueue?
  }

  lemma StepAdds(fold: Text.Fold, w: World, e: Event, newId: nat)
    requires !ResetsQueue(e)
    ensures Adds(w.queue.rows, Step(fold, w, e, newId).queue.rows, ByHand(e))
  {
    hide UploadRuns.Step, Framed, Commanded, Recover, Load;
    match e
    case QueueWork(work) =>
      QueueStepAdds(w.queue, work);
    case Restart(_, _, gone, inFlight) =>
      InFlightAdds(w.queue, inFlight);
      QueueStepAdds(AppRuns.Started(w.queue, inFlight), UploadRuns.Restart(gone));
    case Post(command, path, reach) => PostAdds(w, command, path, newId, reach);
    case Frame(templates, reach) => FrameKeepsQueue(w, templates, newId, reach);
    case _ =>
  }

  lemma PostAdds(w: World, command: Command, path: VideoPath, newId: nat, reach: Reach)
    ensures Adds(w.queue.rows, Commanded(w, command, path, newId, reach).0.queue.rows, None)
  {
    hide UploadRuns.Step, Queue.FindMatch, Queue.Linked, Text.Strip, ApplyCommand, Metadata.Recorded;
    if path.Path? {
      forall m: nat {
        QueueStepAdds(w.queue, UploadRuns.LinkMatch(m, Text.Strip(path.text)));
      }
    }
  }

  lemma FrameKeepsQueue(w: World, templates: seq<Detection.TemplateMatch>, newId: nat, reach: Reach)
    ensures Framed(w, templates, newId, reach).0.queue == w.queue
  {
    hide Detection.StepFrame, Detection.FrameOf;
  }

  /**
   The handler never adds a second queue row for a match: as long as no operator creates a
   row for the match by hand, every run keeps at most one.
   */
  lemma {:induction false} OneQueueRowPerMatch(fold: Text.Fold, events: seq<Event>, n: nat, m: nat)
    requires n <= |events| && forall i :: 0 <= i < n ==> ByHand(events[i]) != Some(m)
    ensures AtMostOne(Run(fold, events, n).queue.rows, m)
  {
    hide Step;
    if n > 0 {
      OneQueueRowPerMatch(fold, events, n - 1, m);
      if ResetsQueue(events[n - 1]) {
        ResetEmpties(fold, Run(fold, events, n - 1), events[n - 1], n);
      } else {
        StepAdds(fold, Run(fold, events, n - 1), events[n - 1], n);
      }
    }
  }

  lemma ResetEmpties(fold: Text.Fold, w: World, e: Event, newId: nat)
    requires ResetsQueue(e)
    ensures Step(fold, w, e, newId).queue.rows == []
  {
  }

  // ----- Confirming a completed session again -------------------------------------------------

  /** Session `s` has match `m`, and the first queue row of that match is item `q`. */
  predicate HasLink(w: World, s: nat, m: nat, q: nat) {
    var place := Metadata.FindSession(w.matches, s, 0);
    && place.Some? && w.matches[place.value].id == m
    && var row := Queue.FindMatch(w.queue.rows, m, 0);
       row.Some? && w.queue.rows[row.value].id == q
  }

  lemma {:induction false} SessionStays(a: Metadata.Matches, b: Metadata.Matches, s: nat, k: nat)
    requires k <= |a| && Grows(a, b) && Metadata.FindSession(a, s, k).Some?
    ensures Metadata.FindSession(b, s, k) == Metadata.FindSession(a, s, k)
    decreases |a| - k
  {
    if a[k].session != s {
      SessionStays(a, b, s, k + 1);
    }
  }

  lemma {:induction false} RowStays(a: Queue.Table, b: Queue.Table, m: nat, k: nat)
    requires k <= |a| && Extends(a, b) && Queue.FindMatch(a, m, k).Some?
    ensures Queue.FindMatch(b, m, k) == Queue.FindMatch(a, m, k)
    decreases |a| - k
  {
    if a[k].matchId != Some(m) {
      RowStays(a, b, m, k + 1);
    }
  }

  lemma StepKeepsLink(fold: Text.Fold, w: World, e: Event, newId: nat, s: nat, m: nat, q: nat)
    requires HasLink(w, s, m, q) && !ResetsQueue(e)
    ensures HasLink(Step(fold, w, e, newId), s, m, q)
  {
    hide Step;
    StepRecords(fold, w, e, newId);
    StepAdds(fold, w, e, newId);
    SessionStays(w.matches, Step(fold, w, e, newId).matches, s, 0);
    RowStays(w.queue.rows, Step(fold, w, e, newId).queue.rows, m, 0);
  }

  lemma {:induction false} RunKeepsLink(fold: Text.Fold, events: seq<Event>, i: nat, n: nat, s: nat, m: nat, q: nat)
    requires i <= n <= |events| && HasLink(Run(fold, events, i), s, m, q)
    requires forall j :: i <= j < n ==> !ResetsQueue(events[j])
    ensures HasLink(Run(fold, events, n), s, m, q)
  {
    hide Step, HasLink;
    if i < n {
      RunKeepsLink(fold, events, i, n - 1, s, m, q);
      StepKeepsLink(fold, Run(fold, events, n - 1), events[n - 1], n, s, m, q);
    }
  }

  predicate AnswersLink(reply: Reply, m: nat, q: nat) {
    && reply.Answered? && (reply.link.OutputLinked? || reply.link.AlreadyLinked?)
    && reply.link.matchId == m && reply.link.item.id == q
  }

  lemma {:induction false} AppendedSession(a: Metadata.Matches, row: Metadata.Match, s: nat, k: nat)
    requires k <= |a| && row.session == s && Metadata.FindSession(a, s, k).None?
    ensures Metadata.FindSession(a + [row], s, k) == Some(|a|)
    decreases |a| - k
  {
    if k < |a| {
      AppendedSession(a, row, s, k + 1);
    }
  }

  lemma {:induction false} AppendedRow(a: Queue.Table, row: Queue.QueueItem, m: nat, k: nat)
    requires k <= |a| && row.matchId == Some(m) && Queue.FindMatch(a, m, k).None?
    ensures Queue.FindMatch(a + [row], m, k) == Some(|a|)
    decreases |a| - k
  {
    if k < |a| {
      AppendedRow(a, row, m, k + 1);
    }
  }

  /** The handler that answers with a link has made it. */
  lemma LinkingMakesLink(w: World, session: nat, path: string)
    ensures var (next, link) := LinkRecording(w, session, path, ToEnd);
            link.Some? && (link.value.OutputLinked? || link.value.AlreadyLinked?) ==>
              HasLink(next, session, link.value.matchId, link.value.item.id)
  {
    var (matches, found) := Metadata.Recorded(w.matches, session);
    if found.Ok? {
      if Metadata.FindSession(w.matches, session, 0).None? {
        AppendedSession(w.matches, found.value, session, 0);
      }
      var m := found.value.id;
      if Queue.FindMatch(w.queue.rows, m, 0).None? {
        AppendedRow(w.queue.rows, Queue.NewItem(w.queue.rows, Some(m), path, Queue.DEFAULT_MAX_RETRIES), m, 0);
      }
    }
  }

  /** With the link there, linking again changes nothing and names the same rows. */
  lemma LinkingAgain(w: World, session: nat, path: string, reach: Reach, m: nat, q: nat)
    requires session != 0 && HasLink(w, session, m, q)
    ensures var (next, link) := LinkRecording(w, session, path, reach);
            && next == w
            && (reach == ToEnd ==> link.Some?)
            && (link.Some? ==> (link.value.OutputLinked? || link.value.AlreadyLinked?)
                               && link.value.matchId == m && link.value.item.id == q)
  {
  }

  /**
   Confirming a completed session again is idempotent: once a confirmation has answered
   with a queue row, then as long as the queue is not reset, every later confirmation of
   the session leaves both tables as they are and names the same match and the same item.
   */
  lemma ConfirmingAgainIsIdempotent(fold: Text.Fold, events: seq<Event>, i: nat, n: nat, command: Command,
                                    path: VideoPath, reach: Reach, m: nat, q: nat)
    requires i < n <= |events| && events[i].Post? && events[i].reach == ToEnd
    requires AnswersLink(Commanded(Run(fold, events, i), events[i].command, events[i].path, i + 1, ToEnd).1, m, q)
    requires forall j :: i < j < n ==> !ResetsQueue(events[j])
    requires var r := ApplyCommand(Run(fold, events, n).memory, command, n + 1);
             r.Ok? && Links(r.value) && r.value.session == Run(fold, events, i + 1).memory.session
    ensures var w := Run(fold, events, n);
            var (next, reply) := Commanded(w, command, path, n + 1, reach);
            && next.matches == w.matches && next.queue == w.queue
            && (reply.Answered? ==> AnswersLink(reply, m, q))
            && (reach == ToEnd && path.Path? ==> reply.Answered?)
  {
    hide Step, HasLink, LinkRecording, Text.Strip;
    FirstConfirmation(fold, events, i, m, q);
    var s := Run(fold, events, i + 1).memory.session;
    RunKeepsLink(fold, events, i + 1, n, s, m, q);
    var w := Run(fold, events, n);
    var moved := ApplyCommand(w.memory, command, n + 1).value;
    if path.Path? && reach != ToMemory {
      var saved := w.(memory := moved, saved := Saved(moved));
      assert HasLink(saved, s, m, q) by {
        SameTables(w, saved, s, m, q);
      }
      LinkingAgain(saved, s, Text.Strip(path.text), reach, m, q);
      var (next, link) := LinkRecording(saved, s, Text.Strip(path.text), reach);
      assert Commanded(w, command, path, n + 1, reach) ==
             (next, match link case None => Broken case Some(l) => Answered(moved, l));
    }
  }

  lemma SameTables(a: World, b: World, s: nat, m: nat, q: nat)
    requires HasLink(a, s, m, q) && a.matches == b.matches && a.queue == b.queue
    ensures HasLink(b, s, m, q)
  {
  }

  lemma FirstConfirmation(fold: Text.Fold, events: seq<Event>, i: nat, m: nat, q: nat)
    requires i < |events| && events[i].Post? && events[i].reach == ToEnd
    requires AnswersLink(Commanded(Run(fold, events, i), events[i].command, events[i].path, i + 1, ToEnd).1, m, q)
    ensures Run(fold, events, i + 1).memory.session != 0
    ensures HasLink(Run(fold, events, i + 1), Run(fold, events, i + 1).memory.session, m, q)
  {
    hide HasLink, LinkRecording, Text.Strip, Queue.FindMatch, UploadRuns.Step;
    var w, path := Run(fold, events, i), events[i].path;
    var s := ApplyCommand(w.memory, events[i].command, i + 1).value;
    var saved := w.(memory := s, saved := Saved(s));
    LinkingMakesLink(saved, s.session, Text.Strip(path.text));
    LinkingNamesSession(saved, s.session, Text.Strip(path.text));
    var (next, link) := LinkRecording(saved, s.session, Text.Strip(path.text), ToEnd);
    assert Commanded(w, events[i].command, path, i + 1, ToEnd) ==
           (next, match link case None => Broken case Some(l) => Answered(s, l));
    assert Run(fold, events, i + 1) == next;
  }

  lemma LinkingNamesSession(w: World, session: nat, path: string)
    ensures var (next, link) := LinkRecording(w, session, path, ToEnd);
            next.memory == w.memory && (link.Some? ==> session != 0)
  {
  }
}
