/**
 Upload processing of app/worker/odr_worker/upload.py on top of the queue. The uploader
 is a foreign service: its outcome, and whether the video really arrived, are inputs.
 */
module Upload {
  import opened Common
  import opened Queue

  // ----- Inputs of a processing step ------------------------------------------------

  /** The rendered upload metadata of the match. */
  datatype Metadata = Metadata(missingFields: seq<string>, hasTitle: bool, hasDescription: bool, hasTags: bool)

  /** What the file system says about an item's video, and the metadata store about its match. */
  datatype Facts = Facts(videoExists: bool, metadata: Option<Metadata>)

  /** `_upload_metadata`: an item without a match has none. */
  function UploadMetadata(item: QueueItem, facts: Facts): Option<Metadata> {
    if item.matchId.None? then None else facts.metadata
  }

  /** What the uploader reports. `Raised` stands for an exception after which no outcome is committed. */
  datatype Outcome =
    | Success(videoId: string, url: string)
    | NetworkError(code: string, message: string, nextAttemptAt: string)
    | QuotaExceeded(quotaCode: string, message: string, nextAttemptAt: string)
    | AmbiguousError(reason: string)
    | AuthError(reason: string)
    | Raised

  datatype Reason =
    | StateFinal(state: State)
    | StateNotUploadable(state: State)
    | VideoIdPresent
    | VideoPathMissing
    | LocalVideoMissing
    | FieldMissing(field: string)
    | TitleMissing
    | DescriptionMissing
    | TagsMissing
    | MetadataUnavailable

  datatype ProcessResult =
    | NoReadyItems
    | UploadBlocked
    | DiscardedMissingFile(item: QueueItem)
    | Processed(item: QueueItem)
    | Refused(error: QueueError)
    | UploaderRaised

  // ----- Blocking reasons -------------------------------------------------------------

  function AddIf(reasons: seq<Reason>, condition: bool, reason: Reason): seq<Reason> {
    if condition then reasons + [reason] else reasons
  }

  function AddFields(reasons: seq<Reason>, fields: seq<string>, n: nat): seq<Reason>
    requires n <= |fields|
  {
    if n == 0 then reasons else AddFields(reasons, fields, n - 1) + [FieldMissing(fields[n - 1])]
  }

  function StateReasons(item: QueueItem, videoExists: bool): seq<Reason> {
    var byState := AddIf(AddIf([], Terminal(item.state), StateFinal(item.state)),
                         !Terminal(item.state) && !Resumable(item.state), StateNotUploadable(item.state));
    var byId := AddIf(byState, item.videoId != "", VideoIdPresent);
    AddIf(AddIf(byId, item.videoPath == "", VideoPathMissing), item.videoPath != "" && !videoExists, LocalVideoMissing)
  }

  function AllReasons(item: QueueItem, facts: Facts): seq<Reason> {
    var reasons := StateReasons(item, facts.videoExists);
    match UploadMetadata(item, facts)
    case None => reasons + [MetadataUnavailable]
    case Some(m) =>
      var fields := AddFields(reasons, m.missingFields, |m.missingFields|);
      AddIf(AddIf(AddIf(fields, !m.hasTitle, TitleMissing), !m.hasDescription, DescriptionMissing), !m.hasTags, TagsMissing)
  }

  /** `_blocking_reasons`: the list is appended to, reason by reason. */
  method BlockingReasons(item: QueueItem, facts: Facts) returns (reasons: seq<Reason>)
    ensures reasons == AllReasons(item, facts)
  {
    reasons := [];
    if item.state == Uploaded || item.state == Discarded {
      reasons := reasons + [StateFinal(item.state)];
    } else if item.state != ReadyUpload && item.state != UploadFailed {
      reasons := reasons + [StateNotUploadable(item.state)];
    }
    if item.videoId != "" {
      reasons := reasons + [VideoIdPresent];
    }
    if item.videoPath == "" {
      reasons := reasons + [VideoPathMissing];
    } else if !facts.videoExists {
      reasons := reasons + [LocalVideoMissing];
    }
    assert reasons == StateReasons(item, facts.videoExists);
    var metadata := UploadMetadata(item, facts);
    if metadata.None? {
      reasons := reasons + [MetadataUnavailable];
    } else {
      var m := metadata.value;
      ghost var before := reasons;
      var i := 0;
      while i < |m.missingFields|
        invariant 0 <= i <= |m.missingFields|
        invariant reasons == AddFields(before, m.missingFields, i)
      {
        reasons := reasons + [FieldMissing(m.missingFields[i])];
        i := i + 1;
      }
      if !m.hasTitle {
        reasons := reasons + [TitleMissing];
      }
      if !m.hasDescription {
        reasons := reasons + [DescriptionMissing];
      }
      if !m.hasTags {
        reasons := reasons + [TagsMissing];
      }
    }
  }

  predicate MetadataComplete(m: Metadata) {
    m.missingFields == [] && m.hasTitle && m.hasDescription && m.hasTags
  }

  /** An item may be uploaded. */
  predicate Uploadable(item: QueueItem, facts: Facts) {
    && Resumable(item.state) && item.videoId == "" && item.videoPath != ""
    && facts.videoExists && UploadMetadata(item, facts).Some? && MetadataComplete(UploadMetadata(item, facts).value)
  }

  lemma {:induction false} AddFieldsGrows(reasons: seq<Reason>, fields: seq<string>, n: nat)
    requires n <= |fields|
    ensures |AddFields(reasons, fields, n)| == |reasons| + n
  {
    if n > 0 {
      AddFieldsGrows(reasons, fields, n - 1);
    }
  }

  /** No reason blocks an item exactly when everything the upload needs is there. */
  lemma NoReasonMeansUploadable(item: QueueItem, facts: Facts)
    ensures AllReasons(item, facts) == [] <==> Uploadable(item, facts)
  {
    var reasons := StateReasons(item, facts.videoExists);
    var metadata := UploadMetadata(item, facts);
    if metadata.Some? {
      AddFieldsGrows(reasons, metadata.value.missingFields, |metadata.value.missingFields|);
    }
  }

  // ----- One processing step --------------------------------------------------------------

  /** `_apply_outcome` as a queue command; an uploader that raises leaves the item alone. */
  function OutcomeCommand(outcome: Outcome): Option<Command> {
    match outcome
    case Success(videoId, url) => Some(MarkUploaded(videoId, Some(url)))
    case NetworkError(code, message, next) => Some(MarkUploadFailed(None, Some(code), message, next))
    case QuotaExceeded(code, message, next) => Some(MarkQuotaWaiting(Some(code), message, next))
    case AmbiguousError(reason) => Some(MarkNeedManualReview(Some(reason)))
    case AuthError(reason) => Some(MarkNeedManualReview(Some(reason)))
    case Raised => None
  }

  /** The row after the outcome, and the result reported. */
  function Settled(item: QueueItem, outcome: Outcome): (QueueItem, ProcessResult) {
    match OutcomeCommand(outcome)
    case None => (item, UploaderRaised)
    case Some(command) =>
      match ApplyItem(item, command)
      case Err(e) => (item, Refused(e))
      case Ok(final) => (final, Processed(final))
  }

  /** Whether a step gets as far as calling the uploader. */
  predicate Uploads(item: QueueItem, facts: Facts) {
    Uploadable(item, facts)
  }

  /** `_process_item` on one row. */
  function ProcessRow(item: QueueItem, facts: Facts, outcome: Outcome): (QueueItem, ProcessResult) {
    if item.videoId != "" || !Resumable(item.state) then (item, UploadBlocked)
    else if !facts.videoExists then
      var discarded := item.(state := Discarded, reviewReason := "local_video_missing");
      (discarded, DiscardedMissingFile(discarded))
    else if !Uploadable(item, facts) then (item, UploadBlocked)
    else Settled(item.(state := Uploading), outcome)
  }

  function ProcessedAt(rows: Table, k: nat, facts: Facts, outcome: Outcome): (Table, ProcessResult)
    requires k < |rows|
  {
    var (row, result) := ProcessRow(rows[k], facts, outcome);
    (rows[k := row], result)
  }

  class UploadStore {
    const queue: QueueStore

    constructor (queue: QueueStore)
      ensures this.queue == queue
    {
      this.queue := queue;
    }

    /** `_process_item`: commits `start_upload`, calls the uploader, commits the outcome. */
    method ProcessFound(item: QueueItem, ghost k: nat, facts: Facts, outcome: Outcome) returns (result: ProcessResult)
      requires Sorted(queue.rows) && k < |queue.rows| && queue.rows[k] == item
      modifies queue
      ensures (queue.rows, result) == ProcessedAt(old(queue.rows), k, facts, outcome)
    {
      ghost var rows := queue.rows;
      assert rows[k := item] == rows;
      FindsPlace(queue.rows, k, 0);
      if Terminal(item.state) || item.videoId != "" {
        return UploadBlocked;
      }
      if !Resumable(item.state) {
        return UploadBlocked;
      }
      if !facts.videoExists {
        var discarded := queue.ApplyCommand(item.id, Discard(Some("local_video_missing")));
        return DiscardedMissingFile(discarded.value);
      }
      var reasons := BlockingReasons(item, facts);
      NoReasonMeansUploadable(item, facts);
      if reasons != [] {
        return UploadBlocked;
      }
      var uploading := queue.ApplyCommand(item.id, StartUpload);
      assert queue.rows == rows[k := uploading.value];
      FindsPlace(queue.rows, k, 0);
      var command := OutcomeCommand(outcome);
      if command.None? {
        return UploaderRaised;
      }
      var final := queue.ApplyCommand(item.id, command.value);
      if final.Err? {
        return Refused(final.error);
      }
      assert rows[k := uploading.value][k := final.value] == rows[k := final.value];
      return Processed(final.value);
    }

    method ProcessItem(id: nat, facts: QueueItem -> Facts, outcome: Outcome) returns (result: ProcessResult)
      requires Sorted(queue.rows)
      modifies queue
      ensures (queue.rows, result) == ProcessedItem(old(queue.rows), id, facts, outcome)
    {
      var place := Find(queue.rows, id, 0);
      if place.None? {
        return Refused(NotFound);
      }
      var item := queue.rows[place.value];
      result := ProcessFound(item, place.value, facts(item), outcome);
    }

    method ProcessNext(facts: QueueItem -> Facts, outcome: Outcome) returns (result: ProcessResult)
      requires Sorted(queue.rows)
      modifies queue
      ensures (queue.rows, result) == ProcessedNext(old(queue.rows), facts, outcome)
    {
      ghost var place := FindReady(queue.rows, 0);
      var next := queue.NextReadyItem();
      if next.None? {
        return NoReadyItems;
      }
      NextIsPlace(queue.rows, next.value);
      result := ProcessFound(next.value, place.value, facts(next.value), outcome);
    }
  }

  function ProcessedItem(rows: Table, id: nat, facts: QueueItem -> Facts, outcome: Outcome): (Table, ProcessResult) {
    match Find(rows, id, 0)
    case None => (rows, Refused(NotFound))
    case Some(k) => ProcessedAt(rows, k, facts(rows[k]), outcome)
  }

  function ProcessedNext(rows: Table, facts: QueueItem -> Facts, outcome: Outcome): (Table, ProcessResult) {
    match FindReady(rows, 0)
    case None => (rows, NoReadyItems)
    case Some(k) => ProcessedAt(rows, k, facts(rows[k]), outcome)
  }

  /** In a sorted table the ready item with the least id is the first ready one. */
  lemma NextIsPlace(rows: Table, item: QueueItem)
    requires Sorted(rows) && IsNextReady(rows, item)
    ensures FindReady(rows, 0).Some? && rows[FindReady(rows, 0).value] == item
  {
    var k :| 0 <= k < |rows| && rows[k] == item;
    var place := FindReady(rows, 0);
    if place.Some? && place.value < k {
      assert rows[place.value].id < rows[k].id;
    }
  }

  /** In a sorted table a row is found by its id. */
  lemma {:induction false} FindsPlace(rows: Table, k: nat, from: nat)
    requires Sorted(rows) && from <= k < |rows|
    ensures Find(rows, rows[k].id, from) == Some(k)
    decreases k - from
  {
    if from < k {
      FindsPlace(rows, k, from + 1);
    }
  }

  lemma ProcessKeepsRow(item: QueueItem, facts: Facts, outcome: Outcome)
    requires RowOk(item)
    ensures RowOk(ProcessRow(item, facts, outcome).0) && Evolves(item, ProcessRow(item, facts, outcome).0)
  {
  }

  // ----- Draining the queue -------------------------------------------------------------------

  /** A processing step did something: the reply says `processed: True`, or the uploader's call failed. */
  predicate Acted(r: ProcessResult) {
    !r.NoReadyItems? && !r.UploadBlocked?
  }

  lemma {:induction false} CountAfterUpdate(rows: Table, k: nat, row: QueueItem, n: nat)
    requires k < |rows| && n <= |rows| && rows[k].state == ReadyUpload && row.state != ReadyUpload
    ensures Count(rows[k := row], ReadyUpload, n) == Count(rows, ReadyUpload, n) - (if k < n then 1 else 0)
  {
    if n > 0 {
      CountAfterUpdate(rows, k, row, n - 1);
    }
  }

  predicate Blocked(item: QueueItem, facts: Facts) {
    item.videoId != "" || (facts.videoExists && !Uploadable(item, facts))
  }

  lemma ProcessReadyRow(item: QueueItem, facts: Facts, outcome: Outcome)
    requires item.state == ReadyUpload
    ensures var (row, result) := ProcessRow(item, facts, outcome);
            && (!Acted(result) <==> Blocked(item, facts))
            && (if Acted(result) then row.state != ReadyUpload else row == item)
  {
  }

  /**
   Each step of `process_next` that acts takes the lowest ready id, leaves one ready row
   less and touches no other row; a step that does not act leaves the table alone, and it
   means that no row is ready or that the lowest ready row is blocked.
   */
  lemma ProcessNextMakesProgress(rows: Table, facts: QueueItem -> Facts, outcome: Outcome)
    ensures var (after, result) := ProcessedNext(rows, facts, outcome);
            && |after| == |rows|
            && (!Acted(result) ==> after == rows)
            && (!Acted(result) <==> match FindReady(rows, 0)
                                    case None => true
                                    case Some(k) => Blocked(rows[k], facts(rows[k])))
            && (Acted(result) ==>
                  && FindReady(rows, 0).Some?
                  && Count(after, ReadyUpload, |after|) == Count(rows, ReadyUpload, |rows|) - 1
                  && (forall j :: 0 <= j < |rows| && j != FindReady(rows, 0).value ==> after[j] == rows[j]))
  {
    var place := FindReady(rows, 0);
    if place.Some? {
      var k := place.value;
      var row := ProcessRow(rows[k], facts(rows[k]), outcome).0;
      ProcessReadyRow(rows[k], facts(rows[k]), outcome);
      if row.state != ReadyUpload {
        CountAfterUpdate(rows, k, row, |rows|);
      } else {
        assert rows[k := row] == rows;
      }
    }
  }

  /** The table after `n` steps of `process_next`, under changing facts and outcomes. */
  function Drained(rows: Table, facts: nat -> QueueItem -> Facts, outcomes: nat -> Outcome, n: nat): Table {
    if n == 0 then rows
    else ProcessedNext(Drained(rows, facts, outcomes, n - 1), facts(n - 1), outcomes(n - 1)).0
  }

  function DrainResult(rows: Table, facts: nat -> QueueItem -> Facts, outcomes: nat -> Outcome, n: nat): ProcessResult {
    ProcessedNext(Drained(rows, facts, outcomes, n), facts(n), outcomes(n)).1
  }

  /** The place of the row that step `n` takes. */
  function DrainPlace(rows: Table, facts: nat -> QueueItem -> Facts, outcomes: nat -> Outcome, n: nat): Option<nat> {
    FindReady(Drained(rows, facts, outcomes, n), 0)
  }

  lemma {:induction false} DrainKeepsShape(rows: Table, facts: nat -> QueueItem -> Facts, outcomes: nat -> Outcome, n: nat)
    requires forall m :: 0 <= m < n ==> Acted(DrainResult(rows, facts, outcomes, m))
    ensures |Drained(rows, facts, outcomes, n)| == |rows|
    ensures Count(Drained(rows, facts, outcomes, n), ReadyUpload, |rows|) == Count(rows, ReadyUpload, |rows|) - n
  {
    if n > 0 {
      DrainKeepsShape(rows, facts, outcomes, n - 1);
      ProcessNextMakesProgress(Drained(rows, facts, outcomes, n - 1), facts(n - 1), outcomes(n - 1));
      assert Acted(DrainResult(rows, facts, outcomes, n - 1));
    }
  }

  /** Two steps in a row that both act take rows in increasing order of place, and so of id. */
  lemma DrainTakesNextPlace(rows: Table, facts: nat -> QueueItem -> Facts, outcomes: nat -> Outcome, n: nat)
    requires forall m :: 0 <= m <= n + 1 ==> Acted(DrainResult(rows, facts, outcomes, m))
    ensures DrainPlace(rows, facts, outcomes, n).Some? && DrainPlace(rows, facts, outcomes, n + 1).Some?
    ensures DrainPlace(rows, facts, outcomes, n).value < DrainPlace(rows, facts, outcomes, n + 1).value
  {
    var before, after := Drained(rows, facts, outcomes, n), Drained(rows, facts, outcomes, n + 1);
    assert Acted(DrainResult(rows, facts, outcomes, n)) && Acted(DrainResult(rows, facts, outcomes, n + 1));
    ProcessNextMakesProgress(before, facts(n), outcomes(n));
    ProcessNextMakesProgress(after, facts(n + 1), outcomes(n + 1));
  }

  lemma {:induction false} PlacesIncrease(rows: Table, facts: nat -> QueueItem -> Facts, outcomes: nat -> Outcome, a: nat, b: nat)
    requires a < b && forall m :: 0 <= m <= b ==> Acted(DrainResult(rows, facts, outcomes, m))
    ensures DrainPlace(rows, facts, outcomes, a).Some? && DrainPlace(rows, facts, outcomes, b).Some?
    ensures DrainPlace(rows, facts, outcomes, a).value < DrainPlace(rows, facts, outcomes, b).value
    decreases b
  {
    DrainTakesNextPlace(rows, facts, outcomes, b - 1);
    if a < b - 1 {
      PlacesIncrease(rows, facts, outcomes, a, b - 1);
    }
  }

  /** Draining stops: not more steps can act than there were ready rows. */
  lemma DrainingStops(rows: Table, facts: nat -> QueueItem -> Facts, outcomes: nat -> Outcome)
    ensures exists n :: 0 <= n <= Count(rows, ReadyUpload, |rows|) && !Acted(DrainResult(rows, facts, outcomes, n))
  {
    var ready := Count(rows, ReadyUpload, |rows|);
    if forall n :: 0 <= n <= ready ==> Acted(DrainResult(rows, facts, outcomes, n)) {
      DrainKeepsShape(rows, facts, outcomes, ready + 1);
      assert false;
    }
  }

  // ----- Retries under constant network errors ---------------------------------------------------

  /** The row after `n` steps of `process_item` with the same facts and a network error each time. */
  function Retried(item: QueueItem, facts: Facts, failure: Outcome, n: nat): QueueItem {
    if n == 0 then item else ProcessRow(Retried(item, facts, failure, n - 1), facts, failure).0
  }

  /** How many of the first `n` steps called the uploader. */
  function UploaderCalls(item: QueueItem, facts: Facts, failure: Outcome, n: nat): nat {
    if n == 0 then 0
    else UploaderCalls(item, facts, failure, n - 1) + if Uploads(Retried(item, facts, failure, n - 1), facts) then 1 else 0
  }

  /**
   A fresh uploadable item under constant network errors: exactly one call more than the
   retries allowed, then manual review, and nothing further however often it is processed.
   */
  lemma {:induction false} RetriesAreBounded(item: QueueItem, facts: Facts, failure: Outcome, n: nat)
    requires Uploadable(item, facts) && item.retryCount == 0 && item.maxRetries >= 0 && failure.NetworkError?
    ensures var limit, r := item.maxRetries + 1, Retried(item, facts, failure, n);
            && UploaderCalls(item, facts, failure, n) == (if n <= limit then n else limit)
            && r.maxRetries == item.maxRetries && r.matchId == item.matchId && r.videoId == "" && r.videoPath == item.videoPath
            && (n < limit ==> Resumable(r.state) && r.retryCount == n)
            && (n >= limit ==> r.state == NeedManualReview && r.retryCount == limit)
  {
    if n > 0 {
      RetriesAreBounded(item, facts, failure, n - 1);
    }
  }
}
