/**
 The upload queue of app/worker/odr_worker/queue.py: one table of items, the commands
 on an item, creation and linking, startup recovery and reset. A table is a sequence of
 rows in increasing id order; every store method is one atomic step. Timestamps and
 review evidence are not part of this model.
 */
module Queue {
  import opened Common
  import opened Text

  datatype State = ReadyUpload | Uploading | Uploaded | UploadFailed | QuotaWaiting | NeedManualReview | Discarded

  datatype QueueItem = QueueItem(
    id: nat,
    matchId: Option<nat>,
    state: State,
    videoPath: string,
    videoId: string,
    url: string,
    retryCount: nat,
    maxRetries: int,
    nextAttemptAt: string,
    errorCode: string,
    errorMessage: string,
    reviewReason: string)

  datatype QueueError = PayloadInvalid | TransitionInvalid | NotFound | NoSuchMatch

  datatype Command =
    | StartUpload
    | MarkUploaded(videoId: string, url: Option<string>)
    | MarkUploadFailed(maxRetries: Option<int>, code: Option<string>, message: string, nextAttemptAt: string)
    | MarkQuotaWaiting(quotaCode: Option<string>, message: string, nextAttemptAt: string)
    | MarkNeedManualReview(reviewReason: Option<string>)
    | Retry(reason: Option<string>)
    | Discard(reason: Option<string>)
    | UnknownAction

  // ----- Commands on one item -----------------------------------------------------

  predicate Terminal(s: State) {
    s == Uploaded || s == Discarded
  }

  predicate Resumable(s: State) {
    s == ReadyUpload || s == UploadFailed
  }

  predicate IdChar(c: char) {
    'A' <= c <= 'Z' || 'a' <= c <= 'z' || '0' <= c <= '9' || c == '_' || c == '-'
  }

  /** `_is_valid_youtube_video_id`: 3 to 64 identifier characters after stripping. */
  predicate ValidVideoId(value: string) {
    var id := Strip(value);
    3 <= |id| <= 64 && forall i :: 0 <= i < |id| ==> IdChar(id[i])
  }

  function Or(value: Option<string>, default: string): string {
    match value case None => default case Some(v) => v
  }

  /** `_failed_state`: one more try counted, and manual review once the limit is exceeded. */
  function FailedItem(item: QueueItem, maxRetries: Option<int>, code: Option<string>, message: string, next: string): QueueItem {
    var limit := match maxRetries case None => item.maxRetries case Some(m) => m;
    var counted := item.(retryCount := item.retryCount + 1, maxRetries := limit,
                         errorCode := Or(code, "upload_failed"), errorMessage := message, nextAttemptAt := next);
    if counted.retryCount > limit
    then counted.(state := NeedManualReview, reviewReason := "retry_limit_exceeded")
    else counted.(state := UploadFailed)
  }

  /** `apply_command` on the row it has looked up. */
  function ApplyItem(item: QueueItem, command: Command): Result<QueueItem, QueueError> {
    match command
    case StartUpload =>
      if !Resumable(item.state) then Err(TransitionInvalid) else Ok(item.(state := Uploading))
    case MarkUploaded(videoId, url) =>
      if item.state != Uploading && item.state != NeedManualReview then Err(TransitionInvalid)
      else if videoId == "" || !ValidVideoId(videoId) then Err(PayloadInvalid)
      else Ok(item.(state := Uploaded, videoId := videoId, url := Or(url, "https://youtu.be/" + videoId)))
    case MarkUploadFailed(maxRetries, code, message, next) =>
      if item.state != Uploading && !Resumable(item.state) then Err(TransitionInvalid)
      else Ok(FailedItem(item, maxRetries, code, message, next))
    case MarkQuotaWaiting(code, message, next) =>
      if item.state != Uploading && !Resumable(item.state) then Err(TransitionInvalid)
      else Ok(item.(state := QuotaWaiting, nextAttemptAt := next, errorCode := Or(code, "quota_exceeded"), errorMessage := message))
    case MarkNeedManualReview(reason) =>
      if Terminal(item.state) then Err(TransitionInvalid)
      else Ok(item.(state := NeedManualReview, reviewReason := Or(reason, "manual_review_required")))
    case Retry(reason) =>
      if item.state != UploadFailed && item.state != QuotaWaiting && item.state != NeedManualReview then Err(TransitionInvalid)
      else Ok(item.(state := ReadyUpload, nextAttemptAt := "", reviewReason := Or(reason, item.reviewReason)))
    case Discard(reason) =>
      if Terminal(item.state) then Err(TransitionInvalid)
      else Ok(item.(state := Discarded, reviewReason := Or(reason, item.reviewReason)))
    case UnknownAction => Err(PayloadInvalid)
  }

  /** `recover_startup` on one row; `gone` tells that an absolute video path has no file any more. */
  function RecoverItem(item: QueueItem, gone: string -> bool): QueueItem {
    if item.state != Uploading then item
    else if item.videoId != "" then item.(state := Uploaded)
    else if item.videoPath != "" && gone(item.videoPath)
    then item.(state := Discarded, reviewReason := "local_video_missing")
    else item.(state := NeedManualReview, reviewReason := "interrupted_upload_requires_manual_review")
  }

  // ----- Tables ---------------------------------------------------------------------

  type Table = seq<QueueItem>

  predicate Sorted(rows: Table) {
    (forall k :: 0 <= k < |rows| ==> rows[k].id >= 1) &&
    forall j, k :: 0 <= j < k < |rows| ==> rows[j].id < rows[k].id
  }

  /** The place of the row with the given id, looking from place `k` on. */
  function Find(rows: Table, id: nat, k: nat): (place: Option<nat>)
    requires k <= |rows|
    ensures place.Some? ==> k <= place.value < |rows| && rows[place.value].id == id
    ensures place.None? ==> forall j :: k <= j < |rows| ==> rows[j].id != id
    decreases |rows| - k
  {
    if k == |rows| then None else if rows[k].id == id then Some(k) else Find(rows, id, k + 1)
  }

  /** The first row of a match, looking from place `k` on. */
  function FindMatch(rows: Table, matchId: nat, k: nat): (place: Option<nat>)
    requires k <= |rows|
    ensures place.Some? ==> k <= place.value < |rows| && rows[place.value].matchId == Some(matchId)
    ensures place.None? ==> forall j :: k <= j < |rows| ==> rows[j].matchId != Some(matchId)
    decreases |rows| - k
  {
    if k == |rows| then None else if rows[k].matchId == Some(matchId) then Some(k) else FindMatch(rows, matchId, k + 1)
  }

  /** The first row ready for upload, looking from place `k` on. */
  function FindReady(rows: Table, k: nat): (place: Option<nat>)
    requires k <= |rows|
    ensures place.Some? ==> k <= place.value < |rows| && rows[place.value].state == ReadyUpload
                            && forall j :: k <= j < place.value ==> rows[j].state != ReadyUpload
    ensures place.None? ==> forall j :: k <= j < |rows| ==> rows[j].state != ReadyUpload
    decreases |rows| - k
  {
    if k == |rows| then None else if rows[k].state == ReadyUpload then Some(k) else FindReady(rows, k + 1)
  }

  /** SQLite's next row id: one more than the largest, and one for an empty table. */
  function NextId(rows: Table): nat {
    if rows == [] then 1 else rows[|rows| - 1].id + 1
  }

  function NewItem(rows: Table, matchId: Option<nat>, videoPath: string, maxRetries: int): QueueItem {
    QueueItem(NextId(rows), matchId, ReadyUpload, videoPath, "", "", 0, maxRetries, "", "", "", "")
  }

  function Commanded(rows: Table, id: nat, command: Command): (Table, Result<QueueItem, QueueError>) {
    match Find(rows, id, 0)
    case None => (rows, Err(NotFound))
    case Some(k) =>
      match ApplyItem(rows[k], command)
      case Err(e) => (rows, Err(e))
      case Ok(item) => (rows[k := item], Ok(item))
  }

  const DEFAULT_MAX_RETRIES: int := 3

  function Created(rows: Table, matchId: Option<nat>, videoPath: string, maxRetries: Option<int>, matchExists: bool)
    : (Table, Result<QueueItem, QueueError>)
  {
    var limit := match maxRetries case None => DEFAULT_MAX_RETRIES case Some(m) => m;
    if limit < 0 then (rows, Err(PayloadInvalid))
    else if matchId.Some? && !matchExists then (rows, Err(NoSuchMatch))
    else
      var item := NewItem(rows, matchId, videoPath, limit);
      (rows + [item], Ok(item))
  }

  /** `get_or_create_ready_item_for_match`. */
  function Linked(rows: Table, matchId: nat, videoPath: string): (Table, Result<QueueItem, QueueError>) {
    if videoPath == "" then (rows, Err(PayloadInvalid))
    else
      match FindMatch(rows, matchId, 0)
      case Some(k) => (rows, Ok(rows[k]))
      case None =>
        var item := NewItem(rows, Some(matchId), videoPath, DEFAULT_MAX_RETRIES);
        (rows + [item], Ok(item))
  }

  /** `recover_startup`: every uploading row is settled. */
  function Recovered(rows: Table, gone: string -> bool): (r: Table)
    ensures |r| == |rows| && forall k :: 0 <= k < |rows| ==> r[k] == RecoverItem(rows[k], gone)
  {
    seq(|rows|, k requires 0 <= k < |rows| => RecoverItem(rows[k], gone))
  }

  /** The item is a ready one, and no ready item has a smaller id. */
  ghost predicate IsNextReady(rows: Table, item: QueueItem) {
    && item in rows && item.state == ReadyUpload
    && forall j :: 0 <= j < |rows| && rows[j].state == ReadyUpload ==> item.id <= rows[j].id
  }

  /** How many of the first `n` rows are in a state. */
  function Count(rows: Table, state: State, n: nat): nat
    requires n <= |rows|
  {
    if n == 0 then 0 else Count(rows, state, n - 1) + if rows[n - 1].state == state then 1 else 0
  }

  /** Every row is in exactly one state, so the per-state counts sum to the number of rows. */
  lemma {:induction false} CountsSumToRows(rows: Table, n: nat)
    requires n <= |rows|
    ensures Count(rows, ReadyUpload, n) + Count(rows, Uploading, n) + Count(rows, Uploaded, n)
            + Count(rows, UploadFailed, n) + Count(rows, QuotaWaiting, n) + Count(rows, NeedManualReview, n)
            + Count(rows, Discarded, n) == n
  {
    if n > 0 {
      CountsSumToRows(rows, n - 1);
    }
  }

  datatype Counts = Counts(ready: nat, uploading: nat, uploaded: nat, failed: nat, quota: nat, review: nat, discarded: nat) {
    function Total(): nat {
      ready + uploading + uploaded + failed + quota + review + discarded
    }
  }

  function CountsOf(rows: Table, n: nat): Counts
    requires n <= |rows|
  {
    Counts(Count(rows, ReadyUpload, n), Count(rows, Uploading, n), Count(rows, Uploaded, n), Count(rows, UploadFailed, n),
           Count(rows, QuotaWaiting, n), Count(rows, NeedManualReview, n), Count(rows, Discarded, n))
  }

  /** The store: its only state is the table. */
  class QueueStore {
    var rows: Table

    constructor ()
      ensures rows == []
    {
      rows := [];
    }

    method CreateItem(matchId: Option<nat>, videoPath: string, maxRetries: Option<int>, matchExists: bool)
      returns (r: Result<QueueItem, QueueError>)
      modifies this
      ensures (rows, r) == Created(old(rows), matchId, videoPath, maxRetries, matchExists)
    {
      var limit := DEFAULT_MAX_RETRIES;
      if maxRetries.Some? {
        limit := maxRetries.value;
      }
      if limit < 0 {
        return Err(PayloadInvalid);
      }
      if matchId.Some? && !matchExists {
        return Err(NoSuchMatch);
      }
      var item := NewItem(rows, matchId, videoPath, limit);
      rows := rows + [item];
      return Ok(item);
    }

    method GetOrCreateReadyItemForMatch(matchId: nat, videoPath: string) returns (r: Result<QueueItem, QueueError>)
      modifies this
      ensures (rows, r) == Linked(old(rows), matchId, videoPath)
    {
      if videoPath == "" {
        return Err(PayloadInvalid);
      }
      var existing := FindMatch(rows, matchId, 0);
      if existing.Some? {
        return Ok(rows[existing.value]);
      }
      var item := NewItem(rows, Some(matchId), videoPath, DEFAULT_MAX_RETRIES);
      rows := rows + [item];
      return Ok(item);
    }

    method ApplyCommand(id: nat, command: Command) returns (r: Result<QueueItem, QueueError>)
      modifies this
      ensures (rows, r) == Commanded(old(rows), id, command)
    {
      var place := Find(rows, id, 0);
      if place.None? {
        return Err(NotFound);
      }
      var applied := ApplyItem(rows[place.value], command);
      if applied.Ok? {
        rows := rows[place.value := applied.value];
      }
      return applied;
    }

    /** `recover_startup`: the loop over the rows that are still uploading. */
    method RecoverStartup(gone: string -> bool) returns (recovered: nat)
      modifies this
      ensures rows == Recovered(old(rows), gone)
      ensures recovered == Count(old(rows), Uploading, |old(rows)|)
    {
      recovered := 0;
      var k := 0;
      while k < |rows|
        invariant 0 <= k <= |rows| == |old(rows)|
        invariant forall j :: 0 <= j < k ==> rows[j] == RecoverItem(old(rows)[j], gone)
        invariant forall j :: k <= j < |rows| ==> rows[j] == old(rows)[j]
        invariant recovered == Count(old(rows), Uploading, k)
      {
        if rows[k].state == Uploading {
          rows := rows[k := RecoverItem(rows[k], gone)];
          recovered := recovered + 1;
        }
        k := k + 1;
      }
    }

    /** `next_ready_item`; ids grow from row to row, so the first ready row has the least id. */
    method NextReadyItem() returns (item: Option<QueueItem>)
      ensures item.None? ==> forall j :: 0 <= j < |rows| ==> rows[j].state != ReadyUpload
      ensures item.Some? ==> item.value in rows && item.value.state == ReadyUpload
      ensures item.Some? && Sorted(rows) ==> IsNextReady(rows, item.value)
    {
      var place := FindReady(rows, 0);
      return match place case None => None case Some(k) => Some(rows[k]);
    }

    /** `reset_items` removes every row and reports how many there were, state by state. */
    method ResetItems() returns (removed: Counts)
      modifies this
      ensures rows == [] && removed == CountsOf(old(rows), |old(rows)|) && removed.Total() == |old(rows)|
    {
      removed := CountsOf(rows, |rows|);
      CountsSumToRows(rows, |rows|);
      rows := [];
    }
  }

  // ----- What every step keeps ---------------------------------------------------------

  /**
   The row invariant: a video id is recorded exactly for uploaded items, and a failed
   item has retries left.
   */
  predicate RowOk(item: QueueItem) {
    && (item.videoId != "" <==> item.state == Uploaded)
    && (item.state == UploadFailed ==> item.retryCount <= item.maxRetries)
  }

  /** From one row to a later version of it: the final states are final and the retry count never falls. */
  predicate Evolves(a: QueueItem, b: QueueItem) {
    && a.id == b.id && a.matchId == b.matchId && a.videoPath == b.videoPath
    && a.retryCount <= b.retryCount
    && (a.state == Uploaded ==> b == a)
    && (a.state == Discarded ==> b == a)
  }

  lemma CommandKeepsRow(item: QueueItem, command: Command)
    requires RowOk(item) && ApplyItem(item, command).Ok?
    ensures RowOk(ApplyItem(item, command).value) && Evolves(item, ApplyItem(item, command).value)
    ensures !Terminal(item.state)
  {
  }

  lemma RecoveryKeepsRow(item: QueueItem, gone: string -> bool)
    requires RowOk(item)
    ensures RowOk(RecoverItem(item, gone)) && Evolves(item, RecoverItem(item, gone))
    ensures RecoverItem(item, gone).state != Uploading
  {
  }

  /** Recovery settles the table for good: recovering again, whatever files are gone by then, changes nothing. */
  lemma RecoveryIsIdempotent(rows: Table, gone: string -> bool, later: string -> bool)
    ensures Recovered(Recovered(rows, gone), later) == Recovered(rows, gone)
  {
    var once := Recovered(rows, gone);
    var twice := Recovered(once, later);
    assert forall k :: 0 <= k < |once| ==> once[k].state != Uploading && twice[k] == once[k];
  }

  /** Which moves between states some command can make. */
  predicate Move(a: State, b: State) {
    match b
    case ReadyUpload => a in {UploadFailed, QuotaWaiting, NeedManualReview}
    case Uploading => a in {ReadyUpload, UploadFailed}
    case Uploaded => a in {Uploading, NeedManualReview}
    case UploadFailed => a in {Uploading, ReadyUpload, UploadFailed}
    case QuotaWaiting => a in {Uploading, ReadyUpload, UploadFailed}
    case NeedManualReview => a !in {Uploaded, Discarded}
    case Discarded => a !in {Uploaded, Discarded}
  }

  /** A command that makes a move; a failed upload is reported with room for one more retry. */
  function MoveBy(item: QueueItem, b: State): Command {
    match b
    case ReadyUpload => Retry(None)
    case Uploading => StartUpload
    case Uploaded => MarkUploaded("video-id", None)
    case UploadFailed => MarkUploadFailed(Some(item.retryCount + 1), None, "", "")
    case QuotaWaiting => MarkQuotaWaiting(None, "", "")
    case NeedManualReview => MarkNeedManualReview(None)
    case Discarded => Discard(None)
  }

  lemma ExampleIdIsValid()
    ensures ValidVideoId("video-id")
  {
    assert StripLeft("video-id") == "video-id";
    assert StripRight("video-id") == "video-id";
  }

  /** The state graph is exactly `Move`: each move is made by some command, and no command makes another. */
  lemma StateGraph(item: QueueItem, b: State)
    ensures (exists c :: ApplyItem(item, c).Ok? && ApplyItem(item, c).value.state == b) <==> Move(item.state, b)
  {
    hide ValidVideoId;
    ExampleIdIsValid();
    if Move(item.state, b) {
      var moved := ApplyItem(item, MoveBy(item, b));
      assert moved.Ok? && moved.value.state == b;
    }
  }
}
