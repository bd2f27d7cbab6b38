/**
 Runs of the upload queue: creation, linking, every command of the API, processing,
 crashes in the middle of an upload, restarts and resets, in any order. Beside the table
 runs a ledger of what really happened to each item.
 */
module UploadRuns {
  import opened Common
  import opened Queue
  import opened Upload

  /**
   What really happened to an item: how often its video arrived, how often an operator
   retried it out of manual review, how often a command of an operator made an upload that
   had been started look as if it had not arrived, and how often the uploader itself did so
   for one that had arrived.
   */
  datatype Ledger = Ledger(deliveries: nat, reviewedRetries: nat, failureClaims: nat, misreports: nat)

  datatype World = World(rows: Table, ledgers: seq<Ledger>)

  /** `delivered` tells whether the video arrived; the code never gets to know. */
  datatype Event =
    | CreateItem(matchId: Option<nat>, videoPath: string, maxRetries: Option<int>, matchExists: bool)
    | LinkMatch(linkedMatch: nat, videoPath: string)
    | OperatorCommand(id: nat, command: Command)
    | ProcessItem(id: nat, facts: QueueItem -> Facts, outcome: Outcome, delivered: bool)
    | ProcessNext(facts: QueueItem -> Facts, outcome: Outcome, delivered: bool)
    | CrashInUpload(id: nat, facts: QueueItem -> Facts, delivered: bool, gone: string -> bool)
    | Restart(gone: string -> bool)
    | ResetQueue

  /** A truthful outcome: success means the video arrived; network, quota and authorization errors that it did not. */
  predicate Consistent(outcome: Outcome, delivered: bool) {
    match outcome
    case Success(_, _) => delivered
    case NetworkError(_, _, _) => !delivered
    case QuotaExceeded(_, _, _) => !delivered
    case AuthError(_) => !delivered
    case AmbiguousError(_) => true
    case Raised => true
  }

  predicate Legal(e: Event) {
    match e
    case ProcessItem(_, _, outcome, delivered) => Consistent(outcome, delivered)
    case ProcessNext(_, outcome, delivered) => Consistent(outcome, delivered)
    case _ => true
  }

  const EMPTY: World := World([], [])

  function Deliver(l: Ledger, delivered: bool): Ledger {
    if delivered then l.(deliveries := l.deliveries + 1) else l
  }

  /** States in which the last upload cannot have arrived. */
  predicate NotSent(s: State) {
    s == ReadyUpload || s == UploadFailed || s == QuotaWaiting
  }

  /** What an operator's command on an item adds to its ledger. */
  function OperatorLedger(item: QueueItem, command: Command, l: Ledger): Ledger {
    if ApplyItem(item, command).Err? then l
    else if command.Retry? && item.state == NeedManualReview then l.(reviewedRetries := l.reviewedRetries + 1)
    else if item.state == Uploading && NotSent(ApplyItem(item, command).value.state)
    then l.(failureClaims := l.failureClaims + 1)
    else l
  }

  /**
   What a processing step adds to the ledger of an item. An arrived upload that the outcome
   leaves in a state to be tried again is a misreport.
   */
  function ProcessLedger(item: QueueItem, facts: Facts, outcome: Outcome, delivered: bool, l: Ledger): Ledger {
    if !Uploads(item, facts) || !delivered then l
    else if NotSent(ProcessRow(item, facts, outcome).0.state)
    then l.(deliveries := l.deliveries + 1, misreports := l.misreports + 1)
    else l.(deliveries := l.deliveries + 1)
  }

  function Put(w: World, k: nat, item: QueueItem, l: Ledger): World
    requires k < |w.rows| == |w.ledgers|
  {
    World(w.rows[k := item], w.ledgers[k := l])
  }

  function AddRow(w: World, rows: Table): World {
    World(rows, if |rows| > |w.rows| then w.ledgers + [Ledger(0, 0, 0, 0)] else w.ledgers)
  }

  function ProcessPlace(w: World, k: nat, facts: QueueItem -> Facts, outcome: Outcome, delivered: bool): World
    requires k < |w.rows| == |w.ledgers|
  {
    var item := w.rows[k];
    Put(w, k, ProcessRow(item, facts(item), outcome).0, ProcessLedger(item, facts(item), outcome, delivered, w.ledgers[k]))
  }

  /** The upload has been started, the video may have arrived, and the worker is gone. */
  function Interrupt(w: World, k: nat, facts: QueueItem -> Facts, delivered: bool): World
    requires k < |w.rows| == |w.ledgers|
  {
    var item := w.rows[k];
    if Uploads(item, facts(item)) then Put(w, k, item.(state := Uploading), Deliver(w.ledgers[k], delivered)) else w
  }

  function Step(w: World, e: Event): (next: World)
    requires |w.rows| == |w.ledgers|
    ensures |next.rows| == |next.ledgers|
  {
    match e
    case CreateItem(matchId, videoPath, maxRetries, matchExists) =>
      AddRow(w, Created(w.rows, matchId, videoPath, maxRetries, matchExists).0)
    case LinkMatch(matchId, videoPath) => AddRow(w, Linked(w.rows, matchId, videoPath).0)
    case OperatorCommand(id, command) =>
      (match Find(w.rows, id, 0)
       case None => w
       case Some(k) =>
         World(Commanded(w.rows, id, command).0, w.ledgers[k := OperatorLedger(w.rows[k], command, w.ledgers[k])]))
    case ProcessItem(id, facts, outcome, delivered) =>
      (match Find(w.rows, id, 0)
       case None => w
       case Some(k) => ProcessPlace(w, k, facts, outcome, delivered))
    case ProcessNext(facts, outcome, delivered) =>
      (match FindReady(w.rows, 0)
       case None => w
       case Some(k) => ProcessPlace(w, k, facts, outcome, delivered))
    case CrashInUpload(id, facts, delivered, gone) =>
      (match Find(w.rows, id, 0)
       case None => w.(rows := Recovered(w.rows, gone))
       case Some(k) =>
         var crashed := Interrupt(w, k, facts, delivered);
         crashed.(rows := Recovered(crashed.rows, gone)))
    case Restart(gone) => w.(rows := Recovered(w.rows, gone))
    case ResetQueue => EMPTY
  }

  /** The tables of a run are those the stores compute. */
  lemma StepFollowsStores(w: World, e: Event)
    requires |w.rows| == |w.ledgers|
    ensures e.ProcessItem? ==> Step(w, e).rows == ProcessedItem(w.rows, e.id, e.facts, e.outcome).0
    ensures e.ProcessNext? ==> Step(w, e).rows == ProcessedNext(w.rows, e.facts, e.outcome).0
    ensures e.OperatorCommand? ==> Step(w, e).rows == Commanded(w.rows, e.id, e.command).0
  {
  }

  /** The world after the first `n` events, starting with an empty queue. */
  function Run(events: seq<Event>, n: nat): (w: World)
    requires n <= |events|
    ensures |w.rows| == |w.ledgers|
  {
    if n == 0 then EMPTY else Step(Run(events, n - 1), events[n - 1])
  }

  predicate AllLegal(events: seq<Event>) {
    forall i :: 0 <= i < |events| ==> Legal(events[i])
  }

  // ----- The invariant -----------------------------------------------------------------

  /** The deliveries that reviewed retries, failure claims and misreports account for. */
  predicate Accounted(item: QueueItem, l: Ledger) {
    l.deliveries <= l.reviewedRetries + l.failureClaims + l.misreports + if NotSent(item.state) then 0 else 1
  }

  predicate RowInvariant(item: QueueItem, l: Ledger) {
    RowOk(item) && Accounted(item, l)
  }

  predicate Invariant(w: World) {
    && |w.rows| == |w.ledgers|
    && Sorted(w.rows)
    && forall k :: 0 <= k < |w.rows| ==> RowInvariant(w.rows[k], w.ledgers[k])
  }

  lemma OperatorKeepsRow(item: QueueItem, command: Command, l: Ledger)
    requires RowInvariant(item, l) && ApplyItem(item, command).Ok?
    ensures RowInvariant(ApplyItem(item, command).value, OperatorLedger(item, command, l))
  {
    CommandKeepsRow(item, command);
  }

  lemma ProcessKeepsAccount(item: QueueItem, facts: Facts, outcome: Outcome, delivered: bool, l: Ledger)
    requires RowInvariant(item, l)
    ensures RowInvariant(ProcessRow(item, facts, outcome).0, ProcessLedger(item, facts, outcome, delivered, l))
  {
    ProcessKeepsRow(item, facts, outcome);
  }

  lemma PutKeepsInvariant(w: World, k: nat, item: QueueItem, l: Ledger)
    requires Invariant(w) && k < |w.rows| && item.id == w.rows[k].id && RowInvariant(item, l)
    ensures Invariant(Put(w, k, item, l))
  {
  }

  lemma AddRowKeepsInvariant(w: World, matchId: Option<nat>, videoPath: string, limit: int)
    requires Invariant(w)
    ensures Invariant(World(w.rows + [NewItem(w.rows, matchId, videoPath, limit)], w.ledgers + [Ledger(0, 0, 0, 0)]))
  {
  }

  lemma RecoveryKeepsInvariant(w: World, gone: string -> bool)
    requires Invariant(w)
    ensures Invariant(w.(rows := Recovered(w.rows, gone)))
  {
    forall k | 0 <= k < |w.rows|
      ensures RowInvariant(Recovered(w.rows, gone)[k], w.ledgers[k]) && Recovered(w.rows, gone)[k].id == w.rows[k].id
    {
      RecoveryKeepsRow(w.rows[k], gone);
    }
  }

  lemma InterruptKeepsInvariant(w: World, k: nat, facts: QueueItem -> Facts, delivered: bool)
    requires Invariant(w) && k < |w.rows|
    ensures Invariant(Interrupt(w, k, facts, delivered))
  {
    var item := w.rows[k];
    if Uploads(item, facts(item)) {
      PutKeepsInvariant(w, k, item.(state := Uploading), Deliver(w.ledgers[k], delivered));
    }
  }

  lemma ProcessPlaceKeepsInvariant(w: World, k: nat, facts: QueueItem -> Facts, outcome: Outcome, delivered: bool)
    requires Invariant(w) && k < |w.rows|
    ensures Invariant(ProcessPlace(w, k, facts, outcome, delivered))
  {
    var item := w.rows[k];
    ProcessKeepsAccount(item, facts(item), outcome, delivered, w.ledgers[k]);
    ProcessKeepsRow(item, facts(item), outcome);
    PutKeepsInvariant(w, k, ProcessRow(item, facts(item), outcome).0,
                      ProcessLedger(item, facts(item), outcome, delivered, w.ledgers[k]));
  }

  lemma StepKeepsInvariant(w: World, e: Event)
    requires Invariant(w)
    ensures Invariant(Step(w, e))
  {
    match e
    case CreateItem(matchId, videoPath, maxRetries, matchExists) =>
      var limit := match maxRetries case None => DEFAULT_MAX_RETRIES case Some(m) => m;
      AddRowKeepsInvariant(w, matchId, videoPath, limit);
    case LinkMatch(matchId, videoPath) => AddRowKeepsInvariant(w, Some(matchId), videoPath, DEFAULT_MAX_RETRIES);
    case OperatorCommand(id, command) =>
      var place := Find(w.rows, id, 0);
      if place.Some? {
        var item := w.rows[place.value];
        if ApplyItem(item, command).Ok? {
          OperatorKeepsRow(item, command, w.ledgers[place.value]);
          CommandKeepsRow(item, command);
          PutKeepsInvariant(w, place.value, ApplyItem(item, command).value, OperatorLedger(item, command, w.ledgers[place.value]));
        } else {
          assert w.ledgers[place.value := w.ledgers[place.value]] == w.ledgers;
        }
      }
    case ProcessItem(id, facts, outcome, delivered) =>
      var place := Find(w.rows, id, 0);
      if place.Some? {
        ProcessPlaceKeepsInvariant(w, place.value, facts, outcome, delivered);
      }
    case ProcessNext(facts, outcome, delivered) =>
      var place := FindReady(w.rows, 0);
      if place.Some? {
        ProcessPlaceKeepsInvariant(w, place.value, facts, outcome, delivered);
      }
    case CrashInUpload(id, facts, delivered, gone) =>
      var place := Find(w.rows, id, 0);
      if place.Some? {
        InterruptKeepsInvariant(w, place.value, facts, delivered);
        RecoveryKeepsInvariant(Interrupt(w, place.value, facts, delivered), gone);
      } else {
        RecoveryKeepsInvariant(w, gone);
      }
    case Restart(gone) => RecoveryKeepsInvariant(w, gone);
    case ResetQueue =>
  }

  lemma {:induction false} RunKeepsInvariant(events: seq<Event>, n: nat)
    requires n <= |events|
    ensures Invariant(Run(events, n))
  {
    if n > 0 {
      RunKeepsInvariant(events, n - 1);
      StepKeepsInvariant(Run(events, n - 1), events[n - 1]);
    }
  }

  // ----- Main results --------------------------------------------------------------------

  /**
   No unaccounted duplicate upload, in every run of every command with crashes anywhere and
   whatever the uploader reports: an item's video never arrives more often than once plus
   the retries an operator issued from manual review plus the started uploads an operator
   declared not to have arrived plus the arrived ones the uploader reported as failed.
   */
  lemma NoUnaccountedDuplicate(events: seq<Event>, n: nat, k: nat)
    requires n <= |events| && k < |Run(events, n).rows|
    ensures var l := Run(events, n).ledgers[k];
            l.deliveries <= 1 + l.reviewedRetries + l.failureClaims + l.misreports
  {
    RunKeepsInvariant(events, n);
    assert RowInvariant(Run(events, n).rows[k], Run(events, n).ledgers[k]);
  }

  /** The actions the Dock offers: retry, discard and mark as uploaded. */
  predicate DockCommand(c: Command) {
    c.Retry? || c.Discard? || c.MarkUploaded?
  }

  /**
   The commands that can make a started upload look as if it had not arrived, with tries
   left: the quota report, and the failure report that does not set the limit below one.
   */
  predicate Harmful(c: Command) {
    c.MarkQuotaWaiting? || (c.MarkUploadFailed? && (c.maxRetries.None? || c.maxRetries.value >= 1))
  }

  /** Every command an operator issues is one of those allowed. */
  predicate Within(events: seq<Event>, allowed: Command -> bool) {
    forall i :: 0 <= i < |events| && events[i].OperatorCommand? ==> allowed(events[i].command)
  }

  predicate DockOnly(events: seq<Event>) {
    Within(events, DockCommand)
  }

  predicate NoClaims(ledgers: seq<Ledger>) {
    forall k :: 0 <= k < |ledgers| ==> ledgers[k].failureClaims == 0
  }

  lemma HarmlessCommandMakesNoClaim(item: QueueItem, command: Command, l: Ledger)
    requires !Harmful(command)
    ensures OperatorLedger(item, command, l).failureClaims == l.failureClaims
  {
  }

  lemma StepMakesNoClaims(w: World, e: Event)
    requires |w.rows| == |w.ledgers| && NoClaims(w.ledgers) && (e.OperatorCommand? ==> !Harmful(e.command))
    ensures NoClaims(Step(w, e).ledgers)
  {
    hide OperatorLedger, Uploads;
    if e.OperatorCommand? {
      var place := Find(w.rows, e.id, 0);
      if place.Some? {
        HarmlessCommandMakesNoClaim(w.rows[place.value], e.command, w.ledgers[place.value]);
      }
    }
  }

  lemma {:induction false} HarmlessRunMakesNoClaims(events: seq<Event>, n: nat)
    requires n <= |events| && forall i :: 0 <= i < n && events[i].OperatorCommand? ==> !Harmful(events[i].command)
    ensures NoClaims(Run(events, n).ledgers)
  {
    hide Step;
    if n > 0 {
      HarmlessRunMakesNoClaims(events, n - 1);
      StepMakesNoClaims(Run(events, n - 1), events[n - 1]);
    }
  }

  /** No item's video arrives more often than once plus its retries out of manual review. */
  ghost predicate NoUnreviewed(ledgers: seq<Ledger>) {
    forall k :: 0 <= k < |ledgers| ==> ledgers[k].deliveries <= 1 + ledgers[k].reviewedRetries
  }

  /** Without harmful commands nothing but a misreport adds an unreviewed delivery, whatever the uploader reports. */
  lemma HarmlessRunIsBounded(events: seq<Event>, n: nat, k: nat)
    requires n <= |events| && k < |Run(events, n).ledgers|
    requires forall i :: 0 <= i < n && events[i].OperatorCommand? ==> !Harmful(events[i].command)
    ensures var l := Run(events, n).ledgers[k]; l.deliveries <= 1 + l.reviewedRetries + l.misreports
  {
    hide Run;
    HarmlessRunMakesNoClaims(events, n);
    NoUnaccountedDuplicate(events, n, k);
  }

  predicate NoMisreports(ledgers: seq<Ledger>) {
    forall k :: 0 <= k < |ledgers| ==> ledgers[k].misreports == 0
  }

  lemma TruthfulStepIsNoMisreport(item: QueueItem, facts: Facts, outcome: Outcome, delivered: bool, l: Ledger)
    requires Consistent(outcome, delivered)
    ensures ProcessLedger(item, facts, outcome, delivered, l).misreports == l.misreports
  {
  }

  lemma StepMakesNoMisreports(w: World, e: Event)
    requires |w.rows| == |w.ledgers| && NoMisreports(w.ledgers) && Legal(e)
    ensures NoMisreports(Step(w, e).ledgers)
  {
    hide ProcessLedger, Uploads, Consistent;
    match e
    case ProcessItem(id, facts, outcome, delivered) =>
      var place := Find(w.rows, id, 0);
      if place.Some? {
        var item := w.rows[place.value];
        TruthfulStepIsNoMisreport(item, facts(item), outcome, delivered, w.ledgers[place.value]);
      }
    case ProcessNext(facts, outcome, delivered) =>
      var place := FindReady(w.rows, 0);
      if place.Some? {
        var item := w.rows[place.value];
        TruthfulStepIsNoMisreport(item, facts(item), outcome, delivered, w.ledgers[place.value]);
      }
    case _ =>
  }

  lemma {:induction false} LegalRunMakesNoMisreports(events: seq<Event>, n: nat)
    requires n <= |events| && AllLegal(events)
    ensures NoMisreports(Run(events, n).ledgers)
  {
    hide Step, Legal;
    if n > 0 {
      LegalRunMakesNoMisreports(events, n - 1);
      StepMakesNoMisreports(Run(events, n - 1), events[n - 1]);
    }
  }

  lemma HarmlessRunHasNoUnreviewed(events: seq<Event>, n: nat)
    requires n <= |events| && AllLegal(events)
    requires forall i :: 0 <= i < n && events[i].OperatorCommand? ==> !Harmful(events[i].command)
    ensures NoUnreviewed(Run(events, n).ledgers)
  {
    hide Run, Harmful;
    LegalRunMakesNoMisreports(events, n);
    forall k | 0 <= k < |Run(events, n).ledgers|
      ensures Run(events, n).ledgers[k].deliveries <= 1 + Run(events, n).ledgers[k].reviewedRetries
    {
      HarmlessRunIsBounded(events, n, k);
    }
  }

  /**
   No unreviewed duplicate upload across crashes: with the operator actions of the Dock, an
   item's video arrives at most once more than it was retried out of manual review.
   */
  lemma NoUnreviewedDuplicate(events: seq<Event>, n: nat, k: nat)
    requires n <= |events| && AllLegal(events) && DockOnly(events) && k < |Run(events, n).rows|
    ensures Run(events, n).ledgers[k].deliveries <= 1 + Run(events, n).ledgers[k].reviewedRetries
  {
    HarmlessRunHasNoUnreviewed(events, n);
  }

  /** The reachable rows: a video id exactly for uploaded items, and retries left for failed ones. */
  lemma ReachableRows(events: seq<Event>, n: nat, k: nat)
    requires n <= |events| && k < |Run(events, n).rows|
    ensures var item := Run(events, n).rows[k];
            && (item.videoId != "" <==> item.state == Uploaded)
            && (item.state == UploadFailed ==> item.retryCount <= item.maxRetries)
  {
    RunKeepsInvariant(events, n);
    assert RowInvariant(Run(events, n).rows[k], Run(events, n).ledgers[k]);
  }

  /** The success marker that startup recovery looks for is never there on an interrupted upload. */
  lemma RecoveryNeverFindsSuccess(events: seq<Event>, n: nat, k: nat, gone: string -> bool)
    requires n <= |events| && k < |Run(events, n).rows|
    requires Run(events, n).rows[k].state == Uploading
    ensures RecoverItem(Run(events, n).rows[k], gone).state in {NeedManualReview, Discarded}
  {
    ReachableRows(events, n, k);
  }

  /** Rows only evolve: between resets no row disappears and none leaves a final state. */
  predicate RowsEvolve(a: Table, b: Table) {
    |a| <= |b| && forall k :: 0 <= k < |a| ==> Evolves(a[k], b[k])
  }

  lemma StepEvolves(w: World, e: Event)
    requires Invariant(w) && e != ResetQueue
    ensures RowsEvolve(w.rows, Step(w, e).rows)
  {
    forall k | 0 <= k < |w.rows|
      ensures Evolves(w.rows[k], Step(w, e).rows[k])
    {
      assert RowInvariant(w.rows[k], w.ledgers[k]);
      RowEvolves(w, e, k);
    }
  }

  lemma RowEvolves(w: World, e: Event, k: nat)
    requires |w.rows| == |w.ledgers| && k < |w.rows| && RowOk(w.rows[k]) && e != ResetQueue
    ensures k < |Step(w, e).rows| && Evolves(w.rows[k], Step(w, e).rows[k])
  {
    hide RowOk, ApplyItem, ProcessRow, RecoverItem, Uploads, OperatorLedger;
    var item := w.rows[k];
    match e
    case OperatorCommand(id, command) =>
      if ApplyItem(item, command).Ok? {
        CommandKeepsRow(item, command);
      }
    case ProcessItem(_, facts, outcome, _) => ProcessKeepsRow(item, facts(item), outcome);
    case ProcessNext(facts, outcome, _) => ProcessKeepsRow(item, facts(item), outcome);
    case CrashInUpload(_, facts, _, gone) =>
      RecoveryKeepsRow(item, gone);
      CrashKeepsRow(item, facts(item), gone);
    case Restart(gone) => RecoveryKeepsRow(item, gone);
    case _ =>
  }

  lemma CrashKeepsRow(item: QueueItem, facts: Facts, gone: string -> bool)
    requires RowOk(item)
    ensures Uploads(item, facts) ==> Evolves(item, RecoverItem(item.(state := Uploading), gone))
  {
  }

  /** In every run without a reset: final states stay, retry counts never fall, rows keep their identity. */
  lemma {:induction false} RunEvolves(events: seq<Event>, m: nat, n: nat)
    requires m <= n <= |events|
    requires forall i :: m <= i < n ==> events[i] != ResetQueue
    ensures RowsEvolve(Run(events, m).rows, Run(events, n).rows)
    decreases n - m
  {
    hide Step, Invariant;
    if m < n {
      RunEvolves(events, m, n - 1);
      RunKeepsInvariant(events, n - 1);
      StepEvolves(Run(events, n - 1), events[n - 1]);
    }
  }

  // ----- Exactly which commands break the bound -----------------------------------------------

  function Ready(item: QueueItem): Facts {
    Facts(true, Some(Metadata([], true, true, true)))
  }

  const UPLOAD: Event := ProcessItem(1, Ready, Raised, true)

  /** The video arrives unnoticed, the command hides it, a plain retry follows, and the video arrives again. */
  function ClaimRun(c: Command): seq<Event> {
    [CreateItem(Some(1), "v", None, true), UPLOAD, OperatorCommand(1, c), OperatorCommand(1, Retry(None)), UPLOAD]
  }

  const FIRST: QueueItem := QueueItem(1, Some(1), ReadyUpload, "v", "", "", 0, 3, "", "", "", "")

  /** A world with one item, which waits for a retry or for review. */
  predicate Stuck(w: World, l: Ledger) {
    && |w.rows| == 1 && w.ledgers == [l] && w.rows[0].id == 1 && w.rows[0].matchId == Some(1)
    && w.rows[0].state in {UploadFailed, QuotaWaiting, NeedManualReview}
    && w.rows[0].videoId == "" && w.rows[0].videoPath == "v"
  }

  /** A retry and one more upload. */
  lemma RetryAndUpload(w: World, l: Ledger)
    requires Stuck(w, l)
    ensures var retried := Step(w, OperatorCommand(1, Retry(None)));
            var reviewed := if w.rows[0].state == NeedManualReview then 1 else 0;
            Step(retried, UPLOAD).ledgers ==
            [Ledger(l.deliveries + 1, l.reviewedRetries + reviewed, l.failureClaims, l.misreports)]
  {
    var retried := Step(w, OperatorCommand(1, Retry(None)));
    var item := w.rows[0].(state := ReadyUpload, nextAttemptAt := "");
    assert retried.rows == [item];
    assert Uploads(item, Ready(item));
    assert Find(retried.rows, 1, 0) == Some(0);
  }

  lemma ClaimRunHidesTheUpload(c: Command)
    requires Harmful(c)
    ensures var w := Run(ClaimRun(c), 3);
            Stuck(w, Ledger(1, 0, 1, 0)) && w.rows[0].state != NeedManualReview
  {
    var events := ClaimRun(c);
    assert Run(events, 1) == World([FIRST], [Ledger(0, 0, 0, 0)]);
    assert Run(events, 2) == World([FIRST.(state := Uploading)], [Ledger(1, 0, 0, 0)]);
  }

  /** Each harmful command has a legal run in which it leads to a second delivery nobody reviewed. */
  lemma ClaimsCanDuplicate(c: Command)
    requires Harmful(c)
    ensures AllLegal(ClaimRun(c)) && Run(ClaimRun(c), 5).ledgers == [Ledger(2, 0, 1, 0)]
  {
    hide Harmful, Step;
    var events := ClaimRun(c);
    ClaimRunHidesTheUpload(c);
    RetryAndUpload(Run(events, 3), Ledger(1, 0, 1, 0));
    assert Run(events, 4) == Step(Run(events, 3), OperatorCommand(1, Retry(None)));
    assert Run(events, 5) == Step(Run(events, 4), UPLOAD);
  }

  lemma ClaimRunIsWithin(c: Command, allowed: Command -> bool)
    requires allowed(c) && allowed(Retry(None))
    ensures Within(ClaimRun(c), allowed)
  {
  }

  /**
   The exact condition. Whatever commands operators are allowed beside those of the Dock,
   no run has an unreviewed duplicate if and only if no harmful command is allowed.
   */
  lemma NoUnreviewedDuplicateExactly(allowed: Command -> bool)
    requires forall c :: DockCommand(c) ==> allowed(c)
    ensures (forall events: seq<Event>, n: nat :: n <= |events| && AllLegal(events) && Within(events, allowed) ==>
               NoUnreviewed(Run(events, n).ledgers))
            <==> (forall c :: allowed(c) ==> !Harmful(c))
  {
    hide Harmful, Run, AllLegal;
    if c: Command :| allowed(c) && Harmful(c) {
      ClaimsCanDuplicate(c);
      ClaimRunIsWithin(c, allowed);
      assert Run(ClaimRun(c), 5).ledgers[0] == Ledger(2, 0, 1, 0);
    } else {
      forall events: seq<Event>, n: nat | n <= |events| && AllLegal(events) && Within(events, allowed)
        ensures NoUnreviewed(Run(events, n).ledgers)
      {
        HarmlessRunHasNoUnreviewed(events, n);
      }
    }
  }

  // ----- The allowance for reviewed retries is needed ----------------------------------------------

  function ReviewRun(): seq<Event> {
    [CreateItem(Some(1), "v", None, true), CrashInUpload(1, Ready, true, _ => false), OperatorCommand(1, Retry(None)), UPLOAD]
  }

  lemma ReviewRunCrashes()
    ensures var w := Run(ReviewRun(), 2);
            Stuck(w, Ledger(1, 0, 0, 0)) && w.rows[0].state == NeedManualReview
  {
    assert Run(ReviewRun(), 1) == World([FIRST], [Ledger(0, 0, 0, 0)]);
  }

  /** With Dock actions alone the bound is reached: a crash hides the delivery and the review retries it. */
  lemma ReviewedRetryCanDuplicate()
    ensures AllLegal(ReviewRun()) && DockOnly(ReviewRun()) && Run(ReviewRun(), 4).ledgers == [Ledger(2, 1, 0, 0)]
  {
    hide Step;
    ReviewRunCrashes();
    RetryAndUpload(Run(ReviewRun(), 2), Ledger(1, 0, 0, 0));
    assert Run(ReviewRun(), 3) == Step(Run(ReviewRun(), 2), OperatorCommand(1, Retry(None)));
    assert Run(ReviewRun(), 4) == Step(Run(ReviewRun(), 3), UPLOAD);
  }

  // ----- The allowance for misreports is needed ----------------------------------------------------

  const MISREPORT: Event := ProcessItem(1, Ready, NetworkError("", "", ""), true)

  /** A network error after the video has arrived: the next try delivers it again, with no operator at all. */
  lemma MisreportCanDuplicate()
    ensures var events := [CreateItem(Some(1), "v", None, true), MISREPORT, UPLOAD];
            DockOnly(events) && Run(events, 3).ledgers == [Ledger(2, 0, 0, 1)]
  {
    var events := [CreateItem(Some(1), "v", None, true), MISREPORT, UPLOAD];
    assert Run(events, 1) == World([FIRST], [Ledger(0, 0, 0, 0)]);
    assert Run(events, 2).ledgers == [Ledger(1, 0, 0, 1)] && Run(events, 2).rows[0].state == UploadFailed;
  }
}
