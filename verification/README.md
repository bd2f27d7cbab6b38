# Verified model of OBS Duel Recorder

OBS Duel Recorder is an OBS plugin (C++) that starts and watches a local worker process
(Python). The worker watches the screen for the start and the end of a duel, keeps the
state of the recording session, makes one match row and one queue row per recording, and
uploads the videos of the queue. These modules model the parts of both programs in which
state, branching and arithmetic meet, and prove what those parts promise for every input,
every run and every crash.

Run `dafny verify dfyconfig.toml` to check the project.

## The system, part by part

**Replies as text.** The plugin reads the worker's JSON replies without a parser: it
searches for the quoted key, skips blanks, and finds the end of a value by counting one
kind of bracket outside strings. `JsonTree` defines JSON values and the compact printer of
the worker, `JsonSearch`, `JsonExtract` and `JsonFields` are the C++ loops, and the
theorems say that the text search is a search in the tree. The search takes a member for
`key` when its name is the key, or ends in a quote followed by the key. It is therefore
right exactly when no name of the second kind precedes every member named `key`
(`JsonLookup.LookupIsExactIffUnmistaken`). The worker's own names hold no quote, but the
review evidence in a queue item is any object a client sent, and it stands before the
time stamps; `JsonLookup.QuotedNameIsMistaken` is a reply on which the search goes wrong.
Section 7 of RFC 8259 is the string syntax, sections 4 and 5 are objects and arrays.

**Images.** `PngFilter`, `PngRows` and `PngContainer` are the PNG decoder (sections 3.2,
4.1 and 6.1 to 6.6 of RFC 2083): unfiltering in place, the walk over the chunks, the
checks of the header and the conversion to luma. The decoder takes the last IHDR, does not
look at checksums, and does not insist on IEND; the model does the same. `ImageSearch` is
the template search with its strides and early exits. Below 100 000 000 comparisons it
scans every position; above, it still does where each direction has at most two positions,
and otherwise it is a sample. `ImageSearch.SearchIsCompleteExactly` says that these are
exactly the sizes for which a full score means the same as occurrence. `TemplateMatching`
puts decoder and search together: from the bytes of two PNG streams to the verdict, for
every threshold, whether the template picture shows in the frame picture.

**Detection and recording.** `Detection` is the counter machine that turns frames into
duel events, `Recording` the session state machine. `App` is the worker application that
joins them with the match and the queue store: its handlers change the state in memory
first, then the saved copy, then the match row, then the queue row, and may break after
each of these. `AppRuns` and `AppLinks` are about all runs of such handlers with restarts
at any point, and with templates registered in between, which replace the counters.

**Queue and upload.** `Queue` is the table of queue rows with its commands, `Upload` the
processing of one item, `UploadRuns` all runs with crashes inside an upload. A ledger
beside each row counts what really happened: how often the video arrived, how often an
operator retried it out of manual review, how often a command of an operator made a
started upload look as if it had not arrived, and how often the uploader itself reported
an arrived upload as failed. The last two matter: after them a plain retry, or the next
try by itself, uploads a second time, and nobody has reviewed it. The commands that
can do this are the quota report and the failure report that does not set the retry limit
below one. `UploadRuns.NoUnreviewedDuplicateExactly` says that the promise holds for the
buttons of the plugin's dock together with any other commands, if and only if these two
are not among them. `AppProjection` carries the results over to runs of the whole
application.

**Match rows.** `Metadata` numbers the matches of a deck. The number is chosen by a query
on `LOWER(TRIM(deck_name))`, which knows ASCII letters and blanks only, with a key that is
case-folded and collapses all spaces. The two agree exactly on names whose spaces are
single blanks and whose characters all fold to what LOWER makes of them. With any other
name (two spaces in a row, an ideographic space, an upper-case or full-width letter beyond
ASCII) the query never finds its own row and the number repeats.
`Metadata.DeckNumbersAreUniqueExactly` says it for all runs, and for every table of case
folding: `Text.Fold` only asks that ASCII letters become lower case, that spaces stay, and
that any other character becomes some text without spaces.

**Process manager.** `Launcher` is the plugin thread that probes for a worker, spawns one,
waits for it and watches it, with the caller that starts and stops the thread.
`LauncherRuns` interleaves the two and follows every Windows handle.

**Statistics and pages.** `Statistics` groups match rows. `Markdown` is the block renderer
of the documentation pages; it leaves a list open when plain text follows an item, so a
paragraph can land inside a list, and the exact condition for that is proved.

Modules `Common` and `Text` hold the helpers: optional values and results, text at a
position, Python's `strip`, `split` and `casefold`, and SQLite's LOWER and TRIM.

Objects whose methods update fields are classes here (`QueueStore`, `UploadStore`,
`MatchMetadataStore`, `DetectionRuntime`, `Application`, `WorkerProcessManager`,
`Renderer`), and loops are loops. Each such method is proved against a function of the old
state, and the theorems are about that function, over whole runs where runs matter.
Inputs from outside are parameters: what a template match says, what the uploader answers,
whether a file is there, what Windows returns, and where a handler breaks.

## Where the code differs from its documentation

The model follows the code.

- `docs/requirements/v0.7-queue-recovery-system-acceptance.md` says that items with a
  success marker recover to `uploaded`. The code has that branch, but no run reaches it:
  `UploadRuns.RecoveryNeverFindsSuccess`.
- `docs/requirements/requirements.md` asks for manual review of ambiguous uploads instead
  of a blind retry. The worker itself complies; a client that reports a running upload as
  failed or over quota gets the blind retry: `UploadRuns.ClaimsCanDuplicate`.
- `docs/architecture/plugin-worker.md` prefers a graceful end of a spawned worker before
  it is killed. The code terminates it at once: `Launcher.FinishedStop`.
- `docs/user/obs-sources.md` promises a number per deck name. With some names the number
  repeats: `Metadata.NamesThatRepeat`.

## Model

| member | source | states |
|---|---|---|
| `JsonCodec.JsonEscape` | app/plugin/src/worker-api.cpp:274-311 | the escaping loop writes the escaped text, character by character |
| `JsonCodec.JsonUnescape` | app/plugin/src/worker-api.cpp:17-57 | the unescaping loop, with `\u` sequences, unknown escapes and a trailing backslash as the code has them |
| `JsonCodec.ParseJsonStringAt` | app/plugin/src/worker-api.cpp:81-104 | the string parser gives the value and the next position of the literal at a position, or nothing |
| `JsonCodec.LiteralRoundTrip` | app/plugin/src/worker-api.cpp:81-104 | parsing quoted escaped text consumes exactly the literal wherever it stands; the value is the text with each control character that has no short escape replaced by its `\u00xx` text, and it is the text itself if and only if there is no such character |
| `JsonTree.AtIsPrinted` | app/plugin/src/worker-api.cpp:142-176 | where the text of a JSON tree stands, every part of the tree is printed at its computed position |
| `JsonTree.PrintedIsAt` | app/plugin/src/worker-api.cpp:142-176 | the converse: a tree printed part by part reads as its text, from start to end |
| `JsonTree.EntriesArePlaced` | app/plugin/src/worker-api.cpp:67-79 | every member of a printed tree, at any depth, has its value printed at the position listed for it |
| `JsonSearch.FindJsonValueStart` | app/plugin/src/worker-api.cpp:67-79 | the search loop: find the quoted key, skip blanks, accept at a colon, otherwise go on behind the whole token |
| `JsonSearch.Find` | app/plugin/src/worker-api.cpp:67-79 | the library search gives the first position at which the part stands |
| `JsonSearch.LiteralTokens` | app/plugin/src/worker-api.cpp:67-79 | a quoted key stands inside a string literal if and only if the content is the key or ends in a quote and the key, and then only at its end |
| `JsonSearch.LiteralIsPassed` | app/plugin/src/worker-api.cpp:67-79 | the search runs through a literal that is no matching name without finding anything, although it jumps whole tokens |
| `JsonLookup.TextSearchIsTreeSearch` | app/plugin/src/worker-api.cpp:67-79 | for every tree and key, text search returns where the value of the first matching member in document order starts, and nothing if and only if no member matches |
| `JsonLookup.EntriesAscend` | app/plugin/src/worker-api.cpp:67-79 | document order is the order of the positions: the values listed for a tree start one after another |
| `JsonLookup.LookupIsExactIffUnmistaken` | app/plugin/src/worker-api.cpp:67-79 | the search returns the value of the first member named exactly `key`, and nothing when there is none, if and only if no member whose name ends in a quote and the key precedes every member named `key` |
| `JsonLookup.QuoteFreeNamesAreFoundExactly` | app/plugin/src/worker-api.cpp:67-79 | when no member name holds a quote, the search returns a position if and only if it is the value of the first member with exactly that name |
| `JsonLookup.QuotedNameIsMistaken` | app/plugin/src/worker-api.cpp:67-79 | a reply with the name `x"id` before `id`, for which the search returns the wrong value |
| `JsonLookup.FirstNamedIsFirst` | app/plugin/src/worker-api.cpp:67-79 | the reference lookup really is the first matching member, and none only if none matches |
| `JsonExtract.FindJsonDelimiterEnd` | app/plugin/src/worker-api.cpp:142-176 | the matcher loop computes where the bracket at the start position is closed |
| `JsonExtract.ValueIsSkipped` | app/plugin/src/worker-api.cpp:142-176 | inside an open bracket every printed value leaves the count unchanged, whatever its strings hold |
| `JsonExtract.MatcherFindsTheEnd` | app/plugin/src/worker-api.cpp:142-176 | wherever an object or an array is printed, inside any text, the matcher returns exactly its end |
| `JsonFields.ExtractJsonString` | app/plugin/src/worker-api.cpp:106-118 | the string extractor computes the string field |
| `JsonFields.ExtractJsonNumber` | app/plugin/src/worker-api.cpp:120-134 | the number extractor computes the digits of the field |
| `JsonFields.ExtractJsonBool` | app/plugin/src/worker-api.cpp:136-140 | the boolean extractor tells whether `true` stands at the field |
| `JsonFields.ExtractJsonObject` | app/plugin/src/worker-api.cpp:178-189 | the object extractor computes the text of the object field |
| `JsonFields.ExtractJsonStringArray` | app/plugin/src/worker-api.cpp:191-220 | the loop that joins the strings of an array field |
| `JsonFields.ExtractJsonObjectArray` | app/plugin/src/worker-api.cpp:232-260 | the loop that splits an array field into object texts |
| `JsonFields.ScalarFieldsOfATree` | app/plugin/src/worker-api.cpp:106-140 | on every printed tree the scalar extractors return the first matching member's value, and the empty text or false for a member of another kind or none |
| `JsonFields.ArrayFieldsOfATree` | app/plugin/src/worker-api.cpp:191-260 | on every printed tree the array extractors return exactly the texts of the leading objects, or the leading strings joined |
| `PngFilter.PaethPredictor` | app/worker/odr_worker/detection.py:435-444 | the predictor is the neighbour nearest to left + up - upper left; ties go to left, then up |
| `PngFilter.UnfilterPngRow` | app/worker/odr_worker/detection.py:407-432 | the in-place loop, which reads bytes it has already rewritten, leaves the reconstruction of the line; an unknown filter is refused and leaves the line alone |
| `PngFilter.UnfilteringInvertsFiltering` | app/worker/odr_worker/detection.py:407-432 | for all five filters, any pixel size and any rows, unfiltering the filtered row gives the row back |
| `PngFilter.FilteringInvertsUnfiltering` | app/worker/odr_worker/detection.py:407-432 | the other direction: no two lines decode to the same row |
| `PngRows.PngRowToLuma` | app/worker/odr_worker/detection.py:447-459 | the row loop gives one luma byte per pixel |
| `PngRows.LumaRow` | app/worker/odr_worker/detection.py:447-459 | value `x` of the row is the luma of pixel `x` |
| `PngRows.DecodePngRows` | app/worker/odr_worker/detection.py:393-404 | the loop over the rows, with the previous reconstructed row passed on, computes the decoded rows or the first filter error |
| `PngRows.RowsRoundTrip` | app/worker/odr_worker/detection.py:393-404 | for any image and any choice of filter per row, decoding the scan lines gives the luma of the image |
| `PngContainer.WalkChunks` | app/worker/odr_worker/detection.py:341-372 | the walk over arbitrary bytes ends, stays in bounds, and gathers what the chunks say or the error |
| `PngContainer.DecodePng` | app/worker/odr_worker/detection.py:341-404 | the decoder computes the decoding function, with its checks in order |
| `PngContainer.DecodedImageIsFull` | app/worker/odr_worker/detection.py:341-404 | whatever the bytes, an accepted image has a positive width and height and exactly width times height values |
| `PngContainer.WalkGathers` | app/worker/odr_worker/detection.py:347-372 | on every chunk stream the walk gathers the last IHDR and all image data in order, passes over other chunks and ignores what follows IEND |
| `PngContainer.ContainerRoundTrip` | app/worker/odr_worker/detection.py:341-404 | for every grey, RGB or RGBA image, every split into IDAT chunks with other chunks between, every filter choice and any trailing bytes, decoding gives the size and the luma of the image |
| `PngContainer.DecodedPixel` | app/worker/odr_worker/detection.py:447-459 | value y * width + x of the result is the luma of source pixel (x, y) |
| `PngContainer.PlainEncodingDecodes` | app/worker/tests/test_detection.py:271-284 | the stream of the plain encoder (one IHDR, one IDAT, IEND) decodes to its image, for any compressor and checksum |
| `ImageSearch.ImageDiffAt` | app/worker/odr_worker/detection.py:498-507 | the loop with early exit: a result below the bound is the whole sum of absolute differences, any other means that the whole sum reaches the bound |
| `ImageSearch.SadZero` | app/worker/odr_worker/detection.py:498-507 | the sum is zero if and only if the template is an exact sub-image at the position |
| `ImageSearch.ScanPositionsCover` | app/worker/odr_worker/detection.py:488-495 | for every step the scanned positions increase, stay in range, contain the first and the last one, and leave gaps of at most the step |
| `ImageSearch.ScanIsCompleteExactly` | app/worker/odr_worker/detection.py:488-495 | every position is scanned if and only if the step is one or there are at most two positions |
| `ImageSearch.StepIsOne` | app/worker/odr_worker/detection.py:462-485 | the step is one if and only if the number of comparisons is below four times the budget |
| `ImageSearch.LeastDifference` | app/worker/odr_worker/detection.py:472-482 | the nested loops with both early exits find the exact least sum over all scanned positions |
| `ImageSearch.ImageMatchScore` | app/worker/odr_worker/detection.py:462-485 | the pruned search scores the exact least sum of the exhaustive one, and 0 when the template does not fit |
| `ImageSearch.ScoreRange` | app/worker/odr_worker/detection.py:462-485 | the score lies in [0, 1], falls strictly as the difference grows, and is 1 only for no difference |
| `ImageSearch.FullScoreIsExact` | app/worker/odr_worker/detection.py:462-485 | score 1 holds if and only if an exact copy stands at a scanned position |
| `ImageSearch.FullScoreIsComplete` | app/worker/odr_worker/detection.py:462-485 | score 1 always means that the template occurs in the frame, and where the search leaves out no position it holds if and only if the template occurs |
| `ImageSearch.BudgetIsExhaustive` | app/worker/odr_worker/detection.py:462-485 | below four times the budget the search leaves out no position, whatever the sizes |
| `ImageSearch.SearchIsCompleteExactly` | app/worker/odr_worker/detection.py:462-495 | by sizes: a full score means the same as occurrence for all images of the sizes if and only if the search leaves out no position |
| `ImageSearch.ThresholdIsTolerance` | app/worker/odr_worker/detection.py:462-485 | for every threshold in [0, 1] the score reaches it if and only if some scanned position differs by at most (1 - threshold) of the largest possible difference, and any position where the search leaves out none |
| `TemplateMatching.MatchTemplates` | app/worker/odr_worker/detection.py:186-203 | each template is reported with its kind, the score it deserves (image comparison if both sides decode, plain containment otherwise) and whether that reaches its threshold |
| `TemplateMatching.ShowsIsSubImage` | app/worker/odr_worker/detection.py:462-507 | the decoded template is a sub-image of the decoded frame if and only if the pictures agree luma for luma |
| `TemplateMatching.DifferenceOfPictures` | app/worker/odr_worker/detection.py:498-507 | the differences the search sums are those of the luma of the two pictures, pixel by pixel |
| `TemplateMatching.FullScoreMeansShown` | app/worker/odr_worker/detection.py:186-203 | for any two PNG streams, however split, filtered and compressed, the score is in [0, 1], a full score means that the template picture shows in the frame picture, and where the search leaves out no position it is full if and only if it shows |
| `TemplateMatching.MatchMeansShown` | app/worker/odr_worker/detection.py:186-203 | for any two PNG streams and every threshold in [0, 1], the template matches if and only if the pictures differ by at most the tolerance at some scanned position, and at any position where the search leaves out none |
| `TemplateMatching.FrameIsWhatShows` | app/worker/odr_worker/detection.py:212-216 | with such templates the counters are told of a start or an end if and only if a template of that kind shows in the frame within its threshold |
| `Detection.DetectionRuntime.Evaluate` | app/worker/odr_worker/detection.py:212-268 | one frame moves the counters, fires the events and sends the recording command as the step function says |
| `Detection.DuelDrivesRecording` | app/worker/odr_worker/detection.py:296-304 | a started duel begins a session if none is active, an ended one stops a running recording, and otherwise the state stays and the skipped command is reported |
| `Detection.CountersReflectHistory` | app/worker/odr_worker/detection.py:212-268 | for every frame sequence the counters are the trailing run lengths since the last duel event, and stay below their limits |
| `Detection.FiresAtFirstRun` | app/worker/odr_worker/detection.py:212-268 | an event fires exactly at the frame that completes the first run of the needed length since the previous event |
| `Detection.EventsAlternate` | app/worker/odr_worker/detection.py:212-268 | duel events alternate, beginning with a start |
| `Recording.CommandFollowsEdges` | app/worker/odr_worker/recording.py:133-230 | a well-formed command is accepted if and only if its action has an edge from the current phase; it follows the edge and keeps the session unless it starts or ends one |
| `Recording.RecoveryLeavesNothingActive` | app/worker/odr_worker/recording.py:106-122 | after recovery no session is active, and recovering again changes nothing |
| `App.Application.PostRecordingCommand` | app/worker/odr_worker/api.py:358-413 | the handler changes memory, saved copy, match rows and queue rows in this order, up to the point where it breaks |
| `App.Application.PostDetectionFrame` | app/worker/odr_worker/api.py:569-604 | the frame handler always moves the counters, and the recording state with its saved copy only when it changed; without a detection runtime it changes nothing |
| `App.Application.Startup` | app/worker/odr_worker/api.py:109-154 | startup recovers the saved state, saves it, loads the detection runtime and settles interrupted uploads |
| `App.Application.LoadDetectionRuntime` | app/worker/odr_worker/api.py:95-106 | loading replaces the detection runtime by a quiet one, or by none when the configuration is refused, and touches nothing else |
| `AppRuns.StepMoves` | app/worker/odr_worker/api.py:374-387 | every event moves the recording state only through an accepted command or recovery, and the saved copy is the old one or the new state |
| `AppRuns.StepRecords` | app/worker/odr_worker/metadata.py:124-169 | every event keeps the match rows and adds at most one; one with a session is for the completed session just saved, and no row had it |
| `AppRuns.RunKeepsInvariant` | app/worker/odr_worker/api.py:358-413 | in every run the saved copy lags behind memory without leaving its session's path, and a session with a match row is completed wherever it is known |
| `AppRuns.CompletedSessionsAreUninterrupted` | app/worker/odr_worker/recording.py:162-230 | in every run with restarts anywhere, a completed session saw start, start confirmation, stop and stop confirmation in order with no restart in between |
| `AppRuns.ActiveAtRestartNeverCompletes` | app/worker/odr_worker/recording.py:106-122 | a session active at a restart, in memory or in the saved copy, is at best interrupted ever after and never gets a match row |
| `AppRuns.OneMatchPerSession` | app/worker/odr_worker/metadata.py:124-169 | in every run no two match rows name the same session, and a row's session completed without restart and was saved as completed |
| `AppRuns.CompletionIsLinked` | app/worker/odr_worker/api.py:381-412 | in every run a manual confirmation of a completed session that does not break answers with a match row of that session |
| `AppLinks.OneQueueRowPerMatch` | app/worker/odr_worker/queue.py:156-181 | in every run in which no operator creates a row for the match by hand, a match has at most one queue row |
| `AppLinks.ConfirmingAgainIsIdempotent` | app/worker/odr_worker/api.py:381-412 | once a confirmation named a queue row, then without a queue reset every later confirmation of that session adds no row and names the same match and item, across restarts |
| `AppProjection.MatchesProject` | app/worker/odr_worker/api.py:358-413 | the match table of an application run is that of a run of the match store alone |
| `AppProjection.QueueProjects` | app/worker/odr_worker/api.py:358-413 | the queue of an application run, with its ledger, is that of a run of the queue alone |
| `AppProjection.NoUnaccountedDuplicate` | app/worker/odr_worker/upload.py:383-443 | the account of deliveries bounds them in every run of the whole application, whatever the uploader reports |
| `AppProjection.NoUnreviewedDuplicate` | app/worker/odr_worker/upload.py:383-443 | deliveries never exceed one plus the reviewed retries in every run of the whole application without a harmful command |
| `AppProjection.DeckNumbersAreUnique` | app/worker/odr_worker/metadata.py:346-374 | with names on which the two keys agree, deck numbers are unique in every run of the whole application |
| `Queue.QueueStore.CreateItem` | app/worker/odr_worker/queue.py:132-154 | creation appends a ready row with the next id, or refuses |
| `Queue.QueueStore.GetOrCreateReadyItemForMatch` | app/worker/odr_worker/queue.py:156-181 | linking returns the first row of the match or appends one |
| `Queue.QueueStore.ApplyCommand` | app/worker/odr_worker/queue.py:263-326 | a command changes its own row as the state machine says, or nothing |
| `Queue.QueueStore.RecoverStartup` | app/worker/odr_worker/queue.py:328-379 | the recovery loop settles every uploading row and no other |
| `Queue.QueueStore.NextReadyItem` | app/worker/odr_worker/queue.py:246-254 | the next item is a ready one with the least id of all ready ones, and none only if none is ready |
| `Queue.QueueStore.ResetItems` | app/worker/odr_worker/queue.py:225-244 | reset empties the table and reports counts that sum to the number of rows |
| `Queue.CountsSumToRows` | app/worker/odr_worker/queue.py:210-223 | the per-state counts always sum to the number of rows |
| `Queue.CommandKeepsRow` | app/worker/odr_worker/queue.py:263-326 | an accepted command starts from no final state, keeps the row invariant and the identity, and never lowers the retry count |
| `Queue.RecoveryKeepsRow` | app/worker/odr_worker/queue.py:328-379 | recovery keeps the row invariant and leaves nothing uploading |
| `Queue.RecoveryIsIdempotent` | app/worker/odr_worker/queue.py:328-379 | recovering a recovered table changes nothing, whatever files are gone by then |
| `Queue.StateGraph` | app/worker/odr_worker/queue.py:263-326 | some command moves a row to a state if and only if the state graph has that move |
| `Upload.BlockingReasons` | app/worker/odr_worker/upload.py:469-493 | the list of reasons, appended one by one |
| `Upload.NoReasonMeansUploadable` | app/worker/odr_worker/upload.py:469-493 | the list is empty if and only if everything the upload needs is there |
| `Upload.UploadStore.ProcessFound` | app/worker/odr_worker/upload.py:383-443 | processing commits the start, calls the uploader and commits the outcome, through the queue's commands |
| `Upload.UploadStore.ProcessItem` | app/worker/odr_worker/upload.py:367-373 | processing the item with a given id |
| `Upload.UploadStore.ProcessNext` | app/worker/odr_worker/upload.py:356-365 | processing the next ready item |
| `Upload.ProcessNextMakesProgress` | app/worker/odr_worker/upload.py:356-365 | a step that acts takes the lowest ready id, leaves one ready row less and touches no other row; a step does not act if and only if nothing is ready or the lowest ready row is blocked |
| `Upload.PlacesIncrease` | app/worker/odr_worker/upload.py:356-365 | repeated processing takes rows in increasing order |
| `Upload.DrainingStops` | app/worker/odr_worker/upload.py:356-365 | repeated processing stops after at most as many steps as there were ready rows |
| `Upload.RetriesAreBounded` | app/worker/odr_worker/queue.py:381-406 | under constant network errors a fresh item gets exactly max_retries + 1 uploader calls, then manual review, and nothing more |
| `UploadRuns.StepFollowsStores` | app/worker/odr_worker/upload.py:356-443 | the tables of a run are those the stores compute |
| `UploadRuns.RunKeepsInvariant` | app/worker/odr_worker/queue.py:263-379 | in every run each row keeps its invariant and its account of deliveries balances |
| `UploadRuns.NoUnaccountedDuplicate` | app/worker/odr_worker/upload.py:383-443 | in every run of all commands with crashes inside uploads and any outcomes, deliveries never exceed one plus the reviewed retries plus the started uploads an operator's command made look as if they had not arrived plus the arrived ones the uploader reported as failed |
| `UploadRuns.HarmlessRunIsBounded` | app/worker/odr_worker/upload.py:383-443 | without the commands that can hide an upload, deliveries never exceed one plus the reviewed retries plus those misreports, whatever the uploader reports |
| `UploadRuns.MisreportCanDuplicate` | app/worker/odr_worker/upload.py:175-180 | a run in which a network error after the video has arrived leads to a second delivery without any operator |
| `UploadRuns.NoUnreviewedDuplicate` | app/worker/odr_worker/upload.py:495-538 | with truthful outcomes and the operator actions retry, discard and mark as uploaded, deliveries never exceed one plus the retries out of manual review |
| `UploadRuns.NoUnreviewedDuplicateExactly` | app/worker/odr_worker/queue.py:263-326 | for every set of commands that includes the dock's, no run with truthful outcomes has an unreviewed duplicate if and only if the set holds no quota report and no failure report whose retry limit is absent or at least one |
| `UploadRuns.ClaimsCanDuplicate` | app/worker/odr_worker/queue.py:291-299 | for each of these harmful commands, a run of an item with a match in which it leads to a second delivery nobody reviewed |
| `UploadRuns.ReviewedRetryCanDuplicate` | app/worker/odr_worker/queue.py:328-379 | a run that reaches the bound: a crash hides the delivery, and the review retries it |
| `UploadRuns.ReachableRows` | app/worker/odr_worker/queue.py:263-406 | in every run a video id is present if and only if the item is uploaded, and a failed item has not used up its retries |
| `UploadRuns.RunEvolves` | app/worker/odr_worker/queue.py:263-406 | between resets uploaded and discarded rows never change, retry counts never fall and rows keep their identity |
| `UploadRuns.RecoveryNeverFindsSuccess` | app/worker/odr_worker/queue.py:337-341 | in every run the success marker that recovery looks for is absent, so an interrupted upload always goes to manual review or is discarded |
| `Metadata.MatchMetadataStore.CreateMatch` | app/worker/odr_worker/metadata.py:105-122 | creation appends a row, numbered when it names a deck, or refuses |
| `Metadata.MatchMetadataStore.UpdateMatch` | app/worker/odr_worker/metadata.py:214-238 | an edit changes one row and renumbers it when its deck key changes |
| `Metadata.MatchMetadataStore.GetOrCreateRecordingMatch` | app/worker/odr_worker/metadata.py:124-169 | the row of the session, or a new one |
| `Metadata.KeysAgree` | app/worker/odr_worker/metadata.py:346-383 | on stored names the two keys agree if and only if the name is plain: its spaces are single blanks, and each character folds to what LOWER makes of it |
| `Metadata.NextNumberExceeds` | app/worker/odr_worker/metadata.py:346-374 | the next number exceeds every number in use for the deck |
| `Metadata.RunKeepsInvariant` | app/worker/odr_worker/metadata.py:105-238 | every run of creates, edits and recordings keeps ids sorted, named rows numbered, and numbers of one deck distinct |
| `Metadata.DeckNumbersAreUnique` | app/worker/odr_worker/metadata.py:346-374 | after any run, matches of one deck carry pairwise distinct positive numbers, all below the next one |
| `Metadata.DeckNumbersAreStable` | app/worker/odr_worker/metadata.py:214-238 | a step changes a match's number only if it changes its deck key |
| `Metadata.CreatingTwiceIsUniqueExactly` | app/worker/odr_worker/metadata.py:346-383 | from any table, two matches created with one name get different numbers if and only if the name is plain |
| `Metadata.DeckNumbersAreUniqueExactly` | app/worker/odr_worker/metadata.py:346-383 | for every set of deck names, the numbers stay unique in all runs with these names if and only if each of them is plain once stripped, or refused as too long |
| `Metadata.NamesThatRepeat` | app/worker/odr_worker/metadata.py:346-383 | two spaces in a row, an ideographic space, and any letter that does not fold to what LOWER makes of it give names whose numbers repeat |
| `Launcher.WorkerProcessManager.StartAsync` | app/plugin/src/worker-launcher.cpp:286-297 | start is ignored while a thread is joinable or a worker is owned |
| `Launcher.WorkerProcessManager.Start` | app/plugin/src/worker-launcher.cpp:299-380 | the thread ends where its whole course leads: the preflight, then the outcome of spawning, then the rounds of waiting, then the cleanup or the heartbeats, each only where the thread has got there |
| `Launcher.WorkerProcessManager.Launch` | app/plugin/src/worker-launcher.cpp:346-379 | the part of the course from spawning on |
| `Launcher.WorkerProcessManager.SpawnWorker` | app/plugin/src/worker-launcher.cpp:382-439 | spawning takes both handles and the ownership together, or neither |
| `Launcher.WorkerProcessManager.WaitUntilReady` | app/plugin/src/worker-launcher.cpp:441-488 | the waiting loop takes its rounds one by one until it is ready or not ready; the rounds after that change nothing |
| `Launcher.WorkerProcessManager.CloseProcessHandles` | app/plugin/src/worker-launcher.cpp:1131-1145 | closing releases each handle that is held, the thread's first |
| `Launcher.WorkerProcessManager.CleanUp` | app/plugin/src/worker-launcher.cpp:358-376 | a worker that did not become ready is terminated and its handles are closed |
| `Launcher.WorkerProcessManager.MonitorHeartbeat` | app/plugin/src/worker-launcher.cpp:490-575 | the heartbeat loop reports a timeout at exactly those heartbeats that bring a failure streak to the threshold, each once and in order, and a replaced worker at the first foreign answer |
| `Launcher.OneDuePerStreak` | app/plugin/src/worker-launcher.cpp:553-573 | a maximal failure streak has exactly one such heartbeat if it reaches the threshold, and none otherwise |
| `Launcher.WorkerProcessManager.FinishStop` | app/plugin/src/worker-launcher.cpp:1101-1129 | stop leaves a reused worker alone and terminates and closes a spawned one |
| `LauncherRuns.ProcessesAreOwned` | app/plugin/src/worker-launcher.cpp:286-488 | in every interleaving a process handle is held if and only if the worker counts as spawned; the open handles are those held, opened equals closed plus held, nothing is closed twice, and only spawned processes are terminated |
| `LauncherRuns.NothingHeldAfterStop` | app/plugin/src/worker-launcher.cpp:1095-1129 | after stop nothing is owned, held or open, and the manager can start again |
| `LauncherRuns.RunningMeansOwned` | app/plugin/src/worker-launcher.cpp:299-380 | in every interleaving a manager that reports a running worker owns one |
| `LauncherRuns.StoppingThreadEnds` | app/plugin/src/worker-launcher.cpp:1095-1100 | from any reachable state in which stop waits, with any other events in between, the thread takes at most four more steps, is done after four, and has a step to take as long as it is not done |
| `Statistics.ResultCounts` | app/worker/odr_worker/statistics.py:173-177 | the counting loop counts every row once |
| `Statistics.Summary` | app/worker/odr_worker/statistics.py:51-63 | known and unknown results sum to the number of matches, and the win rate is the exact fraction |
| `Statistics.KeyOfDisplay` | app/worker/odr_worker/statistics.py:214-220 | the shown name of a group, case-folded, is its key, so no two groups tie in the order |
| `Statistics.AddRowIsGrouped` | app/worker/odr_worker/statistics.py:183-197 | one more row keeps the groups exact, the totals summing to the rows and the counts to the summary's |
| `Statistics.SortedIsGrouped` | app/worker/odr_worker/statistics.py:205 | sorting keeps all of this and puts the groups in strict order |
| `Statistics.GroupMatchRows` | app/worker/odr_worker/statistics.py:180-206 | before the limit there is one exact group per key, ordered by descending total and then name; the answer is the beginning of that list |
| `Statistics.AnswerIsDetermined` | app/worker/odr_worker/statistics.py:180-206 | these properties determine the answer: there is exactly one |
| `Markdown.Renderer.Line` | scripts/build_docs_site.py:152-186 | one line of the loop |
| `Markdown.Renderer.Render` | scripts/build_docs_site.py:133-192 | the whole loop with both closures |
| `Markdown.OutputIsNestedAndComplete` | scripts/build_docs_site.py:133-192 | for every input, unclosed fences included, the output is balanced under stack discipline, lists and code are never open together, items stand in lists and code lines in code, and the content is that of the lines in order |
| `Markdown.BlocksAreExact` | scripts/build_docs_site.py:133-192 | paragraphs are the maximal runs of plain lines, lists are the bullets while the list stays open, and a paragraph stands inside a list if and only if a plain line follows a list with nothing in between that closes it |
| `Markdown.TextAfterItemIsStray` | scripts/build_docs_site.py:178-189 | the two lines `- a` and `b` put a paragraph inside the list |

## Left out

- JsonExtract.FindJsonDelimiterEnd: does not model the overflow of the `int` that counts brackets, because no reply is that deep; characters are code points instead of bytes.
- JsonLookup.LookupIsExactIffUnmistaken: is about compactly printed replies and keys without characters that need escaping, because those are the replies and keys of the worker and the plugin.
- JsonFields: `response_has_items` and the `populate_` functions, which only call the extractors.
- ImageSearch.ImageMatchScore: scores and thresholds are exact fractions instead of floats, and the stride uses the exact integer square root instead of `** 0.5`.
- PngContainer.DecodePng: zlib is any function from bytes to bytes that may fail; checksums are four bytes that nobody reads, as in the code.
- App.Application.PostRecordingCommand: the overlay state, which is written after the save and read by no modelled code, the response's other texts, and a worker without a database, which only the tests build.
- AppRuns.CompletedSessionsAreUninterrupted: session identifiers never repeat, as the code expects of `uuid4`.
- UploadRuns.NoUnreviewedDuplicate: is restricted to the operator actions of the dock; `UploadRuns.NoUnreviewedDuplicateExactly` says which further commands may be allowed, and `UploadRuns.NoUnaccountedDuplicate` is the bound for all of them. Both of the former take outcomes to be truthful: a network, quota or authorization error never hides a delivery. The code reports any `OSError` as a network error, so this is an assumption about the service; `UploadRuns.HarmlessRunIsBounded` is the bound without it.
- Metadata.DeckNumbersAreUnique: is restricted to names on which the two keys agree; `Metadata.DeckNumbersAreUniqueExactly` says that exactly these names may be allowed.
- Launcher.WorkerProcessManager.MonitorHeartbeat: does not model the wrap-around of the failure counter after 2^32 heartbeats, nor the overlay, upload and queue fetches after a good probe.
- Launcher.WorkerProcessManager.Start: the status texts, the probe's own checks of versions and directories, and platforms other than Windows.
- Statistics.GroupMatchRows: takes the capped limit as given, sorts with an insertion sort in place of the library's, and leaves the rounding of win rates out.
- Markdown.Renderer.Render: splitting into lines, inline markup and HTML escaping.
- Text.Fold: the table behind `casefold` is any that meets the stated conditions; characters are Unicode scalar values, so lone surrogates, which the database refuses, are not modelled.
- Upload: `_sort_upload_items_for_ui`, `next_upload_target`, readiness reports, the Google client and OAuth, whose answers are inputs here.
- Queue: SQLite, its connections and migrations, evidence JSON and timestamps; a store method is one atomic step, so two commands on one row at the same time are not modelled.
- Metadata: upload templates, tags, the other editable fields, and search.
- Detection: the payload formats of a frame, and the configuration and template files.
- Recording: timestamps, and the saved file's own text format beyond readable and unreadable.
- Setup wizard, screenshots, exports, video preview, updates, overlay, Qt, OBS and WinHTTP: user interface and foreign calls.
